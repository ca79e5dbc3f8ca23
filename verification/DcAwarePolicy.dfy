/**
 * The data-center-aware load balancing policy (`dc_aware_policy.cpp`): the live hosts
 * of every data center, kept up to date as hosts come and go, and the query plans
 * that go through them. The lists are copy-on-write pointers in the original; they
 * are values here, which `CopyOnWrite` shows to be what such pointers amount to.
 */
module DcAwarePolicies {
  import opened Options
  import opened QueryPlans
  import opened HostLists
  import opened HostChanges

  predicate IsDcLocal(cl: Consistency) {
    cl == LocalOne || cl == LocalQuorum
  }

  datatype Consistency = LocalOne | LocalQuorum | OtherConsistency

  class DCAwarePolicy {
    const used: nat
    const skipRemoteForLocal: bool
    var localDc: string
    var local: seq<Host>
    var dcs: seq<string>
    var remote: map<string, seq<Host>>
    var index: nat

    ghost function View(): Listing
      reads this`localDc, this`local, this`dcs, this`remote
    {
      Listing(localDc, local, dcs, remote)
    }

    ghost predicate Valid()
      reads this
    {
      Sound(View())
    }

    /** What a plan for a request of this consistency depends on. */
    ghost function EnvFor(cl: Consistency): Env
      reads this`local, this`dcs, this`remote
    {
      Env(local, dcs, remote, used, skipRemoteForLocal && IsDcLocal(cl))
    }

    constructor (localDc: string, used: nat, skipRemoteForLocal: bool)
      ensures Valid() && this.localDc == localDc && index == 0
      ensures this.used == used && this.skipRemoteForLocal == skipRemoteForLocal
      ensures View() == NewListing(localDc) && Placed(View())
    {
      this.localDc, this.used, this.skipRemoteForLocal := localDc, used, skipRemoteForLocal;
      local, dcs, remote, index := [], [], map[], 0;
    }

    /** `add_host_to_dc`. */
    method AddHostToDc(host: Host)
      modifies this`dcs, this`remote
      ensures remote == ListsWith(old(remote), host) && dcs == DcsWith(old(remote), old(dcs), host.dc)
    {
      if host.dc !in remote {
        dcs := Inserted(dcs, host.dc);
        remote := remote[host.dc := [host]];
      } else {
        var hosts := AddHost(remote[host.dc], host);
        remote := remote[host.dc := hosts];
      }
    }

    /** `on_add`, and `on_up`: it keeps the local list in order exactly when the host fits. */
    method OnAdd(host: Host)
      requires Valid()
      modifies this`localDc, this`local, this`dcs, this`remote
      ensures Valid() && View() == Added(old(View()), host)
      ensures host in Under(View(), host.dc)
      ensures old(Placed(View())) ==> (Placed(View()) <==> old(Fits(View(), host)))
    {
      AddedSound(View(), host);
      AddedIsThere(View(), host);
      if Placed(View()) {
        AddedPlaced(View(), host);
      }
      if localDc == "" && host.dc != "" {
        localDc := host.dc;
      }
      if host.dc == localDc {
        local := local + [host];
      } else {
        AddHostToDc(host);
      }
    }

    /** `on_remove`, and `on_down`. */
    method OnRemove(host: Host)
      requires Valid()
      modifies this`local, this`remote
      ensures Valid() && View() == Removed(old(View()), host)
      ensures old(Placed(View())) ==> Placed(View()) && Dropped(old(View()), View(), host)
    {
      RemovedSound(View(), host);
      if Placed(View()) {
        RemovedPlaced(View(), host);
        RemovedDrops(View(), host);
      }
      if host.dc == localDc {
        local := RemoveHost(local, host);
      } else if host.dc in remote {
        var hosts := RemoveHost(remote[host.dc], host);
        remote := remote[host.dc := hosts];
      }
    }

    method Apply(change: Change)
      requires Valid()
      modifies this`localDc, this`local, this`dcs, this`remote
      ensures Valid() && View() == Changed(old(View()), change)
    {
      match change
      case Come(host) => OnAdd(host);
      case Go(host) => OnRemove(host);
    }

    /** `get_hosts`. */
    method GetHosts(dc: string) returns (hosts: seq<Host>)
      ensures hosts == if dc in remote then remote[dc] else []
    {
      hosts := if dc in remote then remote[dc] else [];
    }

    /** `new_query_plan`: consecutive plans start one host further on. */
    method NewQueryPlan(cl: Consistency) returns (plan: DCAwareQueryPlan)
      requires Valid()
      modifies this`index
      ensures Valid() && fresh(plan) && plan.policy == this && plan.Valid() && index == old(index) + 1
      ensures plan.Remaining() == Candidates(EnvFor(cl), old(index))
    {
      plan := new DCAwareQueryPlan(this, cl, index);
      index := index + 1;
    }
  }

  /** The first host that is up, and what is left behind it. */
  function Taken(hosts: seq<Host>, up: set<Host>): (Option<Host>, seq<Host>) {
    if hosts == [] then (None, [])
    else if hosts[0] in up then (Some(hosts[0]), hosts[1..])
    else Taken(hosts[1..], up)
  }

  /** Taking host after host gives those that are up, in order. */
  lemma {:induction false} TakenIsUp(hosts: seq<Host>, up: set<Host>)
    ensures Up(hosts, up) == [] <==> Taken(hosts, up).0 == None
    ensures Taken(hosts, up).0 == None ==> Taken(hosts, up).1 == []
    ensures hosts != [] ==> |Taken(hosts, up).1| < |hosts|
    ensures Taken(hosts, up).0.Some? ==>
      Up(hosts, up) == [Taken(hosts, up).0.value] + Up(Taken(hosts, up).1, up)
    decreases |hosts|
  {
    if hosts != [] && hosts[0] !in up {
      TakenIsUp(hosts[1..], up);
    }
  }

  /** The hosts left of the list at hand; one of the two counts is always zero. */
  function InHand(local: nat, remote: nat): nat { local + remote }

  class DCAwareQueryPlan {
    const policy: DCAwarePolicy
    const cl: Consistency
    var hosts: seq<Host>
    var remoteDcs: Option<seq<string>>
    var localRemaining: nat
    var remoteRemaining: nat
    var index: nat

    ghost predicate Valid()
      reads this
    {
      && (localRemaining > 0 || remoteRemaining > 0 ==> hosts != [])
      && (localRemaining > 0 ==> remoteRemaining == 0 && remoteDcs.None?)
      && (remoteRemaining > 0 ==> !(policy.skipRemoteForLocal && IsDcLocal(cl)))
    }

    /** The data centers still to come. */
    ghost function DcsLeft(): seq<string>
      reads this, policy`dcs
    {
      if remoteDcs.Some? then remoteDcs.value else policy.dcs
    }

    /** The hosts that the plan still has to look at, in order. */
    ghost function Remaining(): seq<Host>
      requires Valid()
      reads this, policy`local, policy`dcs, policy`remote
    {
      PlanLeft(policy.EnvFor(cl), hosts, index, InHand(localRemaining, remoteRemaining), DcsLeft())
    }

    /** The local hosts among them: those of the list as it was when the plan was made. */
    ghost function LocalAhead(): seq<Host>
      requires Valid()
      reads this
    {
      Window(hosts, index, localRemaining)
    }

    constructor (policy: DCAwarePolicy, cl: Consistency, start: nat)
      ensures this.policy == policy && this.cl == cl && Valid()
      ensures Remaining() == Candidates(policy.EnvFor(cl), start)
      ensures LocalAhead() == Window(policy.local, start, |policy.local|)
    {
      this.policy, this.cl := policy, cl;
      hosts := policy.local;
      localRemaining := |policy.local|;
      remoteRemaining := 0;
      remoteDcs := None;
      index := start;
      new;
      ghost var env, here := policy.EnvFor(cl), InHand(localRemaining, remoteRemaining);
      assert Remaining() == PlanLeft(env, env.local, start, here, env.dcs);
      NewPlanLeft(env, start, here);
    }

    /** One round of either loop: the next host of the list at hand. */
    method NextHost(local: bool) returns (host: Host)
      requires Valid() && if local then localRemaining > 0 else remoteRemaining > 0 && localRemaining == 0
      modifies this`localRemaining, this`remoteRemaining, this`index
      ensures Valid() && old(Remaining()) == [host] + Remaining()
      ensures local ==> localRemaining == old(localRemaining) - 1 && remoteRemaining == old(remoteRemaining)
      ensures local ==> old(LocalAhead()) == [host] + LocalAhead()
      ensures !local ==> remoteRemaining == old(remoteRemaining) - 1 && localRemaining == old(localRemaining)
    {
      if local {
        WindowStep(hosts, index, index + 1, localRemaining);
        localRemaining := localRemaining - 1;
      } else {
        remoteRemaining := remoteRemaining - 1;
      }
      host := hosts[index % |hosts|];
      index := index + 1;
      ghost var before := InHand(old(localRemaining), old(remoteRemaining));
      ghost var after := InHand(localRemaining, remoteRemaining);
      assert after == before - 1;
      PlanStep(policy.EnvFor(cl), hosts, old(index), before, DcsLeft(), index, after);
    }

    /** Going on to the hosts of the next remote data center. */
    method NextDc()
      requires Valid() && localRemaining == remoteRemaining == 0 && remoteDcs.Some? && remoteDcs.value != []
      requires !(policy.skipRemoteForLocal && IsDcLocal(cl))
      modifies this`hosts, this`remoteRemaining, this`remoteDcs
      ensures Valid() && Remaining() == old(Remaining()) && localRemaining == 0
      ensures remoteDcs == Some(old(remoteDcs).value[1..])
    {
      var dc := remoteDcs.value[0];
      ghost var env := policy.EnvFor(cl);
      assert InHand(localRemaining, remoteRemaining) == 0;
      PlanNextDc(env, hosts, index, remoteDcs.value);
      hosts := policy.GetHosts(dc);
      remoteRemaining := if |hosts| < policy.used then |hosts| else policy.used;
      remoteDcs := Some(remoteDcs.value[1..]);
      assert hosts == env.HostsOf(dc) && InHand(localRemaining, remoteRemaining) == env.Quota(dc);
    }

    /** `compute_next`: the next host that is up, or none once there are no more. */
    method ComputeNext(up: set<Host>) returns (next: Option<Host>)
      requires Valid()
      modifies this
      ensures Valid() && (next, Remaining()) == Taken(old(Remaining()), up)
      ensures LocalAhead() == Taken(old(LocalAhead()), up).1
      ensures Taken(old(LocalAhead()), up).0.Some? ==> next == Taken(old(LocalAhead()), up).0
    {
      while localRemaining > 0
        invariant Valid() && Taken(Remaining(), up) == Taken(old(Remaining()), up)
        invariant Taken(LocalAhead(), up) == Taken(old(LocalAhead()), up)
      {
        var host := NextHost(true);
        if host in up {
          return Some(host);
        }
      }
      if policy.skipRemoteForLocal && IsDcLocal(cl) {
        PlanEnd(policy.EnvFor(cl), hosts, index, DcsLeft());
        return None;
      }
      if remoteDcs.None? {
        remoteDcs := Some(policy.dcs);
      }
      next := ComputeNextRemote(up);
    }

    /** The loops over the remote data centers. */
    method ComputeNextRemote(up: set<Host>) returns (next: Option<Host>)
      requires Valid() && localRemaining == 0 && remoteDcs.Some?
      requires !(policy.skipRemoteForLocal && IsDcLocal(cl))
      modifies this
      ensures Valid() && (next, Remaining()) == Taken(old(Remaining()), up) && localRemaining == 0
    {
      while true
        invariant Valid() && localRemaining == 0 && remoteDcs.Some?
        invariant Taken(Remaining(), up) == Taken(old(Remaining()), up)
        decreases |remoteDcs.value|
      {
        ghost var dcs := remoteDcs;
        while remoteRemaining > 0
          invariant Valid() && localRemaining == 0 && remoteDcs == dcs
          invariant Taken(Remaining(), up) == Taken(old(Remaining()), up)
        {
          var host := NextHost(false);
          if host in up {
            return Some(host);
          }
        }
        if remoteDcs.value == [] {
          PlanEnd(policy.EnvFor(cl), hosts, index, []);
          return None;
        }
        NextDc();
      }
    }

    /** A whole plan while the policy and the hosts stay as they are. */
    method Exhaust(up: set<Host>) returns (taken: seq<Host>)
      requires Valid()
      modifies this
      ensures Valid() && taken == Up(old(Remaining()), up) && Remaining() == []
    {
      taken := [];
      ghost var all := Up(Remaining(), up);
      TakenIsUp(Remaining(), up);
      var next := ComputeNext(up);
      while next.Some?
        invariant Valid() && (next.None? ==> Remaining() == [])
        invariant all == taken + Ahead(next, Remaining(), up)
        decreases |Remaining()|, next.Some?
      {
        ghost var left := Remaining();
        TakenIsUp(left, up);
        AheadStep(taken, next.value, left, up);
        taken := taken + [next.value];
        next := ComputeNext(up);
      }
    }
  }

  /** The hosts still to be handed out, the next one among them. */
  ghost function Ahead(next: Option<Host>, rest: seq<Host>, up: set<Host>): seq<Host> {
    if next.Some? then [next.value] + Up(rest, up) else []
  }

  lemma AheadStep(taken: seq<Host>, host: Host, rest: seq<Host>, up: set<Host>)
    ensures taken + Ahead(Some(host), rest, up) == taken + [host] + Ahead(Taken(rest, up).0, Taken(rest, up).1, up)
  {
    TakenIsUp(rest, up);
    assert taken + ([host] + Up(rest, up)) == taken + [host] + Up(rest, up);
  }

  /**
   * What a plan hands out, followed to its end: first the local hosts that are up, each as often as
   * it is listed, and then hosts of the remote data centers, no more than the limit of each and no
   * fewer if they are up and not skipped. With the local list in order no host comes twice.
   */
  ghost predicate HandedOut(l: Listing, used: nat, skip: bool, up: set<Host>, taken: seq<Host>, n: nat) {
    && n <= |taken| && multiset(taken[..n]) == multiset(Up(l.local, up))
    && (forall h :: h in taken[n..] ==> h in up && h.dc in l.remote)
    && (skip ==> taken[n..] == [])
    && (forall dc :: |OfDc(taken[n..], dc)| <= used)
    && (forall dc :: dc in l.remote && !skip && AllAreUp(l.remote[dc], up) ==>
          |OfDc(taken[n..], dc)| == Least(used, |l.remote[dc]|))
    && (Placed(l) ==> forall h :: multiset(taken)[h] <= 1)
    && (Placed(l) ==> forall h :: h in l.local ==> multiset(taken)[h] == Once(h in up))
  }

  /** A new plan, followed to its end while the policy and the hosts stay as they are. */
  method WholePlan(policy: DCAwarePolicy, cl: Consistency, up: set<Host>) returns (taken: seq<Host>, n: nat)
    requires policy.Valid()
    modifies policy`index
    ensures policy.index == old(policy.index) + 1
    ensures HandedOut(policy.View(), policy.used, policy.skipRemoteForLocal && (cl == LocalOne || cl == LocalQuorum),
                      up, taken, n)
  {
    ghost var start, env := policy.index, policy.EnvFor(cl);
    taken := FollowNewPlan(policy, cl, up);
    n := CountUp(policy.local, up);
    PlanHandsOut(policy.View(), env, start, up, taken, n);
  }

  method FollowNewPlan(policy: DCAwarePolicy, cl: Consistency, up: set<Host>) returns (taken: seq<Host>)
    requires policy.Valid()
    modifies policy`index
    ensures policy.index == old(policy.index) + 1
    ensures taken == Up(Candidates(policy.EnvFor(cl), old(policy.index)), up)
  {
    var plan := policy.NewQueryPlan(cl);
    taken := plan.Exhaust(up);
  }

  function Least(a: nat, b: nat): nat { if a < b then a else b }

  method CountUp(hosts: seq<Host>, up: set<Host>) returns (n: nat)
    ensures n == |Up(hosts, up)|
  {
    n := 0;
    for i := 0 to |hosts|
      invariant n + |Up(hosts[i..], up)| == |Up(hosts, up)|
    {
      assert hosts[i..][1..] == hosts[i + 1..];
      if hosts[i] in up {
        n := n + 1;
      }
    }
  }

  lemma PlanHandsOut(l: Listing, env: Env, start: nat, up: set<Host>, taken: seq<Host>, n: nat)
    requires Sound(l) && env == l.EnvOf(env.used, env.skip)
    requires taken == Up(Candidates(env, start), up) && n == |Up(l.local, up)|
    ensures HandedOut(l, env.used, env.skip, up, taken, n)
  {
    ListsForPlans(l, env.used, env.skip);
    LocalHostsFirst(env, start, up);
    var first, rest := Up(LocalPart(env, start), up), Up(RemoteTail(env, start), up);
    assert |first| == |multiset(first)| == n;
    assert taken[..n] == first && taken[n..] == rest;
    forall h | h in rest
      ensures h in up && h.dc in l.remote
    {
      RemoteHostsLast(env, start, up, h);
    }
    forall dc: string
      ensures |OfDc(rest, dc)| <= env.used
      ensures dc in l.remote && !env.skip && AllAreUp(l.remote[dc], up) ==>
                |OfDc(rest, dc)| == Least(env.used, |l.remote[dc]|)
    {
      FewRemoteHosts(env, start, up, dc);
    }
    if Placed(l) {
      forall h: Host
        ensures multiset(taken)[h] <= 1 && (h in l.local ==> multiset(taken)[h] == Once(h in up))
      {
        EachHostOnce(env, start, up, h);
      }
    }
  }

  /** The first host of a new plan, when the local hosts are up. */
  method FirstHostOf(policy: DCAwarePolicy, cl: Consistency, up: set<Host>) returns (first: Host)
    requires policy.Valid() && policy.local != [] && forall h :: h in policy.local ==> h in up
    modifies policy`index
    ensures policy.index == old(policy.index) + 1
    ensures first == policy.local[old(policy.index) % |policy.local|]
  {
    FirstHost(policy.EnvFor(cl), policy.index, up);
    var plan := policy.NewQueryPlan(cl);
    TakenIsUp(plan.Remaining(), up);
    var next := plan.ComputeNext(up);
    first := next.value;
  }

  /** As many plans in a row as there are local hosts, all up, start at different hosts. */
  method FirstHosts(policy: DCAwarePolicy, cl: Consistency, up: set<Host>, n: nat) returns (firsts: seq<Host>)
    requires policy.Valid() && NoDuplicates(policy.local) && n <= |policy.local|
    requires forall h :: h in policy.local ==> h in up
    modifies policy`index
    ensures |firsts| == n && NoDuplicates(firsts)
    ensures firsts == Window(policy.local, old(policy.index), n)
  {
    firsts := [];
    for i := 0 to n
      invariant policy.index == old(policy.index) + i
      invariant firsts == Window(policy.local, old(policy.index), i)
    {
      WindowAppend(policy.local, old(policy.index), i, i + 1);
      var first := FirstHostOf(policy, cl, up);
      firsts := firsts + [first];
    }
    WindowNoDuplicates(policy.local, old(policy.index), n);
  }

  /** The calls so far have given the hosts that were ahead, in order, and `left` are the others. */
  ghost predicate Served(ahead: seq<Host>, taken: seq<Option<Host>>, left: seq<Host>) {
    && (forall k :: 0 <= k < |taken| && k < |ahead| ==> taken[k] == Some(ahead[k]))
    && left == if |taken| < |ahead| then ahead[|taken|..] else []
  }

  lemma ServedOneMore(ahead: seq<Host>, taken: seq<Option<Host>>, left: seq<Host>, next: Option<Host>)
    requires Served(ahead, taken, left) && (left != [] ==> next == Some(left[0]))
    ensures Served(ahead, taken + [next], if left == [] then [] else left[1..])
  {
  }

  /** One change, and one call. */
  method FollowOnce(plan: DCAwareQueryPlan, change: Change, up: set<Host>) returns (next: Option<Host>)
    requires plan.Valid() && plan.policy.Valid()
    modifies plan, plan.policy
    ensures plan.Valid() && plan.policy.Valid() && plan.policy.View() == Changed(old(plan.policy.View()), change)
    ensures var left := old(Up(plan.LocalAhead(), up));
            && (left != [] ==> next == Some(left[0]))
            && Up(plan.LocalAhead(), up) == if left == [] then [] else left[1..]
  {
    plan.policy.Apply(change);
    TakenIsUp(plan.LocalAhead(), up);
    next := plan.ComputeNext(up);
  }

  /**
   * Hosts come and go while a plan is followed: its local hosts are those of the list as it was
   * when the plan was made, in its order.
   */
  method FollowAmidChanges(plan: DCAwareQueryPlan, changes: seq<Change>, up: set<Host>)
    returns (taken: seq<Option<Host>>)
    requires plan.Valid() && plan.policy.Valid()
    modifies plan, plan.policy
    ensures plan.Valid() && plan.policy.View() == After(old(plan.policy.View()), changes) && |taken| == |changes|
    ensures Served(old(Up(plan.LocalAhead(), up)), taken, Up(plan.LocalAhead(), up))
  {
    taken := [];
    ghost var ahead := Up(plan.LocalAhead(), up);
    for i := 0 to |changes|
      invariant plan.Valid() && plan.policy.Valid() && |taken| == i
      invariant After(plan.policy.View(), changes[i..]) == After(old(plan.policy.View()), changes)
      invariant Served(ahead, taken, Up(plan.LocalAhead(), up))
    {
      assert changes[i..][1..] == changes[i + 1..];
      ghost var left := Up(plan.LocalAhead(), up);
      var next := FollowOnce(plan, changes[i], up);
      ServedOneMore(ahead, taken, left, next);
      taken := taken + [next];
    }
  }
}
