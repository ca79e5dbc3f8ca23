/**
 * The live hosts that the data-center-aware policy lists (`dc_aware_policy.cpp:70-121`,
 * `host.cpp:21-42`): what hosts that come and go do to the lists, what holds whatever comes and
 * goes, and exactly when the local list stays in order.
 */
module HostLists {
  import opened QueryPlans

  /** `add_host`: a host with the same address is replaced, a new one is appended. */
  function WithHost(hosts: seq<Host>, host: Host): seq<Host> {
    if hosts == [] then [host]
    else if hosts[0].address == host.address then [host] + hosts[1..]
    else [hosts[0]] + WithHost(hosts[1..], host)
  }

  /** `remove_host`: the first host with the same address goes. */
  function WithoutHost(hosts: seq<Host>, host: Host): seq<Host> {
    if hosts == [] then []
    else if hosts[0].address == host.address then hosts[1..]
    else [hosts[0]] + WithoutHost(hosts[1..], host)
  }

  /** `i` is the position of the first host with the address, or the length. */
  ghost predicate FirstWith(hosts: seq<Host>, host: Host, i: nat) {
    && i <= |hosts|
    && (forall k :: 0 <= k < i ==> hosts[k].address != host.address)
    && (i < |hosts| ==> hosts[i].address == host.address)
  }

  lemma {:induction false} WithHostAt(hosts: seq<Host>, host: Host, i: nat)
    requires FirstWith(hosts, host, i)
    ensures WithHost(hosts, host) == if i < |hosts| then hosts[i := host] else hosts + [host]
    decreases |hosts|
  {
    if i > 0 {
      WithHostAt(hosts[1..], host, i - 1);
    }
  }

  lemma {:induction false} WithoutHostAt(hosts: seq<Host>, host: Host, i: nat)
    requires FirstWith(hosts, host, i)
    ensures WithoutHost(hosts, host) == if i < |hosts| then hosts[..i] + hosts[i + 1..] else hosts
    decreases |hosts|
  {
    if i > 0 {
      WithoutHostAt(hosts[1..], host, i - 1);
    }
  }

  /** The loop that `add_host` and `remove_host` have in common. */
  method FindAddress(hosts: seq<Host>, host: Host) returns (i: nat)
    ensures FirstWith(hosts, host, i)
  {
    i := 0;
    while i < |hosts| && hosts[i].address != host.address
      invariant i <= |hosts| && forall k :: 0 <= k < i ==> hosts[k].address != host.address
    {
      i := i + 1;
    }
  }

  /** `add_host` of `host.cpp:21-32` on a list. */
  method AddHost(hosts: seq<Host>, host: Host) returns (r: seq<Host>)
    ensures r == WithHost(hosts, host)
  {
    var i := FindAddress(hosts, host);
    WithHostAt(hosts, host, i);
    r := if i < |hosts| then hosts[i := host] else hosts + [host];
  }

  /** `remove_host` of `host.cpp:34-42` on a list. */
  method RemoveHost(hosts: seq<Host>, host: Host) returns (r: seq<Host>)
    ensures r == WithoutHost(hosts, host)
  {
    var i := FindAddress(hosts, host);
    WithoutHostAt(hosts, host, i);
    r := if i < |hosts| then hosts[..i] + hosts[i + 1..] else hosts;
  }

  // The data centers are kept in the order of their names

  predicate Before(a: string, b: string) {
    if a == [] then b != []
    else if b == [] then false
    else a[0] < b[0] || (a[0] == b[0] && Before(a[1..], b[1..]))
  }

  lemma {:induction false} BeforeOrUp(a: string, b: string)
    ensures Before(a, b) || Before(b, a) || a == b
  {
    if a != [] && b != [] && a[0] == b[0] {
      BeforeOrUp(a[1..], b[1..]);
      assert a == [a[0]] + a[1..] && b == [b[0]] + b[1..];
    }
  }

  lemma {:induction false} BeforeItself(a: string)
    ensures !Before(a, a)
  {
    if a != [] {
      BeforeItself(a[1..]);
    }
  }

  lemma {:induction false} BeforeOnward(a: string, b: string, c: string)
    requires Before(a, b) && Before(b, c)
    ensures Before(a, c)
  {
    if a != [] && a[0] == b[0] && b[0] == c[0] {
      BeforeOnward(a[1..], b[1..], c[1..]);
    }
  }

  predicate Sorted(keys: seq<string>) {
    forall i, j :: 0 <= i < j < |keys| ==> Before(keys[i], keys[j])
  }

  lemma SortedOnce(keys: seq<string>)
    requires Sorted(keys)
    ensures NoDuplicates(keys)
  {
    forall i, j | 0 <= i < j < |keys|
      ensures keys[i] != keys[j]
    {
      BeforeItself(keys[i]);
    }
  }

  function Inserted(keys: seq<string>, dc: string): seq<string> {
    if keys == [] then [dc]
    else if Before(dc, keys[0]) then [dc] + keys
    else [keys[0]] + Inserted(keys[1..], dc)
  }

  lemma {:induction false} InsertedMembers(keys: seq<string>, dc: string)
    ensures forall k :: k in Inserted(keys, dc) <==> k == dc || k in keys
    decreases |keys|
  {
    if keys != [] {
      InsertedMembers(keys[1..], dc);
      assert forall k :: k in keys <==> k == keys[0] || k in keys[1..];
    }
  }

  lemma {:induction false} InsertedSorted(keys: seq<string>, dc: string)
    requires Sorted(keys) && dc !in keys
    ensures Sorted(Inserted(keys, dc))
    decreases |keys|
  {
    if keys == [] {
    } else if Before(dc, keys[0]) {
      forall k | k in keys
        ensures Before(dc, k)
      {
        if k != keys[0] {
          BeforeOnward(dc, keys[0], k);
        }
      }
      ConsSorted(dc, keys);
    } else {
      BeforeOrUp(dc, keys[0]);
      InsertedMembers(keys[1..], dc);
      InsertedSorted(keys[1..], dc);
      ConsSorted(keys[0], Inserted(keys[1..], dc));
    }
  }

  lemma ConsSorted(k: string, keys: seq<string>)
    requires Sorted(keys) && forall other :: other in keys ==> Before(k, other)
    ensures Sorted([k] + keys)
  {
  }

  /** The remote lists once a host has come, as `add_host_to_dc` changes them. */
  function ListsWith(lists: map<string, seq<Host>>, host: Host): map<string, seq<Host>> {
    lists[host.dc := if host.dc in lists then WithHost(lists[host.dc], host) else [host]]
  }

  function DcsWith(lists: map<string, seq<Host>>, dcs: seq<string>, dc: string): seq<string> {
    if dc in lists then dcs else Inserted(dcs, dc)
  }

  function ListsWithout(lists: map<string, seq<Host>>, host: Host): map<string, seq<Host>> {
    if host.dc in lists then lists[host.dc := WithoutHost(lists[host.dc], host)] else lists
  }

  /** The lists of the policy. The local list is kept apart from those of the other data centers. */
  datatype Listing = Listing(localDc: string, local: seq<Host>, dcs: seq<string>, remote: map<string, seq<Host>>) {
    function EnvOf(used: nat, skip: bool): Env {
      Env(local, dcs, remote, used, skip)
    }
  }

  /** `on_add`: the first data center that is seen becomes the local one. */
  function Added(l: Listing, host: Host): Listing {
    var localDc := if l.localDc == "" then host.dc else l.localDc;
    if host.dc == localDc then l.(localDc := localDc, local := l.local + [host])
    else l.(remote := ListsWith(l.remote, host), dcs := DcsWith(l.remote, l.dcs, host.dc))
  }

  /** `on_remove`. */
  function Removed(l: Listing, host: Host): Listing {
    if host.dc == l.localDc then l.(local := WithoutHost(l.local, host))
    else l.(remote := ListsWithout(l.remote, host))
  }

  predicate Unlisted(hosts: seq<Host>, address: string) {
    forall i :: 0 <= i < |hosts| ==> hosts[i].address != address
  }

  predicate DistinctAddresses(hosts: seq<Host>) {
    forall i, j :: 0 <= i < j < |hosts| ==> hosts[i].address != hosts[j].address
  }

  predicate ListOf(hosts: seq<Host>, dc: string) {
    DistinctAddresses(hosts) && InDc(hosts, dc)
  }

  /** What no change can spoil. */
  ghost predicate Sound(l: Listing) {
    && Sorted(l.dcs) && (forall dc :: dc in l.dcs <==> dc in l.remote)
    && l.localDc !in l.remote && (l.localDc == "" ==> l.remote == map[] && l.dcs == [])
    && forall dc :: dc in l.remote ==> ListOf(l.remote[dc], dc)
  }

  /** The local list is in order: no address twice, and every host of the local data center. */
  predicate Placed(l: Listing) {
    ListOf(l.local, l.localDc)
  }

  lemma WithHostKeeps(hosts: seq<Host>, host: Host, i: nat)
    requires ListOf(hosts, host.dc) && FirstWith(hosts, host, i)
    ensures ListOf(WithHost(hosts, host), host.dc)
  {
    WithHostAt(hosts, host, i);
  }

  lemma WithoutHostKeeps(hosts: seq<Host>, host: Host, dc: string, i: nat)
    requires ListOf(hosts, dc) && FirstWith(hosts, host, i)
    ensures ListOf(WithoutHost(hosts, host), dc)
  {
    WithoutHostAt(hosts, host, i);
  }

  lemma {:induction false} FindFirst(hosts: seq<Host>, host: Host) returns (i: nat)
    ensures FirstWith(hosts, host, i)
    decreases |hosts|
  {
    i := 0;
    if hosts != [] && hosts[0].address != host.address {
      i := FindFirst(hosts[1..], host);
      i := i + 1;
    }
  }

  lemma AddedSound(l: Listing, host: Host)
    requires Sound(l)
    ensures Sound(Added(l, host))
  {
    if l.localDc != "" && host.dc != l.localDc {
      if host.dc in l.remote {
        var i := FindFirst(l.remote[host.dc], host);
        WithHostKeeps(l.remote[host.dc], host, i);
      } else {
        InsertedMembers(l.dcs, host.dc);
        InsertedSorted(l.dcs, host.dc);
      }
    }
  }

  lemma RemovedSound(l: Listing, host: Host)
    requires Sound(l)
    ensures Sound(Removed(l, host))
  {
    if host.dc != l.localDc && host.dc in l.remote {
      var i := FindFirst(l.remote[host.dc], host);
      WithoutHostKeeps(l.remote[host.dc], host, host.dc, i);
    }
  }

  /**
   * What the caller has to see to: a local host is not listed yet, and the host that decides which
   * data center is the local one finds no hosts listed before it.
   */
  predicate Fits(l: Listing, host: Host) {
    && (host.dc == l.localDc ==> Unlisted(l.local, host.address))
    && (l.localDc == "" && host.dc != "" ==> l.local == [])
  }

  /** Adding a host keeps the local list in order exactly when the host fits. */
  lemma AddedPlaced(l: Listing, host: Host)
    requires Placed(l)
    ensures Placed(Added(l, host)) <==> Fits(l, host)
  {
    var local, more := l.local, l.local + [host];
    if host.dc == l.localDc {
      if !Unlisted(local, host.address) {
        var i :| 0 <= i < |local| && local[i].address == host.address;
        assert more[i].address == more[|local|].address;
      }
      assert forall i :: 0 <= i < |local| ==> more[i] == local[i];
    } else if l.localDc == "" && local != [] {
      assert more[0] == local[0];
    }
  }

  lemma RemovedPlaced(l: Listing, host: Host)
    requires Placed(l)
    ensures Placed(Removed(l, host))
  {
    if host.dc == l.localDc {
      var i := FindFirst(l.local, host);
      WithoutHostKeeps(l.local, host, host.dc, i);
    }
  }

  lemma DistinctHosts(hosts: seq<Host>)
    requires DistinctAddresses(hosts)
    ensures NoDuplicates(hosts)
  {
  }

  /** What the plans need of the lists. */
  lemma ListsForPlans(l: Listing, used: nat, skip: bool)
    requires Sound(l)
    ensures RemotePlaced(l.EnvOf(used, skip))
    ensures Placed(l) ==> LocalPlaced(l.EnvOf(used, skip))
  {
    SortedOnce(l.dcs);
    forall dc | dc in l.remote
      ensures NoDuplicates(l.remote[dc]) && forall h :: h in l.remote[dc] ==> h.dc == dc
    {
      assert ListOf(l.remote[dc], dc);
      DistinctHosts(l.remote[dc]);
    }
    if Placed(l) {
      DistinctHosts(l.local);
      assert forall h :: h in l.local ==> h.dc == l.localDc;
    }
  }

  // Hosts that come and go

  datatype Change = Come(host: Host) | Go(host: Host)

  function Changed(l: Listing, change: Change): Listing {
    match change
    case Come(host) => Added(l, host)
    case Go(host) => Removed(l, host)
  }

  function After(l: Listing, changes: seq<Change>): Listing
    decreases |changes|
  {
    if changes == [] then l else After(Changed(l, changes[0]), changes[1..])
  }

  /** Every host that comes fits. */
  predicate AllFit(l: Listing, changes: seq<Change>)
    decreases |changes|
  {
    changes != [] ==>
      (changes[0].Come? ==> Fits(l, changes[0].host)) && AllFit(Changed(l, changes[0]), changes[1..])
  }

  ghost predicate AlwaysPlaced(l: Listing, changes: seq<Change>)
    decreases |changes|
  {
    Placed(l) && (changes != [] ==> AlwaysPlaced(Changed(l, changes[0]), changes[1..]))
  }

  /** The remote lists are in order after any changes, the local one throughout exactly when every host fits. */
  lemma {:induction false} ChangesPlaced(l: Listing, changes: seq<Change>)
    requires Sound(l)
    ensures Sound(After(l, changes))
    ensures Placed(l) ==> (AlwaysPlaced(l, changes) <==> AllFit(l, changes))
    ensures AlwaysPlaced(l, changes) ==> Placed(After(l, changes))
    decreases |changes|
  {
    if changes != [] {
      match changes[0] {
        case Come(host) =>
          AddedSound(l, host);
          if Placed(l) {
            AddedPlaced(l, host);
          }
        case Go(host) =>
          RemovedSound(l, host);
          if Placed(l) {
            RemovedPlaced(l, host);
          }
      }
      ChangesPlaced(Changed(l, changes[0]), changes[1..]);
    }
  }

  function NewListing(localDc: string): Listing { Listing(localDc, [], [], map[]) }

  /**
   * Whatever comes and goes, a plan hands out a host as often as it is listed as local, and once more
   * if the remote part meets it; when every host fits, no host is handed out twice.
   */
  lemma PlansAfterChanges(localDc: string, changes: seq<Change>, used: nat, skip: bool, start: nat,
                          up: set<Host>, h: Host)
    ensures var env := After(NewListing(localDc), changes).EnvOf(used, skip);
            && RemotePlaced(env)
            && multiset(Up(Candidates(env, start), up))[h]
               == (if h in up then multiset(env.local)[h] + Once(h in RemoteTail(env, start)) else 0)
            && (AllFit(NewListing(localDc), changes) ==>
                  && LocalPlaced(env)
                  && multiset(Up(Candidates(env, start), up))[h] <= 1
                  && (h in env.local ==> multiset(Up(Candidates(env, start), up))[h] == Once(h in up)))
  {
    var l := NewListing(localDc);
    ChangesPlaced(l, changes);
    var env := After(l, changes).EnvOf(used, skip);
    ListsForPlans(After(l, changes), used, skip);
    TimesHandedOut(env, start, up, h);
    if AllFit(l, changes) {
      EachHostOnce(env, start, up, h);
    }
  }

  // The two ways to hand out a host twice

  /** A local host that comes although it is listed. */
  lemma AddedTwice(l: Listing, host: Host, used: nat, skip: bool, start: nat, up: set<Host>)
    requires Sound(l) && host in l.local && host.dc == l.localDc && host in up
    ensures multiset(Up(Candidates(Added(l, host).EnvOf(used, skip), start), up))[host] >= 2
  {
    AddedSound(l, host);
    ListsForPlans(Added(l, host), used, skip);
    TimesHandedOut(Added(l, host).EnvOf(used, skip), start, up, host);
    assert host in multiset(l.local);
  }

  /**
   * A host without a data center that came before the local one was known: it cannot be removed
   * from the local list any more, and comes back as a remote host.
   */
  lemma ComesBackAsRemote(l: Listing, host: Host, first: Host, used: nat, start: nat, up: set<Host>)
    requires Sound(l) && l.localDc == "" && host in l.local && host.dc == "" && first.dc != ""
    requires used > 0 && host in up
    ensures var env := After(l, [Come(first), Go(host), Come(host)]).EnvOf(used, false);
            && env.local == l.local + [first] && env.remote == map["" := [host]]
            && multiset(Up(Candidates(env, start), up))[host] >= 2
  {
    var changes := [Come(first), Go(host), Come(host)];
    var one := Added(l, first);
    var two := Added(one, host);
    assert changes[1..] == [Go(host), Come(host)] && changes[1..][1..] == [Come(host)];
    assert After(one, [Come(host)]) == After(two, []) == two by {
      assert [Come(host)][1..] == [];
    }
    assert Changed(one, Go(host)) == one;
    ChangesPlaced(l, changes);
    ListsForPlans(two, used, false);
    var env := two.EnvOf(used, false);
    TimesHandedOut(env, start, up, host);
    LoneRemoteHost(env, host, Past(start, |env.local|));
    assert host in multiset(l.local);
  }

  lemma LoneRemoteHost(env: Env, host: Host, index: nat)
    requires env.dcs == [""] && env.remote == map["" := [host]] && env.used > 0
    ensures host in RemotePart(env, env.dcs, index)
  {
    assert Window([host], index, 1)[0] == host;
    assert env.Quota("") == 1;
    assert RemotePart(env, env.dcs, index)[0] == host;
  }
}
