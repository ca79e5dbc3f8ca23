/**
 * What a data-center-aware query plan goes through (`dc_aware_policy.cpp:135-197`):
 * the hosts it still has to look at, in order. The plan hands out those that are up.
 */
module QueryPlans {
  datatype Host = Host(address: string, dc: string)

  /** The state of the policy that a plan depends on. `skip`: remote data centers are not used. */
  datatype Env = Env(local: seq<Host>, dcs: seq<string>, remote: map<string, seq<Host>>, used: nat, skip: bool) {
    function HostsOf(dc: string): seq<Host> {
      if dc in remote then remote[dc] else []
    }

    /** How many hosts of a remote data center a plan looks at. */
    function Quota(dc: string): nat {
      if |HostsOf(dc)| < used then |HostsOf(dc)| else used
    }
  }

  predicate NoDuplicates<T(==)>(s: seq<T>) {
    forall i, j :: 0 <= i < j < |s| ==> s[i] != s[j]
  }

  /** `k` hosts in a circle, from an index on. */
  function Window(hosts: seq<Host>, index: nat, k: nat): (r: seq<Host>)
    requires k > 0 ==> hosts != []
    ensures |r| == k
  {
    seq(k, j requires 0 <= j < k => hosts[Position(hosts, index, j)])
  }

  function Position(hosts: seq<Host>, index: nat, j: nat): (i: nat)
    requires hosts != []
    ensures i < |hosts|
  {
    (index + j) % |hosts|
  }

  lemma WindowStep(hosts: seq<Host>, index: nat, next: nat, k: nat)
    requires hosts != [] && k > 0 && next == index + 1
    ensures Window(hosts, index, k) == [hosts[index % |hosts|]] + Window(hosts, next, k - 1)
  {
    forall j | 0 < j < k
      ensures Window(hosts, index, k)[j] == Window(hosts, next, k - 1)[j - 1]
    {
      assert index + j == next + (j - 1);
    }
  }

  lemma WindowAppend(hosts: seq<Host>, index: nat, k: nat, next: nat)
    requires hosts != [] && next == k + 1
    ensures Window(hosts, index, next) == Window(hosts, index, k) + [hosts[(index + k) % |hosts|]]
  {
    assert Position(hosts, index, k) == (index + k) % |hosts|;
  }

  // A window meets every host at most once, and all of them once when it is full

  lemma ModDistinct(i: nat, j: nat, n: nat)
    requires i < j < i + n
    ensures i % n != j % n
  {
    if i % n == j % n {
      assert i == n * (i / n) + i % n && j == n * (j / n) + j % n;
      assert j - i == n * (j / n - i / n);
      MultipleIsLarge(j / n - i / n, n);
    }
  }

  lemma MultipleIsLarge(q: int, n: nat)
    requires n > 0 && n * q > 0
    ensures n * q >= n
  {
  }

  lemma WindowNoDuplicates(hosts: seq<Host>, index: nat, k: nat)
    requires NoDuplicates(hosts) && k <= |hosts|
    ensures NoDuplicates(Window(hosts, index, k))
  {
    var w := Window(hosts, index, k);
    forall i, j | 0 <= i < j < |w|
      ensures w[i] != w[j]
    {
      ModDistinct(index + i, index + j, |hosts|);
      var a, b := (index + i) % |hosts|, (index + j) % |hosts|;
      assert w[i] == hosts[a] && w[j] == hosts[b];
    }
  }

  lemma FullWindow(hosts: seq<Host>, index: nat)
    requires hosts != []
    ensures var r := index % |hosts|; Window(hosts, index, |hosts|) == hosts[r..] + hosts[..r]
  {
    var n := |hosts|;
    var r := index % n;
    forall j | 0 <= j < n
      ensures Window(hosts, index, n)[j] == (hosts[r..] + hosts[..r])[j]
    {
      WrapsOnce(index, j, n);
    }
  }

  lemma WrapsOnce(index: nat, j: nat, n: nat)
    requires j < n
    ensures var r := index % n; (index + j) % n == if r + j < n then r + j else r + j - n
  {
    var q, r := index / n, index % n;
    assert index == n * q + r;
    if r + j < n {
      ModIs(q, r + j, n);
    } else {
      assert n * (q + 1) == n * q + n;
      ModIs(q + 1, r + j - n, n);
    }
  }

  lemma ModIs(q: nat, r: nat, n: nat)
    requires r < n
    ensures (n * q + r) % n == r
  {
    var x := n * q + r;
    assert x == n * (x / n) + x % n;
    SameRemainder(n, q, r, x / n, x % n);
  }

  lemma SameRemainder(n: nat, p: nat, r: nat, q: nat, s: nat)
    requires r < n && s < n && n * p + r == n * q + s
    ensures r == s
  {
    assert n * (p - q) == s - r;
    if p > q {
      MultipleIsLarge(p - q, n);
    } else if p < q {
      assert n * (q - p) == r - s;
      MultipleIsLarge(q - p, n);
    }
  }

  lemma WindowHasAll(hosts: seq<Host>, index: nat)
    ensures multiset(Window(hosts, index, |hosts|)) == multiset(hosts)
  {
    if hosts != [] {
      var r := index % |hosts|;
      FullWindow(hosts, index);
      assert hosts == hosts[..r] + hosts[r..];
    }
  }

  // What is left of a plan

  /** The index once a number of hosts have been looked at. */
  function Past(index: nat, count: nat): nat { index + count }

  /** The hosts of the remote data centers, each up to its quota, the index going on. */
  function RemotePart(env: Env, dcs: seq<string>, index: nat): seq<Host>
    decreases |dcs|
  {
    if dcs == [] then []
    else
      var quota := env.Quota(dcs[0]);
      Window(env.HostsOf(dcs[0]), index, quota) + RemotePart(env, dcs[1..], Past(index, quota))
  }

  /** The hosts that are up, in order. */
  function Up(hosts: seq<Host>, up: set<Host>): seq<Host> {
    if hosts == [] then [] else (if hosts[0] in up then [hosts[0]] else []) + Up(hosts[1..], up)
  }

  /**
   * What a plan still looks at: `here` hosts of the list at hand, from an index on, and
   * then the data centers that are left.
   */
  function PlanLeft(env: Env, hosts: seq<Host>, index: nat, here: nat, dcs: seq<string>): seq<Host>
    requires here > 0 ==> hosts != []
  {
    Window(hosts, index, here) + if env.skip then [] else RemotePart(env, dcs, Past(index, here))
  }

  lemma NewPlanLeft(env: Env, start: nat, here: nat)
    requires here == |env.local|
    ensures PlanLeft(env, env.local, start, here, env.dcs) == Candidates(env, start)
  {
  }

  /** Looking at the next host of the list at hand. */
  lemma PlanStep(env: Env, hosts: seq<Host>, index: nat, here: nat, dcs: seq<string>, next: nat, rest: nat)
    requires here > 0 && hosts != [] && next == index + 1 && rest == here - 1
    ensures PlanLeft(env, hosts, index, here, dcs) ==
      [hosts[index % |hosts|]] + PlanLeft(env, hosts, next, rest, dcs)
  {
    WindowStep(hosts, index, next, here);
    var tail := if env.skip then [] else RemotePart(env, dcs, Past(index, here));
    assert Past(index, here) == Past(next, rest);
    assert [hosts[index % |hosts|]] + Window(hosts, next, rest) + tail ==
      [hosts[index % |hosts|]] + (Window(hosts, next, rest) + tail);
  }

  /** Going on to the next data center. */
  lemma PlanNextDc(env: Env, hosts: seq<Host>, index: nat, dcs: seq<string>)
    requires dcs != [] && !env.skip
    ensures PlanLeft(env, hosts, index, 0, dcs) ==
      PlanLeft(env, env.HostsOf(dcs[0]), index, env.Quota(dcs[0]), dcs[1..])
  {
    var first, quota := env.HostsOf(dcs[0]), env.Quota(dcs[0]);
    calc {
      PlanLeft(env, hosts, index, 0, dcs);
      { assert Window(hosts, index, 0) == [] && Past(index, 0) == index; }
      RemotePart(env, dcs, index);
      Window(first, index, quota) + RemotePart(env, dcs[1..], Past(index, quota));
      PlanLeft(env, first, index, quota, dcs[1..]);
    }
  }

  lemma PlanEnd(env: Env, hosts: seq<Host>, index: nat, dcs: seq<string>)
    requires dcs == [] || env.skip
    ensures PlanLeft(env, hosts, index, 0, dcs) == []
  {
    assert Window(hosts, index, 0) == [];
  }

  /** Everything a new plan looks at. */
  function Candidates(env: Env, start: nat): seq<Host> {
    LocalPart(env, start) + RemoteTail(env, start)
  }

  function LocalPart(env: Env, start: nat): seq<Host> {
    Window(env.local, start, |env.local|)
  }

  function RemoteTail(env: Env, start: nat): seq<Host> {
    if env.skip then [] else RemotePart(env, env.dcs, Past(start, |env.local|))
  }

  // What the plan hands out

  lemma Associate(a: seq<Host>, b: seq<Host>, c: seq<Host>)
    ensures a + (b + c) == a + b + c
  {
  }

  /** Every host of a list is up. */
  predicate AllAreUp(hosts: seq<Host>, up: set<Host>) {
    forall i :: 0 <= i < |hosts| ==> hosts[i] in up
  }

  lemma {:induction false} UpConcat(a: seq<Host>, b: seq<Host>, up: set<Host>)
    ensures Up(a + b, up) == Up(a, up) + Up(b, up)
    decreases |a|
  {
    if a == [] {
      assert a + b == b;
    } else {
      var first := if a[0] in up then [a[0]] else [];
      calc {
        Up(a + b, up);
        { assert (a + b)[1..] == a[1..] + b; }
        first + Up(a[1..] + b, up);
        { UpConcat(a[1..], b, up); }
        first + (Up(a[1..], up) + Up(b, up));
        { Associate(first, Up(a[1..], up), Up(b, up)); }
        Up(a, up) + Up(b, up);
      }
    }
  }

  /** Hosts that are up are handed out as often as they are met, the others never. */
  lemma {:induction false} UpCount(s: seq<Host>, up: set<Host>, h: Host)
    ensures multiset(Up(s, up))[h] == if h in up then multiset(s)[h] else 0
    decreases |s|
  {
    if s != [] {
      UpCount(s[1..], up, h);
      assert s == [s[0]] + s[1..];
    }
  }

  lemma {:induction false} CountAtMostOne(s: seq<Host>, h: Host)
    requires NoDuplicates(s)
    ensures multiset(s)[h] <= 1
    decreases |s|
  {
    if s != [] {
      assert s == [s[0]] + s[1..];
      CountAtMostOne(s[1..], h);
      if s[0] == h {
        assert h !in s[1..];
      }
    }
  }

  /** The hosts of one data center. */
  function OfDc(s: seq<Host>, dc: string): seq<Host> {
    if s == [] then [] else (if s[0].dc == dc then [s[0]] else []) + OfDc(s[1..], dc)
  }

  lemma {:induction false} OfDcConcat(a: seq<Host>, b: seq<Host>, dc: string)
    ensures OfDc(a + b, dc) == OfDc(a, dc) + OfDc(b, dc)
    decreases |a|
  {
    if a == [] {
      assert a + b == b;
    } else {
      var first := if a[0].dc == dc then [a[0]] else [];
      calc {
        OfDc(a + b, dc);
        { assert (a + b)[1..] == a[1..] + b; }
        first + OfDc(a[1..] + b, dc);
        { OfDcConcat(a[1..], b, dc); }
        first + (OfDc(a[1..], dc) + OfDc(b, dc));
        { Associate(first, OfDc(a[1..], dc), OfDc(b, dc)); }
        OfDc(a, dc) + OfDc(b, dc);
      }
    }
  }

  lemma {:induction false} OfDcIsShort(s: seq<Host>, dc: string)
    ensures |OfDc(s, dc)| <= |s|
    ensures NotInDc(s, dc) ==> OfDc(s, dc) == []
    decreases |s|
  {
    if s != [] {
      OfDcIsShort(s[1..], dc);
    }
  }

  lemma {:induction false} UpIsFewer(s: seq<Host>, up: set<Host>, dc: string)
    ensures |OfDc(Up(s, up), dc)| <= |OfDc(s, dc)|
    decreases |s|
  {
    if s != [] {
      UpIsFewer(s[1..], up, dc);
      OfDcConcat(if s[0] in up then [s[0]] else [], Up(s[1..], up), dc);
    }
  }

  /** The data centers are listed once each, and their hosts once each under their own data center. */
  ghost predicate RemotePlaced(env: Env) {
    && NoDuplicates(env.dcs)
    && (forall dc :: dc in env.dcs <==> dc in env.remote)
    && (forall dc :: dc in env.remote ==> NoDuplicates(env.remote[dc]))
    && (forall dc, h :: dc in env.remote && h in env.remote[dc] ==> h.dc == dc)
  }

  /** The local hosts are listed once each and under no other data center. */
  ghost predicate LocalPlaced(env: Env) {
    NoDuplicates(env.local) && forall h :: h in env.local ==> h.dc !in env.remote
  }

  predicate InDc(s: seq<Host>, dc: string) {
    forall i :: 0 <= i < |s| ==> s[i].dc == dc
  }

  predicate InDcs(s: seq<Host>, dcs: seq<string>) {
    forall i :: 0 <= i < |s| ==> s[i].dc in dcs
  }

  predicate NotInDc(s: seq<Host>, dc: string) {
    forall i :: 0 <= i < |s| ==> s[i].dc != dc
  }

  /** The hosts of one remote data center that a plan looks at. */
  function Segment(env: Env, dc: string, index: nat): seq<Host> {
    Window(env.HostsOf(dc), index, env.Quota(dc))
  }

  lemma SegmentHosts(env: Env, dc: string, index: nat)
    requires RemotePlaced(env) && dc in env.remote
    ensures NoDuplicates(Segment(env, dc, index)) && InDc(Segment(env, dc, index), dc)
    ensures |Segment(env, dc, index)| <= env.used
  {
    WindowNoDuplicates(env.HostsOf(dc), index, env.Quota(dc));
    var hosts := env.HostsOf(dc);
    forall i | 0 <= i < |Segment(env, dc, index)|
      ensures Segment(env, dc, index)[i].dc == dc
    {
      var h := hosts[(index + i) % |hosts|];
      assert h in env.remote[dc];
    }
  }

  lemma {:induction false} RemoteDcs(env: Env, dcs: seq<string>, index: nat)
    requires RemotePlaced(env) && forall dc :: dc in dcs ==> dc in env.remote
    ensures InDcs(RemotePart(env, dcs, index), dcs)
    decreases |dcs|
  {
    if dcs != [] {
      SegmentHosts(env, dcs[0], index);
      RemoteDcs(env, dcs[1..], Past(index, env.Quota(dcs[0])));
    }
  }

  lemma JoinedNoDuplicates(a: seq<Host>, b: seq<Host>, first: string, rest: seq<string>)
    requires NoDuplicates(a) && NoDuplicates(b) && InDc(a, first) && InDcs(b, rest) && first !in rest
    ensures NoDuplicates(a + b) && NotInDc(b, first)
  {
  }

  /** No host of the remote data centers is met twice. */
  lemma {:induction false} RemoteOnce(env: Env, dcs: seq<string>, index: nat)
    requires RemotePlaced(env) && NoDuplicates(dcs) && forall d :: d in dcs ==> d in env.remote
    ensures NoDuplicates(RemotePart(env, dcs, index))
    decreases |dcs|
  {
    if dcs != [] {
      var first, rest, next := dcs[0], dcs[1..], Past(index, env.Quota(dcs[0]));
      SegmentHosts(env, first, index);
      RemoteDcs(env, rest, next);
      RemoteOnce(env, rest, next);
      assert first !in rest;
      JoinedNoDuplicates(Segment(env, first, index), RemotePart(env, rest, next), first, rest);
    }
  }

  lemma {:induction false} OfDcIsAll(s: seq<Host>, dc: string)
    requires InDc(s, dc)
    ensures OfDc(s, dc) == s
    decreases |s|
  {
    if s != [] {
      OfDcIsAll(s[1..], dc);
    }
  }

  lemma JoinedOfDc(a: seq<Host>, b: seq<Host>, first: string, dc: string)
    requires InDc(a, first) && (dc == first ==> NotInDc(b, dc))
    ensures OfDc(a + b, dc) == if dc == first then a else OfDc(b, dc)
  {
    OfDcConcat(a, b, dc);
    if dc == first {
      OfDcIsAll(a, dc);
      OfDcIsShort(b, dc);
    } else {
      OfDcIsShort(a, dc);
    }
  }

  /** The hosts of a data center are met in one stretch, from some index on. */
  lemma {:induction false} RemoteStretch(env: Env, dcs: seq<string>, index: nat, dc: string) returns (from: nat)
    requires RemotePlaced(env) && NoDuplicates(dcs) && forall d :: d in dcs ==> d in env.remote
    ensures OfDc(RemotePart(env, dcs, index), dc) == if dc in dcs then Segment(env, dc, from) else []
    decreases |dcs|
  {
    from := index;
    if dcs != [] {
      var first, rest, next := dcs[0], dcs[1..], Past(index, env.Quota(dcs[0]));
      SegmentHosts(env, first, index);
      RemoteDcs(env, rest, next);
      assert first !in rest;
      JoinedOfDc(Segment(env, first, index), RemotePart(env, rest, next), first, dc);
      if dc != first {
        from := RemoteStretch(env, rest, next, dc);
      }
    }
  }

  lemma {:induction false} UpOfDc(s: seq<Host>, up: set<Host>, dc: string)
    ensures OfDc(Up(s, up), dc) == Up(OfDc(s, dc), up)
    decreases |s|
  {
    if s != [] {
      UpOfDc(s[1..], up, dc);
      OfDcConcat(if s[0] in up then [s[0]] else [], Up(s[1..], up), dc);
      UpConcat(if s[0].dc == dc then [s[0]] else [], OfDc(s[1..], dc), up);
    }
  }

  lemma {:induction false} AllUp(s: seq<Host>, up: set<Host>)
    requires AllAreUp(s, up)
    ensures Up(s, up) == s
    decreases |s|
  {
    if s != [] {
      AllUp(s[1..], up);
    }
  }

  lemma TailHosts(env: Env, start: nat)
    requires RemotePlaced(env)
    ensures InDcs(RemoteTail(env, start), env.dcs) && NoDuplicates(RemoteTail(env, start))
  {
    RemoteDcs(env, env.dcs, Past(start, |env.local|));
    RemoteOnce(env, env.dcs, Past(start, |env.local|));
  }

  // The hosts that a plan hands out over its life are `Up(Candidates(env, start), up)`

  /** The local hosts that are up come first, each as often as it is listed. */
  lemma LocalHostsFirst(env: Env, start: nat, up: set<Host>)
    ensures Up(Candidates(env, start), up) == Up(LocalPart(env, start), up) + Up(RemoteTail(env, start), up)
    ensures multiset(Up(LocalPart(env, start), up)) == multiset(Up(env.local, up))
  {
    UpConcat(LocalPart(env, start), RemoteTail(env, start), up);
    WindowHasAll(env.local, start);
    SameUp(LocalPart(env, start), env.local, up);
  }

  lemma SameUp(a: seq<Host>, b: seq<Host>, up: set<Host>)
    requires multiset(a) == multiset(b)
    ensures multiset(Up(a, up)) == multiset(Up(b, up))
  {
    forall h
      ensures multiset(Up(a, up))[h] == multiset(Up(b, up))[h]
    {
      UpCount(a, up, h);
      UpCount(b, up, h);
    }
  }

  function Once(b: bool): nat { if b then 1 else 0 }

  /** A host that is up is handed out as often as it is listed as local, and once more if the remote part meets it. */
  lemma TimesHandedOut(env: Env, start: nat, up: set<Host>, h: Host)
    requires RemotePlaced(env)
    ensures multiset(Up(Candidates(env, start), up))[h]
            == if h in up then multiset(env.local)[h] + Once(h in RemoteTail(env, start)) else 0
  {
    var a, b := LocalPart(env, start), RemoteTail(env, start);
    UpCount(a + b, up, h);
    WindowHasAll(env.local, start);
    TailHosts(env, start);
    CountAtMostOne(b, h);
    assert h in multiset(b) <==> h in b;
  }

  /** No host is handed out twice, whoever is up, exactly when no local one is listed twice or met again. */
  lemma NoneTwice(env: Env, start: nat)
    requires RemotePlaced(env)
    ensures (forall up, h :: multiset(Up(Candidates(env, start), up))[h] <= 1)
            <==> NoDuplicates(env.local) && forall h :: h in env.local ==> h !in RemoteTail(env, start)
  {
    var out := NoDuplicates(env.local) && forall h :: h in env.local ==> h !in RemoteTail(env, start);
    if out {
      forall up: set<Host>, h: Host
        ensures multiset(Up(Candidates(env, start), up))[h] <= 1
      {
        TimesHandedOut(env, start, up, h);
        CountAtMostOne(env.local, h);
        assert h in env.local <==> multiset(env.local)[h] > 0;
      }
    } else {
      var h := SpareHost(env, start);
      TimesHandedOut(env, start, {h}, h);
      assert multiset(Up(Candidates(env, start), {h}))[h] > 1;
    }
  }

  lemma SpareHost(env: Env, start: nat) returns (h: Host)
    requires !(NoDuplicates(env.local) && forall h :: h in env.local ==> h !in RemoteTail(env, start))
    ensures multiset(env.local)[h] + Once(h in RemoteTail(env, start)) > 1
  {
    if NoDuplicates(env.local) {
      h :| h in env.local && h in RemoteTail(env, start);
      assert h in multiset(env.local);
    } else {
      var i, j :| 0 <= i < j < |env.local| && env.local[i] == env.local[j];
      h := env.local[i];
      ListedTwice(env.local, i, j);
    }
  }

  lemma ListedTwice(hosts: seq<Host>, i: nat, j: nat)
    requires i < j < |hosts| && hosts[i] == hosts[j]
    ensures multiset(hosts)[hosts[i]] >= 2
  {
    assert hosts == hosts[..j] + hosts[j..];
    assert hosts[i] in hosts[..j] && hosts[j] in hosts[j..];
    assert hosts[i] in multiset(hosts[..j]) && hosts[j] in multiset(hosts[j..]);
  }

  /** Every local host that is up is handed out exactly once, and no host twice. */
  lemma EachHostOnce(env: Env, start: nat, up: set<Host>, h: Host)
    requires RemotePlaced(env) && LocalPlaced(env)
    ensures multiset(Up(Candidates(env, start), up))[h] <= 1
    ensures h in env.local ==> multiset(Up(Candidates(env, start), up))[h] == Once(h in up)
  {
    TimesHandedOut(env, start, up, h);
    TailHosts(env, start);
    CountAtMostOne(env.local, h);
    assert h in env.local <==> multiset(env.local)[h] > 0;
  }

  /** What follows the local hosts is of the remote data centers, and nothing when they are skipped. */
  lemma RemoteHostsLast(env: Env, start: nat, up: set<Host>, h: Host)
    requires RemotePlaced(env) && h in Up(RemoteTail(env, start), up)
    ensures !env.skip && h in up && h.dc in env.remote
  {
    UpCount(RemoteTail(env, start), up, h);
    TailHosts(env, start);
    assert h in RemoteTail(env, start);
  }

  lemma WindowHosts(hosts: seq<Host>, index: nat, k: nat)
    requires k > 0 ==> hosts != []
    ensures forall i :: 0 <= i < k ==> Window(hosts, index, k)[i] in hosts
  {
  }

  /**
   * After the local hosts as many hosts of a remote data center are met as the limit allows, or all
   * of them; those that are up are handed out. None is when remote data centers are skipped.
   */
  lemma RemoteHostsMet(env: Env, start: nat, up: set<Host>, dc: string)
    requires RemotePlaced(env) && dc in env.remote
    ensures var met := OfDc(RemoteTail(env, start), dc);
            && |met| == (if env.skip then 0 else if |env.remote[dc]| < env.used then |env.remote[dc]| else env.used)
            && (forall i :: 0 <= i < |met| ==> met[i] in env.remote[dc])
            && (!env.skip && |env.remote[dc]| <= env.used ==> multiset(met) == multiset(env.remote[dc]))
            && OfDc(Up(RemoteTail(env, start), up), dc) == Up(met, up)
  {
    UpOfDc(RemoteTail(env, start), up, dc);
    if !env.skip {
      var from := RemoteStretch(env, env.dcs, Past(start, |env.local|), dc);
      WindowHosts(env.remote[dc], from, env.Quota(dc));
      WindowHasAll(env.remote[dc], from);
    }
  }

  /**
   * After the local hosts no more hosts of a data center are handed out than the limit, exactly as
   * many if they are up, and before that none of a remote one.
   */
  lemma FewRemoteHosts(env: Env, start: nat, up: set<Host>, dc: string)
    requires RemotePlaced(env)
    ensures |OfDc(Up(RemoteTail(env, start), up), dc)| <= env.used
    ensures dc in env.remote && !env.skip && AllAreUp(env.remote[dc], up) ==>
              |OfDc(Up(RemoteTail(env, start), up), dc)|
              == if |env.remote[dc]| < env.used then |env.remote[dc]| else env.used
    ensures LocalPlaced(env) && dc in env.remote ==> OfDc(Up(LocalPart(env, start), up), dc) == []
  {
    UpIsFewer(RemoteTail(env, start), up, dc);
    if dc in env.remote {
      var met := OfDc(RemoteTail(env, start), dc);
      RemoteHostsMet(env, start, up, dc);
      if AllAreUp(env.remote[dc], up) {
        AllUp(met, up);
      }
    } else {
      TailHosts(env, start);
      OfDcIsShort(RemoteTail(env, start), dc);
    }
    if LocalPlaced(env) && dc in env.remote {
      LocalElsewhere(env, start, dc);
      UpIsFewer(LocalPart(env, start), up, dc);
      OfDcIsShort(LocalPart(env, start), dc);
    }
  }

  lemma LocalElsewhere(env: Env, start: nat, dc: string)
    requires LocalPlaced(env) && dc in env.remote
    ensures NotInDc(LocalPart(env, start), dc)
  {
    forall i | 0 <= i < |LocalPart(env, start)|
      ensures LocalPart(env, start)[i].dc != dc
    {
      assert LocalPart(env, start)[i] == env.local[(start + i) % |env.local|];
    }
  }

  lemma FirstHost(env: Env, start: nat, up: set<Host>)
    requires env.local != [] && forall h :: h in env.local ==> h in up
    ensures Up(Candidates(env, start), up) != []
    ensures Up(Candidates(env, start), up)[0] == env.local[start % |env.local|]
  {
    var first := env.local[start % |env.local|];
    assert Candidates(env, start)[0] == first && first in env.local;
  }

  /** Plans with fewer than as many between them as there are local hosts, all up, start at different hosts. */
  lemma PlansStartApart(env: Env, a: nat, b: nat, up: set<Host>)
    requires NoDuplicates(env.local) && a < b < a + |env.local|
    requires forall h :: h in env.local ==> h in up
    ensures Up(Candidates(env, a), up) != [] && Up(Candidates(env, b), up) != []
    ensures Up(Candidates(env, a), up)[0] != Up(Candidates(env, b), up)[0]
  {
    FirstHost(env, a, up);
    FirstHost(env, b, up);
    ModDistinct(a, b, |env.local|);
  }
}
