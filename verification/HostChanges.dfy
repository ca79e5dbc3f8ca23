/**
 * What becomes of each list of live hosts when a host comes or goes, said list by list
 * (`dc_aware_policy.cpp:70-130`).
 */
module HostChanges {
  import opened QueryPlans
  import opened HostLists

  /** The hosts listed under a data center. */
  function Under(l: Listing, dc: string): seq<Host> {
    if dc == l.localDc then l.local else if dc in l.remote then l.remote[dc] else []
  }

  /** The hosts with other addresses, in order. */
  function Others(hosts: seq<Host>, address: string): (r: seq<Host>)
    ensures Unlisted(r, address)
  {
    if hosts == [] then []
    else (if hosts[0].address != address then [hosts[0]] else []) + Others(hosts[1..], address)
  }

  lemma {:induction false} OthersAreAll(hosts: seq<Host>, address: string)
    requires Unlisted(hosts, address)
    ensures Others(hosts, address) == hosts
    decreases |hosts|
  {
    if hosts != [] {
      OthersAreAll(hosts[1..], address);
    }
  }

  lemma {:induction false} WithoutIsOthers(hosts: seq<Host>, host: Host)
    requires DistinctAddresses(hosts)
    ensures WithoutHost(hosts, host) == Others(hosts, host.address)
    decreases |hosts|
  {
    if hosts != [] {
      if hosts[0].address == host.address {
        OthersAreAll(hosts[1..], host.address);
      } else {
        WithoutIsOthers(hosts[1..], host);
      }
    }
  }

  /**
   * A host that goes leaves the list of its data center; every other host stays where it was, and
   * so do the data centers.
   */
  lemma RemovedIsGone(l: Listing, host: Host, dc: string)
    requires Sound(l) && Placed(l)
    ensures var t := Removed(l, host);
            && Under(t, dc) == (if dc == host.dc then Others(Under(l, dc), host.address) else Under(l, dc))
            && Unlisted(Under(t, host.dc), host.address)
            && t.localDc == l.localDc && t.dcs == l.dcs && t.remote.Keys == l.remote.Keys
  {
    assert ListOf(Under(l, host.dc), host.dc);
    WithoutIsOthers(Under(l, host.dc), host);
  }

  /** The host is gone from the list of its data center, and no other list has changed. */
  ghost predicate Dropped(l: Listing, t: Listing, host: Host) {
    forall dc :: Under(t, dc) == if dc == host.dc then Others(Under(l, dc), host.address) else Under(l, dc)
  }

  lemma RemovedDrops(l: Listing, host: Host)
    requires Sound(l) && Placed(l)
    ensures Dropped(l, Removed(l, host), host)
  {
    forall dc
      ensures Under(Removed(l, host), dc)
              == if dc == host.dc then Others(Under(l, dc), host.address) else Under(l, dc)
    {
      RemovedIsGone(l, host, dc);
    }
  }

  lemma AddedIsThere(l: Listing, host: Host)
    ensures host in Under(Added(l, host), host.dc)
  {
    var t := Added(l, host);
    if host.dc == t.localDc {
      assert t.local[|l.local|] == host;
    } else {
      var list := if host.dc in l.remote then l.remote[host.dc] else [];
      var i := FindFirst(list, host);
      WithHostAt(list, host, i);
      assert t.remote[host.dc][i] == host;
    }
  }

  /** A host that comes joins the end of the list of its data center, or takes the place of its namesake there. */
  lemma AddedIsListed(l: Listing, host: Host, dc: string)
    requires Sound(l) && Placed(l) && Fits(l, host)
    ensures var t := Added(l, host);
            && host in Under(t, host.dc)
            && (dc != host.dc ==> Under(t, dc) == Under(l, dc))
            && (Unlisted(Under(l, host.dc), host.address) ==> Under(t, host.dc) == Under(l, host.dc) + [host])
            && Others(Under(t, host.dc), host.address) == Others(Under(l, host.dc), host.address)
            && t.localDc == (if l.localDc == "" then host.dc else l.localDc)
            && (dc in t.remote <==> dc in l.remote || (dc == host.dc && dc != t.localDc))
  {
    var list := Under(l, host.dc);
    AddedIsThere(l, host);
    var i := FindFirst(list, host);
    WithHostAt(list, host, i);
    OthersReplaced(list, host, i);
    if l.localDc == "" {
      assert host.dc !in l.remote;
    }
  }

  lemma {:induction false} OthersReplaced(hosts: seq<Host>, host: Host, i: nat)
    requires FirstWith(hosts, host, i)
    ensures Others(if i < |hosts| then hosts[i := host] else hosts + [host], host.address)
            == Others(hosts, host.address)
    decreases |hosts|
  {
    if hosts != [] && hosts[0].address != host.address {
      OthersReplaced(hosts[1..], host, i - 1);
      var after := if i < |hosts| then hosts[i := host] else hosts + [host];
      assert after[1..] == if i < |hosts| then hosts[1..][i - 1 := host] else hosts[1..] + [host];
    }
  }

  /** A host that comes and goes again leaves every list as it was. */
  lemma RemovedUndoesAdded(l: Listing, host: Host, dc: string)
    requires Sound(l) && Placed(l) && Fits(l, host) && Unlisted(Under(l, host.dc), host.address)
    ensures Under(Removed(Added(l, host), host), dc) == Under(l, dc)
  {
    AddedSound(l, host);
    AddedPlaced(l, host);
    AddedIsListed(l, host, dc);
    RemovedIsGone(Added(l, host), host, dc);
    OthersBefore(Under(l, host.dc), host);
  }

  lemma OthersBefore(hosts: seq<Host>, host: Host)
    requires Unlisted(hosts, host.address)
    ensures Others(hosts + [host], host.address) == hosts
  {
    OthersJoined(hosts, [host], host.address);
    OthersAreAll(hosts, host.address);
    assert Others([host], host.address) == [];
  }

  /** If its data center was known, nothing at all has changed. */
  lemma RemovedRestores(l: Listing, host: Host)
    requires Sound(l) && Placed(l) && Unlisted(Under(l, host.dc), host.address)
    requires host.dc == l.localDc || host.dc in l.remote
    ensures Removed(Added(l, host), host) == l
  {
    var list := Under(l, host.dc);
    WithHostAt(list, host, |list|);
    WithoutHostAt(list + [host], host, |list|);
    assert (list + [host])[..|list|] + (list + [host])[|list| + 1..] == list;
    if host.dc != l.localDc {
      var lists := l.remote[host.dc := list + [host]];
      assert lists[host.dc := list] == l.remote;
    }
  }

  lemma {:induction false} OthersJoined(a: seq<Host>, b: seq<Host>, address: string)
    ensures Others(a + b, address) == Others(a, address) + Others(b, address)
    decreases |a|
  {
    if a == [] {
      assert a + b == b;
    } else {
      var first := if a[0].address != address then [a[0]] else [];
      calc {
        Others(a + b, address);
        { assert (a + b)[1..] == a[1..] + b; }
        first + Others(a[1..] + b, address);
        { OthersJoined(a[1..], b, address); }
        first + (Others(a[1..], address) + Others(b, address));
        { Associate(first, Others(a[1..], address), Others(b, address)); }
        Others(a, address) + Others(b, address);
      }
    }
  }

  /** A host that goes down and comes up again is the last of its list. */
  lemma ComesBackLast(l: Listing, host: Host, dc: string)
    requires Sound(l) && Placed(l) && (l.localDc != "" || host.dc == "")
    ensures var t := Added(Removed(l, host), host);
            Under(t, dc) == if dc == host.dc then Others(Under(l, dc), host.address) + [host] else Under(l, dc)
  {
    RemovedSound(l, host);
    RemovedPlaced(l, host);
    RemovedIsGone(l, host, dc);
    RemovedIsGone(l, host, host.dc);
    AddedIsListed(Removed(l, host), host, dc);
  }

  // Plans

  lemma {:induction false} RemoteHostsAreListed(env: Env, dcs: seq<string>, index: nat, h: Host)
    requires RemotePlaced(env) && (forall d :: d in dcs ==> d in env.remote) && h in RemotePart(env, dcs, index)
    ensures h.dc in env.remote && h in env.remote[h.dc]
    decreases |dcs|
  {
    var quota := env.Quota(dcs[0]);
    WindowHosts(env.HostsOf(dcs[0]), index, quota);
    if h !in Window(env.HostsOf(dcs[0]), index, quota) {
      RemoteHostsAreListed(env, dcs[1..], Past(index, quota), h);
    }
  }

  /** A plan hands out a host only if it is listed under its data center. */
  lemma OnlyListedHosts(l: Listing, used: nat, skip: bool, start: nat, up: set<Host>, h: Host)
    requires Sound(l) && Placed(l) && h !in Under(l, h.dc)
    ensures multiset(Up(Candidates(l.EnvOf(used, skip), start), up))[h] == 0
  {
    var env := l.EnvOf(used, skip);
    ListsForPlans(l, used, skip);
    TimesHandedOut(env, start, up, h);
    if h in RemoteTail(env, start) {
      RemoteHostsAreListed(env, env.dcs, Past(start, |env.local|), h);
    }
    assert h in env.local ==> h.dc == l.localDc;
    assert h in multiset(env.local) <==> h in env.local;
  }

  /** A plan made after a host has gone does not hand it out. */
  lemma GoneIsNotHandedOut(l: Listing, host: Host, used: nat, skip: bool, start: nat, up: set<Host>)
    requires Sound(l) && Placed(l)
    ensures multiset(Up(Candidates(Removed(l, host).EnvOf(used, skip), start), up))[host] == 0
  {
    RemovedSound(l, host);
    RemovedPlaced(l, host);
    RemovedIsGone(l, host, host.dc);
    OnlyListedHosts(Removed(l, host), used, skip, start, up, host);
  }

  lemma {:induction false} AfterOneMore(l: Listing, changes: seq<Change>, change: Change)
    ensures After(l, changes + [change]) == Changed(After(l, changes), change)
    decreases |changes|
  {
    if changes == [] {
      assert [change][1..] == [];
      assert After(Changed(l, change), []) == Changed(l, change);
    } else {
      assert (changes + [change])[1..] == changes[1..] + [change];
      AfterOneMore(Changed(l, changes[0]), changes[1..], change);
    }
  }

  /**
   * However hosts came and went before, if every one that came fitted, a plan made after a host
   * has gone does not hand it out, and one made after it has come hands it out once if it is local
   * and up.
   */
  lemma LastChangeShows(localDc: string, changes: seq<Change>, host: Host, used: nat, skip: bool, start: nat,
                        up: set<Host>)
    requires AllFit(NewListing(localDc), changes)
    ensures var env := After(NewListing(localDc), changes + [Go(host)]).EnvOf(used, skip);
            multiset(Up(Candidates(env, start), up))[host] == 0
    ensures var l := After(NewListing(localDc), changes);
            var t := After(NewListing(localDc), changes + [Come(host)]);
            Fits(l, host) && host.dc == t.localDc ==>
              multiset(Up(Candidates(t.EnvOf(used, skip), start), up))[host] == QueryPlans.Once(host in up)
  {
    var l := After(NewListing(localDc), changes);
    ChangesPlaced(NewListing(localDc), changes);
    AfterOneMore(NewListing(localDc), changes, Go(host));
    AfterOneMore(NewListing(localDc), changes, Come(host));
    GoneIsNotHandedOut(l, host, used, skip, start, up);
    if Fits(l, host) && host.dc == Added(l, host).localDc {
      AddedSound(l, host);
      AddedPlaced(l, host);
      ListsForPlans(Added(l, host), used, skip);
      EachHostOnce(Added(l, host).EnvOf(used, skip), start, up, host);
    }
  }
}
