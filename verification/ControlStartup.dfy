/**
 * How the control connection starts (`control_connection.cpp:61-82, 184-289`): host
 * after host is tried, and a host that does not know the protocol version is tried
 * again with a lower one, until a connection is ready, the driver is closed, or an
 * error is reported.
 */
module ControlStartup {
  import opened Options
  import opened QueryPlans

  const HIGHEST_SUPPORTED_PROTOCOL_VERSION := 4
  const DSE_PROTOCOL_VERSION_BIT := 0x40

  // Protocol versions

  predicate IsDse(version: int) {
    version / DSE_PROTOCOL_VERSION_BIT % 2 == 1
  }

  /** The version without the bit that marks it as one of DSE. */
  function DseVersion(version: int): int {
    version % DSE_PROTOCOL_VERSION_BIT
  }

  /** The version to try after one that was refused; below the lowest of DSE come those of Cassandra. */
  function Lower(version: int): (r: int)
    requires version > 1
    ensures 0 < r < version
  {
    if IsDse(version) && DseVersion(version) <= 1 then HIGHEST_SUPPORTED_PROTOCOL_VERSION else version - 1
  }

  /** How often the version can still be lowered. */
  function StepsLeft(version: int): nat {
    if version <= 1 then 0 else 1 + StepsLeft(Lower(version))
  }

  /** From the highest version of DSE it is four steps down, from the highest of Cassandra three. */
  lemma StepsFromTheTop()
    ensures StepsLeft(0x41) == 4 && StepsLeft(HIGHEST_SUPPORTED_PROTOCOL_VERSION) == 3
  {
    assert IsDse(0x41) && DseVersion(0x41) == 1;
    assert !IsDse(4) && !IsDse(3) && !IsDse(2);
    assert StepsLeft(2) == 1;
    assert StepsLeft(3) == 2;
    assert StepsLeft(4) == 3;
  }

  /** The versions in the order in which they are tried, the two of DSE first, and none below 1. */
  lemma VersionLadder()
    ensures Lower(0x42) == 0x41 && Lower(0x41) == 4
    ensures Lower(5) == 4 && Lower(4) == 3 && Lower(3) == 2 && Lower(2) == 1
    ensures forall v :: 1 < v < 0x40 ==> Lower(v) == v - 1
  {
    assert IsDse(0x42) && DseVersion(0x42) == 2;
    assert IsDse(0x41) && DseVersion(0x41) == 1;
  }

  // The plan

  /** The hosts from a random one on, each once. */
  class StartupPlan {
    const hosts: seq<Host>
    const index: nat
    var count: nat

    constructor (hosts: seq<Host>, index: nat)
      ensures this.hosts == hosts && this.index == index && count == 0
    {
      this.hosts, this.index := hosts, index;
      count := 0;
    }

    ghost predicate Valid()
      reads this
    {
      count <= |hosts|
    }

    /** The hosts handed out so far. */
    ghost function Visited(): seq<Host>
      requires Valid()
      reads this
    {
      Window(hosts, index, count)
    }

    method ComputeNext() returns (next: Option<Host>)
      requires Valid()
      modifies this
      ensures Valid()
      ensures next.None? <==> old(count) == |hosts|
      ensures next.None? ==> count == old(count)
      ensures next.Some? ==> count == old(count) + 1 && Visited() == old(Visited()) + [next.value]
      ensures next.Some? ==> next.value == hosts[(index + old(count)) % |hosts|]
    {
      if count >= |hosts| {
        return None;
      }
      var i := (index + count) % |hosts|;
      count := count + 1;
      WindowAppend(hosts, index, count - 1, count);
      next := Some(hosts[i]);
    }
  }

  // The connection

  datatype ControlState = New | Ready | Closed

  /** Why a connection was closed, as far as it matters here. */
  datatype Reason = InvalidProtocol | AuthError | SslError | OtherReason

  datatype StartError = NoHostsAvailable | UnableToDetermineProtocol | BadCredentials | SslFailure

  /** The reason for which an error is reported. */
  predicate Explains(reason: Reason, error: StartError) {
    match error
    case NoHostsAvailable => reason == OtherReason
    case UnableToDetermineProtocol => reason == InvalidProtocol
    case BadCredentials => reason == AuthError
    case SslFailure => reason == SslError
  }

  datatype Attempt = Attempt(host: Host, version: int)

  /** What can happen to a connection that was attempted, or to the driver meanwhile. */
  datatype Event = ConnectionClosed(reason: Reason) | BecomesReady | DriverCloses

  /** An attempt is followed by one on the same host with a lower version, or on the next host with the same. */
  predicate Follows(a: Attempt, b: Attempt) {
    b.version == a.version || (b.host == a.host && a.version > 1 && b.version == Lower(a.version))
  }

  /** The hosts tried, without the repetitions for a lower version. */
  function HostsTried(attempts: seq<Attempt>): seq<Host> {
    if attempts == [] then []
    else
      var before, last := attempts[..|attempts| - 1], attempts[|attempts| - 1];
      if before != [] && before[|before| - 1].version != last.version then HostsTried(before)
      else HostsTried(before) + [last.host]
  }

  lemma TriedOneMore(attempts: seq<Attempt>, a: Attempt)
    ensures HostsTried(attempts + [a]) ==
      if attempts != [] && attempts[|attempts| - 1].version != a.version then HostsTried(attempts)
      else HostsTried(attempts) + [a.host]
  {
    assert (attempts + [a])[..|attempts|] == attempts;
  }

  /** The attempts went through the hosts in order, with versions going down from `start` to `version`. */
  ghost predicate Traced(attempts: seq<Attempt>, visited: seq<Host>, start: int, version: int) {
    && (forall i, j :: 0 <= i && j == i + 1 < |attempts| ==> Follows(attempts[i], attempts[j]))
    && HostsTried(attempts) == visited
    && (attempts == [] ==> version == start)
    && (attempts != [] ==> attempts[0].version == start && attempts[|attempts| - 1].version == version)
  }

  lemma TraceNextHost(attempts: seq<Attempt>, visited: seq<Host>, start: int, version: int, h: Host)
    requires Traced(attempts, visited, start, version)
    ensures Traced(attempts + [Attempt(h, version)], visited + [h], start, version)
  {
    TriedOneMore(attempts, Attempt(h, version));
  }

  lemma TraceLower(attempts: seq<Attempt>, visited: seq<Host>, start: int, version: int)
    requires Traced(attempts, visited, start, version) && attempts != [] && version > 1
    ensures Traced(attempts + [Attempt(attempts[|attempts| - 1].host, Lower(version))], visited, start, Lower(version))
  {
    TriedOneMore(attempts, Attempt(attempts[|attempts| - 1].host, Lower(version)));
  }

  class ControlConnection {
    const plan: StartupPlan
    const start: int
    var state: ControlState
    var version: int
    var currentHost: Option<Host>
    var connected: bool

    /** The connections attempted and the errors reported so far. */
    ghost var attempts: seq<Attempt>
    ghost var errors: seq<StartError>

    /** The host that the plan has at a place. */
    ghost function PlannedHost(i: nat): Host
      requires plan.hosts != []
      reads this
    {
      plan.hosts[(plan.index + i) % |plan.hosts|]
    }

    /** Still starting: a connection is being tried. */
    ghost predicate Trying()
      reads this
    {
      state == New && connected
    }

    /** Hosts and lower versions that there were to try. */
    ghost function Bound(): nat
      reads this
    {
      |plan.hosts| + StepsLeft(start)
    }

    /** The attempts up to now fit the plan, and the ones left make up the bound. */
    ghost predicate OnTrack(tried: int)
      reads this, plan
    {
      && plan.Valid() && Traced(attempts, plan.Visited(), start, tried)
      && |attempts| + (|plan.hosts| - plan.count) + StepsLeft(tried) == Bound()
    }

    /** While it is new either a connection is tried or one error was reported. */
    ghost predicate Valid()
      reads this, plan
    {
      && OnTrack(version)
      && (connected ==> attempts != [] && currentHost == Some(attempts[|attempts| - 1].host) && errors == [])
      && (state == New && !connected ==> |errors| == 1)
      && |errors| <= 1 && (NoHostsAvailable in errors ==> plan.count == |plan.hosts|)
      && (UnableToDetermineProtocol in errors ==> version <= 1)
    }

    /** That no host is available is reported only after each of them was tried, once. */
    lemma EveryHostTried()
      requires Valid() && NoHostsAvailable in errors
      ensures multiset(HostsTried(attempts)) == multiset(plan.hosts)
    {
      WindowHasAll(plan.hosts, plan.index);
    }

    /** `connect`: a negative version stands for the highest one. */
    constructor (hosts: seq<Host>, index: nat, configured: int)
      ensures Valid() && state == New && fresh(plan)
      ensures plan.hosts == hosts && plan.index == index
      ensures start == if configured < 0 then HIGHEST_SUPPORTED_PROTOCOL_VERSION else configured
      ensures if hosts == [] then errors == [NoHostsAvailable]
              else Trying() && attempts == [Attempt(hosts[index % |hosts|], start)]
    {
      var p := new StartupPlan(hosts, index);
      var v := if configured < 0 then HIGHEST_SUPPORTED_PROTOCOL_VERSION else configured;
      plan, start, version := p, v, v;
      state, currentHost, connected := New, None, false;
      attempts, errors := [], [];
      new;
      assert plan.Visited() == [];
      ReconnectNext();
    }

    /** `reconnect` to the next host of the plan, before the first time it is ready. */
    method ReconnectNext()
      requires OnTrack(version) && !connected && state == New && errors == []
      modifies this`currentHost, this`connected, this`attempts, this`errors, plan
      ensures Valid()
      ensures if old(plan.count) == |plan.hosts| then errors == [NoHostsAvailable] && attempts == old(attempts)
              else
                && Trying() && plan.count == old(plan.count) + 1
                && attempts == old(attempts) + [Attempt(PlannedHost(old(plan.count)), version)]
    {
      currentHost := plan.ComputeNext();
      if currentHost.None? {
        errors := errors + [NoHostsAvailable];
        return;
      }
      connected := true;
      TraceNextHost(attempts, old(plan.Visited()), start, version, currentHost.value);
      attempts := attempts + [Attempt(currentHost.value, version)];
    }

    /** `reconnect` to the host at hand with the version lowered. */
    method ReconnectLower(ghost tried: int)
      requires OnTrack(tried) && !connected && state == New && errors == []
      requires attempts != [] && currentHost == Some(attempts[|attempts| - 1].host)
      requires tried > 1 && version == Lower(tried)
      modifies this`connected, this`attempts
      ensures Valid() && Trying() && attempts == old(attempts) + [Attempt(currentHost.value, version)]
    {
      TraceLower(attempts, plan.Visited(), start, tried);
      connected := true;
      attempts := attempts + [Attempt(currentHost.value, version)];
    }

    /** The branch of `on_close` for a version that the host does not know. */
    method LowerVersion()
      requires version > 1
      modifies this`version
      ensures version == Lower(old(version)) && 0 < version < old(version)
    {
      if version / DSE_PROTOCOL_VERSION_BIT % 2 == 1 {
        var dseVersion := version % DSE_PROTOCOL_VERSION_BIT;
        if dseVersion <= 1 {
          version := HIGHEST_SUPPORTED_PROTOCOL_VERSION;
        } else {
          version := version - 1;
        }
      } else {
        version := version - 1;
      }
    }

    /**
     * `on_close` before the first time it is ready, or once it is closed. A host that does not know
     * the version is tried again with the next lower one as long as there is one, any other failure
     * leads on to the next host as long as there is one, and bad credentials or an SSL failure end it.
     */
    method OnClose(reason: Reason)
      requires Valid() && connected && state != Ready
      modifies this, plan
      ensures Valid() && state == old(state)
      ensures state == Closed ==> !connected && attempts == old(attempts) && errors == []
      ensures old(state) == New && reason == InvalidProtocol ==>
        && (Trying() <==> old(version) > 1)
        && (Trying() ==> version == Lower(old(version)))
        && (Trying() ==> attempts == old(attempts) + [Attempt(old(currentHost).value, version)])
        && (!Trying() ==> errors == [UnableToDetermineProtocol])
      ensures old(state) == New && reason == OtherReason ==>
        && (Trying() <==> old(plan.count) < |plan.hosts|)
        && (Trying() ==> attempts == old(attempts) + [Attempt(PlannedHost(old(plan.count)), old(version))])
        && (!Trying() ==> errors == [NoHostsAvailable])
      ensures old(state) == New && reason == AuthError ==> !Trying() && errors == [BadCredentials]
      ensures old(state) == New && reason == SslError ==> !Trying() && errors == [SslFailure]
      ensures !Trying() ==> attempts == old(attempts)
    {
      connected := false;
      if state == Closed {
        return;
      }
      match reason {
        case InvalidProtocol =>
          if version <= 1 {
            errors := errors + [UnableToDetermineProtocol];
            return;
          }
          ghost var tried := version;
          LowerVersion();
          ReconnectLower(tried);
        case AuthError => errors := errors + [BadCredentials];
        case SslError => errors := errors + [SslFailure];
        case OtherReason => ReconnectNext();
      }
    }

    /** The hosts have been read: the connection is ready. */
    method OnMetadata()
      requires Valid() && Trying()
      modifies this`state
      ensures Valid() && state == Ready
    {
      state := Ready;
    }

    /** `close`; the connection closes by and by. */
    method Close()
      requires Valid()
      modifies this`state
      ensures Valid() && state == Closed
    {
      state := Closed;
    }

    /** One thing that can happen while a connection is tried. */
    method Handle(event: Event)
      requires Valid() && Trying()
      modifies this, plan
      ensures Valid() && (Trying() ==> |attempts| == |old(attempts)| + 1)
      ensures event == BecomesReady ==> state == Ready
      ensures event == DriverCloses ==> state == Closed
      ensures errors != [] ==> state == New && event.ConnectionClosed? && Explains(event.reason, errors[0])
    {
      match event
      case ConnectionClosed(reason) => OnClose(reason);
      case BecomesReady => OnMetadata();
      case DriverCloses => Close();
    }

    /** Anything that can happen, one thing after the other, until the connection is no longer starting. */
    method Start(events: seq<Event>) returns (used: nat)
      requires Valid() && Trying() && |attempts| == 1
      modifies this, plan
      ensures Valid() && used <= |events| && |attempts| <= Bound()
      ensures Trying() ==> used == |events| && |attempts| == 1 + used
      ensures Bound() <= |events| ==> !Trying()
      ensures Trying() || state == Ready || state == Closed || |errors| == 1
      ensures |errors| == 1 ==> state != Ready && used > 0 && events[used - 1].ConnectionClosed?
      ensures UnableToDetermineProtocol in errors ==> version <= 1 && events[used - 1].reason == InvalidProtocol
      ensures NoHostsAvailable in errors ==> plan.count == |plan.hosts| && events[used - 1].reason == OtherReason
      ensures BadCredentials in errors ==> events[used - 1].reason == AuthError
      ensures SslFailure in errors ==> events[used - 1].reason == SslError
    {
      used := 0;
      while used < |events| && state == New && connected
        invariant Valid() && used <= |events|
        invariant Trying() ==> |attempts| == 1 + used
        invariant errors != [] ==> state == New && used > 0 && events[used - 1].ConnectionClosed?
        invariant errors != [] ==> Explains(events[used - 1].reason, errors[0])
      {
        Handle(events[used]);
        used := used + 1;
      }
    }
  }
}
