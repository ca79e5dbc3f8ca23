/** What holds in every run of a connection (cpp-driver/src/connection.cpp). */
module ConnectionTheorems {
  import opened Options
  import opened Requests
  import opened ConnectionModel
  import opened ConnectionInvariant

  /** The steps that fail an assertion: overrunning before ready or after close, closing before connect. */
  predicate Faults(s: Conn, cfg: Config, step: Step)
    requires Enabled(s, cfg, step)
  {
    match step
    case DoWrite(r, stream, enc, _) =>
      s.reqs[r].state == New && stream >= 0 && enc.Encoded? && Overruns(s, cfg, |Flat(enc.buffers)|)
    case DoClose(_) => s.link == LinkNew
    case _ => false
  }

  lemma StepKeeps(s: Conn, cfg: Config, step: Step)
    requires Inv(s, cfg) && Enabled(s, cfg, step)
    ensures Inv(Apply(s, cfg, step), cfg)
    ensures Apply(s, cfg, step).faulted <==> s.faulted || Faults(s, cfg, step)
  {
    StepKeepsInv(s, cfg, step);
    StepFaults(s, cfg, step);
  }

  lemma StepKeepsInv(s: Conn, cfg: Config, step: Step)
    requires Inv(s, cfg) && Enabled(s, cfg, step)
    ensures Inv(Apply(s, cfg, step), cfg)
  {
    match step
    case DoWrite(r, stream, enc, flush) => WriteKeeps(s, cfg, r, stream, enc, flush);
    case DoFlush => FlushLastKeeps(s, cfg);
    case DoWriteDoneBegin(k, ok) => WriteDoneBeginKeeps(s, cfg, k, ok);
    case DoWriteDoneCallback(k) => WriteDoneCallbackKeeps(s, cfg, k);
    case DoWriteDoneEnd(k) => WriteDoneEndKeeps(s, cfg, k);
    case DoReceive(f) => ReceiveKeeps(s, cfg, f);
    case DoReceiveGarbage => if !Closing(s) { SetLinkKeeps(s, cfg, ClosedDefunct); }
    case DoCancel(r) => SetRequestKeeps(s, cfg, r, State.Cancelled);
    case DoRenew(r) => SetRequestKeeps(s, cfg, r, New);
    case DoSetUp(next) => SetLinkKeeps(s, cfg, next);
    case DoClose(defunct) => if !Closing(s) { SetLinkKeeps(s, cfg, if defunct then ClosedDefunct else Closed); }
    case DoOnClose => OnCloseKeeps(s, cfg);
  }

  lemma StepFaults(s: Conn, cfg: Config, step: Step)
    requires Inv(s, cfg) && Enabled(s, cfg, step)
    ensures Apply(s, cfg, step).faulted <==> s.faulted || Faults(s, cfg, step)
  {
    match step
    case DoWrite(r, stream, enc, flush) => WriteKeeps(s, cfg, r, stream, enc, flush);
    case DoFlush => FlushLastKeeps(s, cfg);
    case DoWriteDoneBegin(k, ok) => WriteDoneBeginKeeps(s, cfg, k, ok);
    case DoWriteDoneCallback(k) => WriteDoneCallbackKeeps(s, cfg, k);
    case DoWriteDoneEnd(k) => WriteDoneEndKeeps(s, cfg, k);
    case DoReceive(f) => ReceiveKeeps(s, cfg, f);
    case DoReceiveGarbage => if !Closing(s) { SetLinkKeeps(s, cfg, ClosedDefunct); }
    case DoCancel(r) => SetRequestKeeps(s, cfg, r, State.Cancelled);
    case DoRenew(r) => SetRequestKeeps(s, cfg, r, New);
    case DoSetUp(next) => SetLinkKeeps(s, cfg, next);
    case DoClose(defunct) => if !Closing(s) { SetLinkKeeps(s, cfg, if defunct then ClosedDefunct else Closed); }
    case DoOnClose => OnCloseKeeps(s, cfg);
  }

  // ---------- runs ----------

  ghost predicate IsRun(cfg: Config, states: seq<Conn>, steps: seq<Step>) {
    && |states| == |steps| + 1
    && Init(states[0])
    && forall i :: 0 <= i < |steps| ==>
         Enabled(states[i], cfg, steps[i]) && states[i + 1] == Apply(states[i], cfg, steps[i])
  }

  lemma {:induction false} RunInv(cfg: Config, states: seq<Conn>, steps: seq<Step>, n: nat)
    requires cfg.Valid() && IsRun(cfg, states, steps) && n <= |steps|
    ensures Inv(states[n], cfg)
  {
    if n > 0 {
      RunInv(cfg, states, steps, n - 1);
      StepKeeps(states[n - 1], cfg, steps[n - 1]);
    }
  }

  /** An assertion fails in a run exactly when one of its steps is a faulting one. */
  lemma {:induction false} AssertionFailures(cfg: Config, states: seq<Conn>, steps: seq<Step>, n: nat)
    requires cfg.Valid() && IsRun(cfg, states, steps) && n <= |steps|
    ensures states[n].faulted <==> exists i :: 0 <= i < n && Faults(states[i], cfg, steps[i])
  {
    if n > 0 {
      AssertionFailures(cfg, states, steps, n - 1);
      RunInv(cfg, states, steps, n - 1);
      StepKeeps(states[n - 1], cfg, steps[n - 1]);
    }
  }

  // ---------- exactly one notification per acceptance ----------

  predicate AcceptsRequest(s: Conn, step: Step, r: Id) {
    step.DoWrite? && step.r == r && step.stream >= 0 && r in s.reqs && s.reqs[r].state == New
  }

  /** How often the first n steps of a run accept request r. */
  function Acceptances(states: seq<Conn>, steps: seq<Step>, n: nat, r: Id): nat
    requires n <= |steps| <= |states|
  {
    if n == 0 then 0
    else Acceptances(states, steps, n - 1, r) + Once(AcceptsRequest(states[n - 1], steps[n - 1], r))
  }

  /** The response f is received on the stream that request r owns. */
  predicate Arrives(s: Conn, step: Step, r: Id, f: Frame) {
    step == DoReceive(f) && f.stream in s.streams && s.streams[f.stream] == r
  }

  /** A response that a step hands over or keeps has just arrived, or was kept before. */
  predicate Heard(s: Conn, step: Step, r: Id, q: Request, f: Frame) {
    Arrives(s, step, r, f) || (q.state == ReadBeforeWrite && q.saved == Some(f))
  }

  /** How one step may change one request. */
  predicate Evolves(s: Conn, step: Step, r: Id, q: Request, q': Request) {
    && q'.accepts == q.accepts + Once(AcceptsRequest(s, step, r)) && q'.idempotent == q.idempotent
    && q.outcomes <= q'.outcomes && |q'.outcomes| <= |q.outcomes| + 1
    && (|q.outcomes| < |q'.outcomes| ==>
          var o := q'.outcomes[|q.outcomes|];
          o.Set? ==> o.stream == q.stream && Heard(s, step, r, q, o.frame))
    && (q'.state == ReadBeforeWrite && q'.saved.Some? ==> Heard(s, step, r, q, q'.saved.value))
  }

  lemma WriteFailedEvolves(s: Conn, cfg: Config, step: Step, r: Id)
    requires step.DoWrite? && CanWrite(s, cfg, step.r, step.stream, step.enc) && r in s.reqs
    requires s.reqs[step.r].state == New && step.stream >= 0 && step.enc.EncodeFailed?
    ensures var t := Write(s, cfg, step.r, step.stream, step.enc, step.flush);
            r in t.reqs && Evolves(s, step, r, s.reqs[r], t.reqs[r])
  {
    WriteFailedShape(s, cfg, step.r, step.stream, step.enc, step.flush);
  }

  lemma WriteAcceptedEvolves(s: Conn, cfg: Config, step: Step, r: Id)
    requires step.DoWrite? && CanWrite(s, cfg, step.r, step.stream, step.enc) && r in s.reqs
    requires s.reqs[step.r].state == New && step.stream >= 0 && step.enc.Encoded?
    ensures var t := Write(s, cfg, step.r, step.stream, step.enc, step.flush);
            r in t.reqs && Evolves(s, step, r, s.reqs[r], t.reqs[r])
  {
    var t := Write(s, cfg, step.r, step.stream, step.enc, false);
    WriteAcceptedShape(s, cfg, step.r, step.stream, step.enc.buffers);
    assert FlushLast(t).reqs == t.reqs;
  }

  lemma CallbackEvolves(s: Conn, cfg: Config, k: nat, r: Id)
    requires Inv(s, cfg) && Enabled(s, cfg, DoWriteDoneCallback(k)) && r in s.reqs
    ensures var t := WriteDoneCallback(s, k);
            r in t.reqs && Evolves(s, DoWriteDoneCallback(k), r, s.reqs[r], t.reqs[r])
  {
    HeadIsWaiting(s.pending, k);
    var x := s.pending[k].todo[0];
    assert WriteOutstanding(s.reqs[x].state) && Accounted(s.reqs[x]);
    WriteDoneCallbackShape(s, k);
    WrittenEvolves(s, k, s.pending[k], x, WriteDoneCallback(s, k), r);
  }

  lemma WrittenEvolves(s: Conn, k: nat, b: Batch, x: Id, t: Conn, r: Id)
    requires x in s.reqs && k < |s.pending| && b.completing.Some? && b.todo != [] && Written(s, k, b, x, t)
    requires WriteOutstanding(s.reqs[x].state) && Accounted(s.reqs[x]) && r in s.reqs
    ensures r in t.reqs && Evolves(s, DoWriteDoneCallback(k), r, s.reqs[r], t.reqs[r])
  {
  }

  lemma ReceiveEvolves(s: Conn, cfg: Config, f: Frame, r: Id)
    requires Inv(s, cfg) && Enabled(s, cfg, DoReceive(f)) && r in s.reqs
    ensures var t := Receive(s, f); r in t.reqs && Evolves(s, DoReceive(f), r, s.reqs[r], t.reqs[r])
  {
    if Delivers(s, f) {
      ReceiveShape(s, f);
    }
  }

  lemma CleanupEvolves(s: Conn, s0: Conn, r: Id)
    requires r in s.reqs && InFlight(s.reqs[r].state) && Accounted(s.reqs[r])
    ensures Evolves(s0, DoOnClose, r, s.reqs[r], Cleanup(s, r).reqs[r])
  {
  }

  lemma {:induction false} CleanupAllEvolves(s: Conn, s0: Conn, ids: seq<Id>, r: Id)
    requires Accounts(s.reqs) && Distinct(ids) && r in s.reqs
    requires forall x <- ids :: x in s.reqs && InFlight(s.reqs[x].state)
    ensures r in CleanupAll(s, ids).reqs
    ensures Evolves(s0, DoOnClose, r, s.reqs[r], CleanupAll(s, ids).reqs[r])
    decreases |ids|
  {
    if ids != [] {
      var s1 := Cleanup(s, ids[0]);
      CleanupEnds(s, ids[0]);
      assert forall x <- ids[1..] :: x != ids[0];
      if r == ids[0] {
        CleanupEvolves(s, s0, r);
        CleanupAllEnds(s1, ids[1..]);
      } else {
        CleanupAllEvolves(s1, s0, ids[1..], r);
      }
    }
  }

  lemma StepEvolves(s: Conn, cfg: Config, step: Step, r: Id)
    requires Inv(s, cfg) && Enabled(s, cfg, step) && r in s.reqs
    ensures var t := Apply(s, cfg, step); r in t.reqs && Evolves(s, step, r, s.reqs[r], t.reqs[r])
  {
    assert Accounted(s.reqs[r]);
    match step
    case DoWrite(x, stream, enc, _) =>
      if s.reqs[x].state == New && stream >= 0 {
        if enc.Encoded? { WriteAcceptedEvolves(s, cfg, step, r); } else { WriteFailedEvolves(s, cfg, step, r); }
      }
    case DoWriteDoneCallback(k) => CallbackEvolves(s, cfg, k, r);
    case DoReceive(f) => ReceiveEvolves(s, cfg, f, r);
    case DoOnClose =>
      SweptOnce(s);
      CleanupAllEvolves(s, s, s.readers + Unwritten(s.pending), r);
    case _ => QuietEvolves(s, cfg, step, r);
  }

  /** Flushes, link changes, cancellations and the frame of the write callback notify nobody. */
  lemma QuietEvolves(s: Conn, cfg: Config, step: Step, r: Id)
    requires Enabled(s, cfg, step) && r in s.reqs && Accounted(s.reqs[r])
    requires !step.DoWrite? && !step.DoWriteDoneCallback? && !step.DoReceive? && !step.DoOnClose?
    ensures var t := Apply(s, cfg, step); r in t.reqs && Evolves(s, step, r, s.reqs[r], t.reqs[r])
  {
  }

  lemma StepCounts(s: Conn, cfg: Config, step: Step, r: Id)
    requires Inv(s, cfg) && Enabled(s, cfg, step) && r in s.reqs
    ensures var t := Apply(s, cfg, step);
            r in t.reqs && t.reqs[r].accepts == s.reqs[r].accepts + Once(AcceptsRequest(s, step, r))
  {
    StepEvolves(s, cfg, step, r);
  }

  lemma RunStepCounts(cfg: Config, states: seq<Conn>, steps: seq<Step>, i: nat, next: nat, r: Id)
    requires IsRun(cfg, states, steps) && i < |steps| && next == i + 1
    requires Inv(states[i], cfg) && r in states[i].reqs
    ensures r in states[next].reqs
    ensures states[next].reqs[r].accepts == states[i].reqs[r].accepts + Once(AcceptsRequest(states[i], steps[i], r))
  {
    StepCounts(states[i], cfg, steps[i], r);
  }

  /** Requests are neither added nor lost, and acceptances are counted. */
  lemma {:induction false} RunCounts(cfg: Config, states: seq<Conn>, steps: seq<Step>, n: nat, r: Id)
    requires cfg.Valid() && IsRun(cfg, states, steps) && n <= |steps| && r in states[0].reqs
    ensures r in states[n].reqs
    ensures states[n].reqs[r].accepts == Acceptances(states, steps, n, r)
  {
    if n > 0 {
      var before := n - 1;
      RunCounts(cfg, states, steps, before, r);
      RunInv(cfg, states, steps, before);
      RunStepCounts(cfg, states, steps, before, n, r);
    }
  }

  /**
   * In every state of every run a request has had one terminal notification for each time it was
   * accepted, except for the acceptance that is still in flight, for which the connection holds
   * its one reference.
   */
  lemma OneOutcomePerAcceptance(cfg: Config, states: seq<Conn>, steps: seq<Step>, n: nat, r: Id)
    requires cfg.Valid() && IsRun(cfg, states, steps) && n <= |steps| && r in states[0].reqs
    ensures r in states[n].reqs
    ensures var q := states[n].reqs[r];
            && Acceptances(states, steps, n, r) == |q.outcomes| + Once(InFlight(q.state))
            && q.refs == Once(InFlight(q.state))
  {
    RunCounts(cfg, states, steps, n, r);
    RunInv(cfg, states, steps, n);
    assert Accounted(states[n].reqs[r]);
  }

  /** After the close callback every acceptance has its one notification and no reference is left. */
  lemma ClosedRunIsSettled(cfg: Config, states: seq<Conn>, steps: seq<Step>, r: Id)
    requires cfg.Valid() && IsRun(cfg, states, steps) && r in states[0].reqs
    requires states[|steps|].gone
    ensures r in states[|steps|].reqs
    ensures var q := states[|steps|].reqs[r];
            && |q.outcomes| == Acceptances(states, steps, |steps|, r)
            && q.refs == 0
            && !InFlight(q.state)
  {
    OneOutcomePerAcceptance(cfg, states, steps, |steps|, r);
    RunInv(cfg, states, steps, |steps|);
    assert Located(states[|steps|].reqs, multiset{}, multiset{});
  }

  // ---------- responses reach the request that owns the stream ----------

  ghost predicate ArrivedBefore(states: seq<Conn>, steps: seq<Step>, n: nat, r: Id, f: Frame)
    requires n <= |steps| <= |states|
  {
    exists i :: 0 <= i < n && Arrives(states[i], steps[i], r, f)
  }

  /** Every response given to a request was received, earlier in the run, on the stream it then owned. */
  lemma {:induction false} ResponsesAreOwn(cfg: Config, states: seq<Conn>, steps: seq<Step>, n: nat, r: Id)
    requires cfg.Valid() && IsRun(cfg, states, steps) && n <= |steps| && r in states[0].reqs
    ensures r in states[n].reqs
    ensures var q := states[n].reqs[r];
            && (forall o <- q.outcomes :: o.Set? ==> ArrivedBefore(states, steps, n, r, o.frame))
            && (q.state == ReadBeforeWrite && q.saved.Some? ==> ArrivedBefore(states, steps, n, r, q.saved.value))
  {
    if n > 0 {
      ResponsesAreOwn(cfg, states, steps, n - 1, r);
      RunInv(cfg, states, steps, n - 1);
      StepEvolves(states[n - 1], cfg, steps[n - 1], r);
      HeardArrived(states, steps, n, r, states[n - 1].reqs[r], states[n].reqs[r]);
    }
  }

  lemma HeardArrived(states: seq<Conn>, steps: seq<Step>, n: nat, r: Id, q: Request, q': Request)
    requires 0 < n <= |steps| <= |states|
    requires Evolves(states[n - 1], steps[n - 1], r, q, q')
    requires forall o <- q.outcomes :: o.Set? ==> ArrivedBefore(states, steps, n - 1, r, o.frame)
    requires q.state == ReadBeforeWrite && q.saved.Some? ==> ArrivedBefore(states, steps, n - 1, r, q.saved.value)
    ensures forall o <- q'.outcomes :: o.Set? ==> ArrivedBefore(states, steps, n, r, o.frame)
    ensures q'.state == ReadBeforeWrite && q'.saved.Some? ==> ArrivedBefore(states, steps, n, r, q'.saved.value)
  {
    forall f | ArrivedBefore(states, steps, n - 1, r, f) || Arrives(states[n - 1], steps[n - 1], r, f)
      ensures ArrivedBefore(states, steps, n, r, f)
    {
    }
    forall o | o in q'.outcomes && o.Set?
      ensures ArrivedBefore(states, steps, n, r, o.frame)
    {
      assert o in q.outcomes || o == q'.outcomes[|q.outcomes|];
    }
  }

  // ---------- bytes on the wire ----------

  function BytesOf(s: Conn, step: Step): seq<Byte> {
    if step.DoWrite? && AcceptsRequest(s, step, step.r) && step.enc.Encoded? then Flat(step.enc.buffers) else []
  }

  /** The encodings of the requests accepted in the first n steps, in order. */
  function AcceptedBytes(states: seq<Conn>, steps: seq<Step>, n: nat): seq<Byte>
    requires n <= |steps| <= |states|
  {
    if n == 0 then [] else AcceptedBytes(states, steps, n - 1) + BytesOf(states[n - 1], steps[n - 1])
  }

  lemma {:induction false} CleanupAllKeepsWire(s: Conn, ids: seq<Id>)
    ensures var t := CleanupAll(s, ids); t.accepted == s.accepted && t.sent == s.sent
    decreases |ids|
  {
    if ids != [] {
      CleanupAllKeepsWire(Cleanup(s, ids[0]), ids[1..]);
    }
  }

  lemma StepBytes(s: Conn, cfg: Config, step: Step)
    requires Enabled(s, cfg, step)
    ensures var t := Apply(s, cfg, step);
            && t.accepted == s.accepted + BytesOf(s, step)
            && s.sent <= t.sent
  {
    match step
    case DoWrite(r, stream, enc, flush) =>
      if s.reqs[r].state == New && stream >= 0 && enc.Encoded? {
        WriteAcceptedShape(s, cfg, r, stream, enc.buffers);
      }
    case DoOnClose => CleanupAllKeepsWire(s, s.readers + Unwritten(s.pending));
    case _ =>
  }

  lemma {:induction false} AcceptedIsHistory(cfg: Config, states: seq<Conn>, steps: seq<Step>, n: nat)
    requires IsRun(cfg, states, steps) && n <= |steps|
    ensures states[n].accepted == AcceptedBytes(states, steps, n)
    ensures forall m :: 0 <= m <= n ==> states[m].sent <= states[n].sent
  {
    if n > 0 {
      AcceptedIsHistory(cfg, states, steps, n - 1);
      StepBytes(states[n - 1], cfg, steps[n - 1]);
    }
  }

  /**
   * The socket has always been given a prefix of the accepted encodings, in acceptance order, and
   * what it was given earlier in the run is a prefix of what it was given later.
   */
  lemma SentIsPrefix(cfg: Config, states: seq<Conn>, steps: seq<Step>, n: nat)
    requires cfg.Valid() && IsRun(cfg, states, steps) && n <= |steps|
    ensures states[n].sent <= AcceptedBytes(states, steps, n)
    ensures forall m :: 0 <= m <= n ==> states[m].sent <= states[n].sent
  {
    RunInv(cfg, states, steps, n);
    AcceptedIsHistory(cfg, states, steps, n);
  }

  // ---------- places and streams ----------

  /** In every state of every run a request in flight is in one place, once, and no other request is in any. */
  lemma LivesInOnePlace(cfg: Config, states: seq<Conn>, steps: seq<Step>, n: nat, r: Id)
    requires cfg.Valid() && IsRun(cfg, states, steps) && n <= |steps| && r in states[n].reqs
    ensures var s := states[n];
            && multiset(s.readers)[r] == Once(ReadOutstanding(s.reqs[r].state))
            && multiset(Unwritten(s.pending))[r] == Once(WriteOutstanding(s.reqs[r].state))
            && (r in s.readers + Unwritten(s.pending) <==> InFlight(s.reqs[r].state))
  {
    RunInv(cfg, states, steps, n);
    WritersUnwritten(states[n].pending);
    SweptOnce(states[n]);
  }

  /** The stream table is an injective map onto the requests that await a response. */
  lemma StreamTable(cfg: Config, states: seq<Conn>, steps: seq<Step>, n: nat)
    requires cfg.Valid() && IsRun(cfg, states, steps) && n <= |steps| && !states[n].gone
    ensures var s := states[n];
            && (forall j, k :: j in s.streams && k in s.streams && j != k ==> s.streams[j] != s.streams[k])
            && (forall r <- s.reqs :: AwaitsResponse(s.reqs[r].state) <==> Owns(s.streams, r))
  {
    RunInv(cfg, states, steps, n);
    TableOf(states[n].reqs, states[n].streams, cfg.maxStreams);
  }

  ghost predicate Owns(streams: map<int, Id>, r: Id) {
    exists k :: k in streams && streams[k] == r
  }

  lemma TableOf(reqs: map<Id, Request>, streams: map<int, Id>, max: nat)
    requires Streams(reqs, streams, max)
    ensures forall j, k :: j in streams && k in streams && j != k ==> streams[j] != streams[k]
    ensures forall r <- reqs :: AwaitsResponse(reqs[r].state) <==> Owns(streams, r)
  {
    forall r | r in reqs && AwaitsResponse(reqs[r].state)
      ensures Owns(streams, r)
    {
      assert reqs[r].stream in streams && streams[reqs[r].stream] == r;
    }
  }

  // ---------- water marks ----------

  /**
   * The pending byte count is the size of the batches not yet completed. Without a failed
   * assertion a ready connection is within its high water mark, an overwhelmed one at or above
   * its low water mark, and a drained one is not overwhelmed.
   */
  lemma WaterMarks(cfg: Config, states: seq<Conn>, steps: seq<Step>, n: nat)
    requires cfg.Valid() && IsRun(cfg, states, steps) && n <= |steps| && !states[n].gone
    requires forall i :: 0 <= i < n ==> !Faults(states[i], cfg, steps[i])
    ensures var s := states[n];
            && s.pendingSize == Outstanding(s.pending)
            && (s.link == Ready ==> s.pendingSize <= cfg.high)
            && (s.link == Overwhelmed ==> cfg.low <= s.pendingSize)
            && (s.pending == [] ==> s.link != Overwhelmed)
  {
    RunInv(cfg, states, steps, n);
    AssertionFailures(cfg, states, steps, n);
  }

  // ---------- cancelling twice ----------

  /** Cancelling a request in flight keeps the invariant exactly when it was not cancelled before. */
  lemma CancelOnce(s: Conn, cfg: Config, r: Id)
    requires Inv(s, cfg) && !s.gone && r in s.reqs
    ensures Inv(SetRequest(s, r, State.Cancelled), cfg) <==> !CancelledInFlight(s.reqs[r].state)
  {
    if !CancelledInFlight(s.reqs[r].state) {
      SetRequestKeeps(s, cfg, r, State.Cancelled);
    } else {
      assert Accounted(s.reqs[r]);
      assert !Accounted(SetRequest(s, r, State.Cancelled).reqs[r]);
    }
  }

  /** After a second cancel the response, or the write callback, runs into an assertion. */
  lemma CancelTwiceFaults(s: Conn, cfg: Config, r: Id)
    requires Inv(s, cfg) && !s.gone && r in s.reqs && CancelledInFlight(s.reqs[r].state)
    ensures var t := SetRequest(s, r, State.Cancelled);
            && (AwaitsResponse(s.reqs[r].state) && !Closing(s) ==>
                  Receive(t, Frame(s.reqs[r].stream, false, [])).faulted)
            && (forall k: nat :: CanCallBack(s, k) && s.pending[k].todo[0] == r ==> WriteDoneCallback(t, k).faulted)
  {
    forall k: nat | CanCallBack(s, k) && s.pending[k].todo[0] == r
      ensures WriteDoneCallback(SetRequest(s, r, State.Cancelled), k).faulted
    {
      CalledBackTooLate(SetRequest(s, r, State.Cancelled), k, r);
    }
    if AwaitsResponse(s.reqs[r].state) && !Closing(s) {
      AnsweredTooLate(s, cfg, r);
    }
  }

  /** A write of a request that is no longer in flight is done. */
  lemma CalledBackTooLate(t: Conn, k: nat, r: Id)
    requires CanCallBack(t, k) && t.pending[k].todo[0] == r && r in t.reqs && t.reqs[r].state == State.Cancelled
    ensures WriteDoneCallback(t, k).faulted
  {
  }

  /** A response for a request that is no longer in flight arrives. */
  lemma AnsweredTooLate(s: Conn, cfg: Config, r: Id)
    requires Inv(s, cfg) && !s.gone && r in s.reqs && CancelledInFlight(s.reqs[r].state)
    requires AwaitsResponse(s.reqs[r].state) && !Closing(s)
    ensures Receive(SetRequest(s, r, State.Cancelled), Frame(s.reqs[r].stream, false, [])).faulted
  {
  }
}
