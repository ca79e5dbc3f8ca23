/**
 * What each step tells a request and the socket and does to the link, said without the functions of the
 * transition system (cpp-driver/src/connection.cpp).
 */
module ConnectionOutcomes {
  import opened Options
  import opened Requests
  import opened ConnectionModel
  import opened ConnectionInvariant
  import opened ConnectionTheorems

  // ---------- close ----------

  /**
   * How close ends a request in flight: with its response if that came before the write was done,
   * with a cancellation if it was cancelled, and otherwise with a retry if it is idempotent and a
   * time-out if it is not.
   */
  predicate ClosedWith(q: Request, q': Request) {
    && |q'.outcomes| == |q.outcomes| + 1
    && q' == q.(state := q'.state, refs := q.refs - 1, outcomes := q.outcomes + [q'.outcomes[|q.outcomes|]])
    && var last := q'.outcomes[|q.outcomes|];
    && (last.Set? <==> q.state == ReadBeforeWrite)
    && (last.Set? ==> q.saved == Some(last.frame) && last.stream == q.stream)
    && (last.Cancel? <==> CancelledInFlight(q.state))
    && (last.Retry? <==> (q.state == Writing || q.state == Reading) && q.idempotent)
    && (last.Error? <==> (q.state == Writing || q.state == Reading) && !q.idempotent)
    && (last.Error? ==> last.code == TimedOut)
    && q'.state == if last.Cancel? then State.Cancelled else Finished
  }

  /** A request that was not in flight is left as it is. */
  predicate ClosedOrLeft(q: Request, q': Request) {
    if InFlight(q.state) then ClosedWith(q, q') else q' == q
  }

  lemma CleanupTells(s: Conn, r: Id)
    requires r in s.reqs && InFlight(s.reqs[r].state) && Accounted(s.reqs[r])
    ensures ClosedWith(s.reqs[r], Cleanup(s, r).reqs[r])
  {
  }

  lemma {:induction false} CleanupAllTells(s: Conn, ids: seq<Id>, r: Id)
    requires Accounts(s.reqs) && Distinct(ids) && r in s.reqs
    requires forall x <- ids :: x in s.reqs && InFlight(s.reqs[x].state)
    ensures r in CleanupAll(s, ids).reqs
    ensures var q' := CleanupAll(s, ids).reqs[r];
            if r in ids then ClosedWith(s.reqs[r], q') else q' == s.reqs[r]
    decreases |ids|
  {
    if ids != [] {
      var s1 := Cleanup(s, ids[0]);
      CleanupEnds(s, ids[0]);
      assert forall x <- ids[1..] :: x != ids[0];
      if r == ids[0] {
        CleanupTells(s, r);
        CleanupAllEnds(s1, ids[1..]);
      } else {
        CleanupAllTells(s1, ids[1..], r);
      }
    }
  }

  lemma OnCloseTells(s: Conn, r: Id)
    requires Located(s.reqs, multiset(s.readers), Writers(s.pending)) && Accounts(s.reqs) && r in s.reqs
    ensures r in OnClose(s).reqs
    ensures ClosedOrLeft(s.reqs[r], OnClose(s).reqs[r])
  {
    SweptOnce(s);
    CleanupAllTells(s, s.readers + Unwritten(s.pending), r);
  }

  /** The close callback tells every request in flight how it ended, and no other one. */
  lemma CloseTellsEach(cfg: Config, states: seq<Conn>, steps: seq<Step>, n: nat, next: nat, r: Id)
    requires cfg.Valid() && IsRun(cfg, states, steps) && n < |steps| && next == n + 1 && r in states[0].reqs
    requires steps[n] == DoOnClose
    ensures r in states[n].reqs && r in states[next].reqs
    ensures ClosedOrLeft(states[n].reqs[r], states[next].reqs[r])
  {
    RunInv(cfg, states, steps, n);
    RunCounts(cfg, states, steps, n, r);
    OnCloseTells(states[n], r);
  }

  /** Whether a request may be run twice never changes, and decides between retry and time-out. */
  lemma {:induction false} RetriedIfIdempotent(cfg: Config, states: seq<Conn>, steps: seq<Step>, n: nat, r: Id)
    requires cfg.Valid() && IsRun(cfg, states, steps) && n <= |steps| && r in states[0].reqs
    ensures r in states[n].reqs && states[n].reqs[r].idempotent == states[0].reqs[r].idempotent
    ensures Retry in states[n].reqs[r].outcomes ==> states[0].reqs[r].idempotent
    ensures Error(TimedOut) in states[n].reqs[r].outcomes ==> !states[0].reqs[r].idempotent
  {
    if n > 0 {
      RetriedIfIdempotent(cfg, states, steps, n - 1, r);
      RunInv(cfg, states, steps, n - 1);
      StepEvolves(states[n - 1], cfg, steps[n - 1], r);
    }
    RunInv(cfg, states, steps, n);
    assert Accounted(states[n].reqs[r]);
  }

  // ---------- write ----------

  /** A refused write ends the request with the error of its encoding; nothing else does with one. */
  lemma WriteTells(s: Conn, cfg: Config, step: Step, r: Id)
    requires Enabled(s, cfg, step) && step.DoWrite? && r in s.reqs
    ensures var t := Apply(s, cfg, step);
            && r in t.reqs
            && (!AcceptsRequest(s, step, step.r) ==> t == s)
            && (AcceptsRequest(s, step, r) && step.enc == EncodeFailed(true) ==>
                  t.reqs[r].outcomes == s.reqs[r].outcomes + [Error(EncodeErrorReportedByRequest)])
            && (AcceptsRequest(s, step, r) && step.enc == EncodeFailed(false) ==>
                  t.reqs[r].outcomes == s.reqs[r].outcomes + [Error(EncodeError)])
            && (!AcceptsRequest(s, step, r) || step.enc.Encoded? ==> t.reqs[r].outcomes == s.reqs[r].outcomes)
  {
    if AcceptsRequest(s, step, step.r) && step.enc.Encoded? {
      WriteAcceptedShape(s, cfg, step.r, step.stream, step.enc.buffers);
    }
  }

  // ---------- flush ----------

  /** The steps that give the socket all there is: a flush, a write that asks for it, a finished write. */
  predicate Flushes(s: Conn, step: Step) {
    || step.DoFlush?
    || step.DoWriteDoneEnd?
    || (step.DoWrite? && AcceptsRequest(s, step, step.r) && step.enc.Encoded? && step.flush)
  }

  lemma FlushLastSendsAll(s: Conn)
    requires Batches(s.pending) && Wire(s)
    ensures FlushLast(s).sent == s.accepted
  {
  }

  lemma WriteSends(s: Conn, cfg: Config, r: Id, stream: int, enc: Encoding, flush: bool)
    requires Inv(s, cfg) && !s.gone && CanWrite(s, cfg, r, stream, enc) && s.reqs[r].state == New && stream >= 0
    ensures var t := Write(s, cfg, r, stream, enc, flush);
            t.sent == if enc.Encoded? && flush then t.accepted else s.sent
  {
    if enc.Encoded? {
      var t := Write(s, cfg, r, stream, enc, false);
      WriteAcceptedShape(s, cfg, r, stream, enc.buffers);
      WriteKeeps(s, cfg, r, stream, enc, false);
      FlushLastSendsAll(t);
    }
  }

  lemma StepSends(s: Conn, cfg: Config, step: Step)
    requires Inv(s, cfg) && Enabled(s, cfg, step)
    ensures var t := Apply(s, cfg, step); t.sent == if Flushes(s, step) then t.accepted else s.sent
  {
    match step
    case DoWrite(r, stream, enc, flush) =>
      if s.reqs[r].state == New && stream >= 0 {
        WriteSends(s, cfg, r, stream, enc, flush);
      }
    case DoFlush => FlushLastSendsAll(s);
    case DoWriteDoneEnd(k) => EndSends(s, cfg, k);
    case _ => OthersSendNothing(s, cfg, step);
  }

  lemma OthersSendNothing(s: Conn, cfg: Config, step: Step)
    requires Enabled(s, cfg, step) && !step.DoWrite? && !step.DoFlush? && !step.DoWriteDoneEnd?
    ensures Apply(s, cfg, step).sent == s.sent
  {
    if step.DoOnClose? {
      CleanupAllKeepsWire(s, s.readers + Unwritten(s.pending));
    }
  }

  lemma EndSends(s: Conn, cfg: Config, k: nat)
    requires Inv(s, cfg) && !s.gone && CanEnd(s, k)
    ensures var t := WriteDoneEnd(s, cfg, k); t.sent == t.accepted == s.accepted
  {
    assert BatchOk(s.pending[k]);
    RemoveFlushed(s.pending, k);
    FlushLastSendsAll(Recycle(s, cfg, k));
  }

  /**
   * After a flushing step the socket has been given the encodings of all the requests that were
   * accepted so far; every other step gives it nothing.
   */
  lemma SocketHasAll(cfg: Config, states: seq<Conn>, steps: seq<Step>, n: nat, next: nat)
    requires cfg.Valid() && IsRun(cfg, states, steps) && n < |steps| && next == n + 1
    ensures states[next].sent
            == if Flushes(states[n], steps[n]) then AcceptedBytes(states, steps, next) else states[n].sent
  {
    RunInv(cfg, states, steps, n);
    StepSends(states[n], cfg, steps[n]);
    AcceptedIsHistory(cfg, states, steps, next);
  }

  // ---------- link ----------

  /** The steps that close an open connection. */
  predicate Closes(s: Conn, step: Step) {
    match step
    case DoClose(_) => true
    case DoReceiveGarbage => true
    case DoReceive(f) => if f.stream < 0 then !f.event else f.stream !in s.streams
    case DoWriteDoneCallback(k) =>
      && CanCallBack(s, k) && s.pending[k].todo[0] in s.reqs
      && s.reqs[s.pending[k].todo[0]].state == Writing && !s.pending[k].completing.value
    case _ => false
  }

  /** Where a step takes the link of a connection on which no assertion has failed. */
  predicate LinkMoves(s: Conn, cfg: Config, step: Step, t: Conn) {
    if Closing(s) then t.link == s.link
    else if Closes(s, step) then t.link == if step == DoClose(false) then Closed else ClosedDefunct
    else if s.link == Ready then t.link == if t.pendingSize > cfg.high then Overwhelmed else Ready
    else if s.link == Overwhelmed then t.link == if t.pendingSize < cfg.low then Ready else Overwhelmed
    else t.link == if step.DoSetUp? then step.next else s.link
  }

  lemma WriteLink(s: Conn, cfg: Config, step: Step)
    requires Inv(s, cfg) && Enabled(s, cfg, step) && step.DoWrite? && !s.faulted && !Faults(s, cfg, step)
    ensures LinkMoves(s, cfg, step, Apply(s, cfg, step))
  {
    if AcceptsRequest(s, step, step.r) && step.enc.Encoded? {
      WriteAcceptedShape(s, cfg, step.r, step.stream, step.enc.buffers);
    }
  }

  lemma CallbackLink(s: Conn, cfg: Config, k: nat)
    requires Inv(s, cfg) && Enabled(s, cfg, DoWriteDoneCallback(k)) && !s.faulted
    ensures LinkMoves(s, cfg, DoWriteDoneCallback(k), WriteDoneCallback(s, k))
  {
    HeadIsWaiting(s.pending, k);
    WriteDoneCallbackShape(s, k);
  }

  lemma ReceiveLink(s: Conn, cfg: Config, f: Frame)
    requires Inv(s, cfg) && Enabled(s, cfg, DoReceive(f)) && !s.faulted
    ensures LinkMoves(s, cfg, DoReceive(f), Receive(s, f))
  {
    if Delivers(s, f) {
      ReceiveShape(s, f);
    }
  }

  lemma EndLink(s: Conn, cfg: Config, k: nat)
    requires Inv(s, cfg) && Enabled(s, cfg, DoWriteDoneEnd(k)) && !s.faulted
    ensures LinkMoves(s, cfg, DoWriteDoneEnd(k), WriteDoneEnd(s, cfg, k))
  {
  }

  lemma StepLink(s: Conn, cfg: Config, step: Step)
    requires Inv(s, cfg) && Enabled(s, cfg, step) && !s.faulted && !Faults(s, cfg, step)
    ensures LinkMoves(s, cfg, step, Apply(s, cfg, step))
  {
    match step
    case DoWrite(_, _, _, _) => WriteLink(s, cfg, step);
    case DoWriteDoneCallback(k) => CallbackLink(s, cfg, k);
    case DoWriteDoneEnd(k) => EndLink(s, cfg, k);
    case DoReceive(f) => ReceiveLink(s, cfg, f);
    case DoOnClose => CleanupAllKeepsLink(s, s.readers + Unwritten(s.pending));
    case _ => PlainLink(s, cfg, step);
  }

  lemma PlainLink(s: Conn, cfg: Config, step: Step)
    requires Marks(s, cfg) && Enabled(s, cfg, step) && !s.faulted && !Faults(s, cfg, step)
    requires !step.DoWrite? && !step.DoWriteDoneCallback? && !step.DoWriteDoneEnd? && !step.DoReceive?
    requires !step.DoOnClose?
    ensures LinkMoves(s, cfg, step, Apply(s, cfg, step))
  {
  }

  lemma {:induction false} CleanupAllKeepsLink(s: Conn, ids: seq<Id>)
    ensures CleanupAll(s, ids).link == s.link
    decreases |ids|
  {
    if ids != [] {
      CleanupAllKeepsLink(Cleanup(s, ids[0]), ids[1..]);
    }
  }

  /**
   * In every run without a failed assertion a ready connection is overwhelmed as soon as it is
   * over its high water mark and no sooner; it stays so until it is below its low one. It closes
   * on request, on a failed write, and on a message that it cannot decode or place.
   */
  lemma LinkFollowsMarks(cfg: Config, states: seq<Conn>, steps: seq<Step>, n: nat, next: nat)
    requires cfg.Valid() && IsRun(cfg, states, steps) && n < |steps| && next == n + 1
    requires forall i :: 0 <= i < next ==> !Faults(states[i], cfg, steps[i])
    ensures LinkMoves(states[n], cfg, steps[n], states[next])
  {
    RunInv(cfg, states, steps, n);
    AssertionFailures(cfg, states, steps, n);
    StepLink(states[n], cfg, steps[n]);
  }
}
