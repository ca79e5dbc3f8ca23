/**
 * The connection's methods as they run: fields updated step by step, with the loops of the write
 * callback, of the message consumer and of the close callback (cpp-driver/src/connection.cpp).
 * Every method is tied to the transition system of ConnectionModel.
 */
module Connections {
  import opened Options
  import opened Requests
  import opened ConnectionModel
  import opened ConnectionInvariant
  import opened ConnectionOutcomes

  /** What decoding finds at the head of the input: a complete message, a part of one, or an error. */
  datatype Message = Complete(frame: Frame) | Partial | Undecodable

  /** The effect of one decoded message. */
  function Take(s: Conn, m: Message): Conn {
    match m
    case Complete(f) => Receive(s, f)
    case Partial => s
    case Undecodable => CloseLink(s, ClosedDefunct)
  }

  /** The effect of a whole read: messages after the connection starts closing are dropped. */
  function TakeAll(s: Conn, ms: seq<Message>): Conn
    decreases |ms|
  {
    if ms == [] then s else TakeAll(Take(s, ms[0]), ms[1..])
  }

  lemma {:induction false} ClosingTakesNothing(s: Conn, ms: seq<Message>)
    requires Closing(s)
    ensures TakeAll(s, ms) == s
    decreases |ms|
  {
    if ms != [] {
      ClosingTakesNothing(s, ms[1..]);
    }
  }

  /** The rounds of the write callback's loop that are left. */
  function CallBackAll(s: Conn, k: nat): (t: Conn)
    requires Started(s) && k < |s.pending| && s.pending[k].completing.Some?
    ensures Started(t) && |t.pending| == |s.pending|
    ensures t.pending[k] == s.pending[k].(todo := [])
    decreases |s.pending[k].todo|
  {
    if s.pending[k].todo == [] then s else CallBackAll(WriteDoneCallback(s, k), k)
  }

  /** A write callback that nothing interrupts. */
  function WriteDone(s: Conn, cfg: Config, k: nat, ok: bool): Conn
    requires CanBegin(s, k)
  {
    WriteDoneEnd(CallBackAll(WriteDoneBegin(s, cfg, k, ok), k), cfg, k)
  }

  /** A whole write callback keeps the invariant, and so does a whole read. */
  lemma {:induction false} CallBackAllKeeps(s: Conn, cfg: Config, k: nat)
    requires Inv(s, cfg) && !s.gone && Started(s) && k < |s.pending| && s.pending[k].completing.Some?
    ensures Inv(CallBackAll(s, k), cfg) && !CallBackAll(s, k).gone
    decreases |s.pending[k].todo|
  {
    if s.pending[k].todo != [] {
      HeadIsWaiting(s.pending, k);
      WriteDoneCallbackKeeps(s, cfg, k);
      WriteDoneCallbackShape(s, k);
      CallBackAllKeeps(WriteDoneCallback(s, k), cfg, k);
    }
  }

  lemma WriteDoneKeeps(s: Conn, cfg: Config, k: nat, ok: bool)
    requires Inv(s, cfg) && !s.gone && CanBegin(s, k)
    ensures Inv(WriteDone(s, cfg, k, ok), cfg)
  {
    var t := WriteDoneBegin(s, cfg, k, ok);
    WriteDoneBeginKeeps(s, cfg, k, ok);
    CallBackAllKeeps(t, cfg, k);
    WriteDoneEndKeeps(CallBackAll(t, k), cfg, k);
  }

  lemma {:induction false} CallBackAllAccepts(s: Conn, cfg: Config, k: nat)
    requires Inv(s, cfg) && !s.gone && Started(s) && k < |s.pending| && s.pending[k].completing.Some?
    ensures CallBackAll(s, k).accepted == s.accepted
    decreases |s.pending[k].todo|
  {
    if s.pending[k].todo != [] {
      HeadIsWaiting(s.pending, k);
      WriteDoneCallbackKeeps(s, cfg, k);
      WriteDoneCallbackShape(s, k);
      CallBackAllAccepts(WriteDoneCallback(s, k), cfg, k);
    }
  }

  /** When a write callback is over, the socket has been given everything that was accepted. */
  lemma WriteDoneSends(s: Conn, cfg: Config, k: nat, ok: bool)
    requires Inv(s, cfg) && !s.gone && CanBegin(s, k)
    ensures var t := WriteDone(s, cfg, k, ok); t.sent == t.accepted == s.accepted
  {
    var t := WriteDoneBegin(s, cfg, k, ok);
    WriteDoneBeginKeeps(s, cfg, k, ok);
    CallBackAllKeeps(t, cfg, k);
    CallBackAllAccepts(t, cfg, k);
    EndSends(CallBackAll(t, k), cfg, k);
  }

  lemma {:induction false} TakeAllKeeps(s: Conn, cfg: Config, ms: seq<Message>)
    requires Inv(s, cfg) && !s.gone && Started(s)
    ensures Inv(TakeAll(s, ms), cfg)
    decreases |ms|
  {
    if ms != [] {
      TakeKeeps(s, cfg, ms[0]);
      TakeAllKeeps(Take(s, ms[0]), cfg, ms[1..]);
    }
  }

  lemma TakeKeeps(s: Conn, cfg: Config, m: Message)
    requires Inv(s, cfg) && !s.gone && Started(s)
    ensures Inv(Take(s, m), cfg) && !Take(s, m).gone && Started(Take(s, m))
  {
    TakeStaysOpen(s, m);
    match m {
      case Complete(f) => ReceiveKeeps(s, cfg, f);
      case Partial =>
      case Undecodable => if !Closing(s) { SetLinkKeeps(s, cfg, ClosedDefunct); }
    }
  }

  lemma TakeStaysOpen(s: Conn, m: Message)
    requires !s.gone && Started(s)
    ensures !Take(s, m).gone && Started(Take(s, m))
  {
  }

  /** The loop gives each request of the batch its own outcome and touches no other request. */
  lemma {:induction false} CallBackAllSettles(s: Conn, cfg: Config, k: nat, r: Id)
    requires Inv(s, cfg) && !s.gone && Started(s) && k < |s.pending| && s.pending[k].completing.Some? && r in s.reqs
    ensures r in CallBackAll(s, k).reqs
    ensures CallBackAll(s, k).reqs[r]
            == if r in s.pending[k].todo then WrittenRequest(s.reqs[r], s.pending[k].completing.value) else s.reqs[r]
    decreases |s.pending[k].todo|
  {
    if s.pending[k].todo != [] {
      RoundSettles(s, cfg, k, r);
      CallBackAllSettles(WriteDoneCallback(s, k), cfg, k, r);
    }
  }

  lemma RoundShape(s: Conn, k: nat, r: Id)
    requires CanCallBack(s, k) && r in s.reqs && s.pending[k].todo[0] in s.reqs
    requires WriteOutstanding(s.reqs[s.pending[k].todo[0]].state)
    ensures var t := WriteDoneCallback(s, k);
            && t.gone == s.gone && r in t.reqs
            && t.reqs[r] == if r == s.pending[k].todo[0] then WrittenRequest(s.reqs[r], s.pending[k].completing.value)
                            else s.reqs[r]
  {
    WriteDoneCallbackShape(s, k);
  }

  lemma HeadOnce(s: Conn, k: nat)
    requires Located(s.reqs, multiset(s.readers), Writers(s.pending)) && k < |s.pending| && s.pending[k].todo != []
    ensures s.pending[k].todo[0] in s.reqs && WriteOutstanding(s.reqs[s.pending[k].todo[0]].state)
    ensures s.pending[k].todo[0] !in s.pending[k].todo[1..]
  {
    var todo := s.pending[k].todo;
    HeadIsWaiting(s.pending, k);
    WritersSplit(s.pending, k);
    assert multiset(todo)[todo[0]] <= 1;
    assert todo == [todo[0]] + todo[1..];
    assert todo[0] !in multiset(todo[1..]);
  }

  lemma RoundSettles(s: Conn, cfg: Config, k: nat, r: Id)
    requires Inv(s, cfg) && !s.gone && CanCallBack(s, k) && r in s.reqs
    ensures var t := WriteDoneCallback(s, k);
            var todo := s.pending[k].todo;
            && Inv(t, cfg) && !t.gone && r in t.reqs
            && t.reqs[r]
               == (if r == todo[0] then WrittenRequest(s.reqs[r], s.pending[k].completing.value) else s.reqs[r])
            && (r == todo[0] ==> r !in todo[1..])
  {
    HeadOnce(s, k);
    WriteDoneCallbackKeeps(s, cfg, k);
    RoundShape(s, k, r);
  }

  class Connection {
    const cfg: Config
    var link: LinkState
    var reqs: map<Id, Request>
    var pending: seq<Batch>
    var pendingSize: int
    var readers: seq<Id>
    var streams: map<int, Id>
    var free: nat
    var faulted: bool
    var gone: bool
    var sent: seq<Byte>
    var accepted: seq<Byte>

    function View(): Conn
      reads this
    {
      Conn(link, reqs, pending, pendingSize, readers, streams, free, sent, accepted, faulted, gone)
    }

    constructor (cfg: Config, reqs: map<Id, Request>)
      requires forall r <- reqs :: reqs[r].state == New && reqs[r].accepts == 0 && reqs[r].refs == 0
                                && reqs[r].outcomes == []
      ensures Init(View()) && this.cfg == cfg && this.reqs == reqs
    {
      this.cfg := cfg;
      link, pending, pendingSize, free, faulted, gone := LinkNew, [], 0, 0, false, false;
      this.reqs, readers, streams := reqs, [], map[];
      sent, accepted := [], [];
    }

    /** A failed assertion; the code goes on with assertions compiled out. */
    method Check(ok: bool)
      modifies this`faulted
      ensures faulted == (old(faulted) || !ok)
    {
      if !ok {
        faulted := true;
      }
    }

    method SetState(next: LinkState)
      modifies this`link, this`faulted
      ensures View() == SetLink(old(View()), next)
    {
      if next == link {
        return;
      }
      var legal := false;
      match link {
        case LinkNew => legal := next == Connecting;
        case Connecting => legal := next == Connected || next == Closed || next == ClosedDefunct;
        case Connected =>
          legal := next == RegisteringEvents || next == Ready || next == Closed || next == ClosedDefunct;
        case RegisteringEvents => legal := next == Ready || next == Closed || next == ClosedDefunct;
        case Ready => legal := next == Overwhelmed || next == Closed || next == ClosedDefunct;
        case Overwhelmed => legal := next == Ready || next == Closed || next == ClosedDefunct;
        case Closed =>
        case ClosedDefunct =>
      }
      Check(legal);
      if link != Closed && link != ClosedDefunct {
        link := next;
      }
    }

    method InternalClose(next: LinkState)
      requires next == Closed || next == ClosedDefunct
      modifies this`link, this`faulted
      ensures View() == CloseLink(old(View()), next)
    {
      if link != Closed && link != ClosedDefunct {
        SetState(next);
      }
    }

    method SetRequestState(r: Id, next: State)
      requires r in reqs
      modifies this`reqs, this`faulted
      ensures View() == SetRequest(old(View()), r, next)
    {
      var q := reqs[r];
      Check(Legal(q.state, next));
      reqs := reqs[r := q.(state := Transition(q.state, next))];
    }

    /** One of on_set, on_error, on_retry and on_cancel. */
    method Notify(r: Id, outcome: Outcome)
      requires r in reqs
      modifies this`reqs
      ensures reqs == old(reqs)[r := old(reqs[r]).(outcomes := old(reqs[r]).outcomes + [outcome])]
    {
      var q := reqs[r];
      reqs := reqs[r := q.(outcomes := q.outcomes + [outcome])];
    }

    method DecRef(r: Id)
      requires r in reqs
      modifies this`reqs
      ensures reqs == old(reqs)[r := old(reqs[r]).(refs := old(reqs[r]).refs - 1)]
    {
      var q := reqs[r];
      reqs := reqs[r := q.(refs := q.refs - 1)];
    }

    method Conclusion(r: Id, next: State, outcome: Outcome)
      requires r in reqs
      modifies this`reqs, this`faulted
      ensures View() == Conclude(old(View()), r, next, outcome)
    {
      SetRequestState(r, next);
      Notify(r, outcome);
      DecRef(r);
    }

    method Flush()
      modifies this`pending, this`sent
      ensures View() == FlushLast(old(View()))
      ensures Batches(old(pending)) && Wire(old(View())) ==> sent == accepted
    {
      if |pending| == 0 {
        return;
      }
      var b := pending[|pending| - 1];
      if !b.flushed && |b.buffers| != 0 {
        pending := pending[|pending| - 1 := b.(flushed := true)];
        sent := sent + Flat(b.buffers);
      }
    }

    /** Takes the stream and the connection reference, and makes sure there is a batch to write to. */
    method Admit(r: Id, stream: int)
      requires r in reqs
      modifies this
      ensures View() == OpenBatch(Accept(old(View()), r, stream))
    {
      streams := streams[stream := r];
      var q := reqs[r];
      reqs := reqs[r := q.(stream := stream, saved := None, accepts := q.accepts + 1, refs := q.refs + 1)];
      if |pending| == 0 || pending[|pending| - 1].flushed {
        if free > 0 {
          free := free - 1;
        }
        pending := pending + [EmptyBatch];
      }
    }

    /** PendingWriteBase::write, followed by the water mark. */
    method AppendEncoding(r: Id, bufs: seq<seq<Byte>>)
      requires |pending| != 0
      modifies this
      ensures View() == CheckHighMark(Enqueue(old(View()), r, bufs), cfg)
    {
      var k := |pending| - 1;
      pending := pending[k := AppendToBatch(pending[k], r, bufs)];
      accepted := accepted + Flat(bufs);
      pendingSize := pendingSize + |Flat(bufs)|;
      if pendingSize > cfg.high {
        SetState(Overwhelmed);
      }
    }

    method GiveUp(r: Id, stream: int, outcome: Outcome)
      requires r in reqs
      modifies this
      ensures View() == Abandon(Release(old(View()), stream), r, outcome)
    {
      streams := streams - {stream};
      Notify(r, outcome);
      DecRef(r);
    }

    /** internal_write, given the stream id that was acquired and the outcome of encoding. */
    method InternalWrite(r: Id, stream: int, enc: Encoding, flushImmediately: bool)
      requires r in reqs
      modifies this
      ensures View() == Write(old(View()), cfg, r, stream, enc, flushImmediately)
    {
      if reqs[r].state == State.Cancelled {
        return;
      }
      if stream < 0 {
        return;
      }
      Admit(r, stream);
      match enc {
        case EncodeFailed(reported) =>
          GiveUp(r, stream, Error(if reported then EncodeErrorReportedByRequest else EncodeError));
        case Encoded(bufs) =>
          AppendEncoding(r, bufs);
          SetRequestState(r, Writing);
          if flushImmediately {
            Flush();
          }
      }
    }

    /** One round of the loop in on_write, for the request at the head of the batch. */
    method OnWriteRound(k: nat)
      requires CanCallBack(View(), k)
      modifies this
      ensures View() == WriteDoneCallback(old(View()), k)
    {
      var b := pending[k];
      var r := b.todo[0];
      pending := pending[k := b.(todo := b.todo[1..])];
      if r !in reqs {
        faulted := true;
        return;
      }
      match reqs[r].state {
        case Writing =>
          if b.completing.value {
            SetRequestState(r, Reading);
            readers := readers + [r];
          } else {
            if link != Closed && link != ClosedDefunct {
              InternalClose(ClosedDefunct);
            }
            streams := streams - {reqs[r].stream};
            Conclusion(r, Finished, Error(WriteError));
          }
        case ReadBeforeWrite =>
          Conclusion(r, Finished, Set(reqs[r].stream, SavedResponse(reqs[r])));
        case CancelledWriting =>
          SetRequestState(r, CancelledReading);
          readers := readers + [r];
        case CancelledReadBeforeWrite =>
          Conclusion(r, State.Cancelled, Outcome.Cancel);
        case _ =>
          Check(false);
      }
    }

    method OnWriteLoop(k: nat)
      requires Started(View()) && k < |pending| && pending[k].completing.Some?
      modifies this
      ensures View() == CallBackAll(old(View()), k)
    {
      while |pending[k].todo| != 0
        invariant Started(View()) && k < |pending| && pending[k].completing.Some?
        invariant CallBackAll(View(), k) == CallBackAll(old(View()), k)
        decreases |pending[k].todo|
      {
        ghost var s := View();
        OnWriteRound(k);
        assert CallBackAll(s, k) == CallBackAll(WriteDoneCallback(s, k), k);
      }
    }

    method OnWriteBegin(k: nat, ok: bool)
      requires CanBegin(View(), k)
      modifies this
      ensures View() == WriteDoneBegin(old(View()), cfg, k, ok)
    {
      pendingSize := pendingSize - pending[k].size;
      pending := pending[k := pending[k].(completing := Some(ok))];
      if pendingSize < cfg.low && link == Overwhelmed {
        SetState(Ready);
      }
    }

    /** The batch is recycled and what was queued meanwhile is flushed. */
    method OnWriteEnd(k: nat)
      requires k < |pending|
      modifies this`pending, this`free, this`sent
      ensures View() == WriteDoneEnd(old(View()), cfg, k)
    {
      pending := pending[..k] + pending[k + 1..];
      if free < cfg.maxReusable {
        free := free + 1;
      }
      Flush();
    }

    method OnWrite(k: nat, ok: bool)
      requires CanBegin(View(), k)
      modifies this
      ensures View() == WriteDone(old(View()), cfg, k, ok)
      ensures old(Inv(View(), cfg)) && !old(gone) ==> sent == accepted == old(accepted)
    {
      ghost var s := View();
      OnWriteBegin(k, ok);
      OnWriteLoop(k);
      OnWriteEnd(k);
      if Inv(s, cfg) && !s.gone {
        WriteDoneSends(s, cfg, k, ok);
      }
    }

    /** A complete message on a client stream or on the event stream. */
    method OnMessage(f: Frame)
      requires !Closing(View())
      modifies this
      ensures View() == Receive(old(View()), f)
    {
      if f.stream < 0 {
        if !f.event {
          InternalClose(ClosedDefunct);
        }
      } else if f.stream in streams {
        var r := streams[f.stream];
        streams := streams - {f.stream};
        if r !in reqs {
          faulted := true;
          return;
        }
        match reqs[r].state {
          case Reading =>
            readers := Without(readers, r);
            Conclusion(r, Finished, Set(reqs[r].stream, f));
          case Writing =>
            SetRequestState(r, ReadBeforeWrite);
            reqs := reqs[r := reqs[r].(saved := Some(f))];
          case CancelledReading =>
            readers := Without(readers, r);
            Conclusion(r, State.Cancelled, Outcome.Cancel);
          case CancelledWriting =>
            SetRequestState(r, CancelledReadBeforeWrite);
          case _ =>
            Check(false);
        }
      } else {
        InternalClose(ClosedDefunct);
      }
    }

    method Consume(ms: seq<Message>)
      modifies this
      ensures View() == TakeAll(old(View()), ms)
    {
      var i := 0;
      while i != |ms| && link != Closed && link != ClosedDefunct
        invariant 0 <= i <= |ms|
        invariant TakeAll(View(), ms[i..]) == TakeAll(old(View()), ms)
        decreases |ms| - i
      {
        match ms[i] {
          case Undecodable => InternalClose(ClosedDefunct);
          case Partial =>
          case Complete(f) => OnMessage(f);
        }
        i := i + 1;
      }
      if i != |ms| {
        ClosingTakesNothing(View(), ms[i..]);
      }
    }

    method CleanupPendingCallback(r: Id)
      modifies this`reqs, this`faulted
      ensures View() == Cleanup(old(View()), r)
    {
      if r !in reqs {
        faulted := true;
        return;
      }
      match reqs[r].state {
        case ReadBeforeWrite =>
          Conclusion(r, Finished, Set(reqs[r].stream, SavedResponse(reqs[r])));
        case Writing =>
          Conclusion(r, Finished, if reqs[r].idempotent then Retry else Error(TimedOut));
        case Reading =>
          Conclusion(r, Finished, if reqs[r].idempotent then Retry else Error(TimedOut));
        case CancelledWriting =>
          Conclusion(r, State.Cancelled, Outcome.Cancel);
        case CancelledReading =>
          Conclusion(r, State.Cancelled, Outcome.Cancel);
        case CancelledReadBeforeWrite =>
          Conclusion(r, State.Cancelled, Outcome.Cancel);
        case _ =>
          Check(false);
          DecRef(r);
      }
    }

    /** PendingWriteBase::cleanup. */
    method CleanupBatch(ids: seq<Id>)
      modifies this`reqs, this`faulted
      ensures View() == CleanupAll(old(View()), ids)
    {
      var i := 0;
      while i < |ids|
        invariant 0 <= i <= |ids|
        invariant View() == old(View()).(reqs := reqs, faulted := faulted)
        invariant CleanupAll(View(), ids[i..]) == CleanupAll(old(View()), ids)
      {
        CleanupPendingCallback(ids[i]);
        i := i + 1;
      }
    }

    /** The read list is swept first. */
    method SweepReads()
      modifies this`reqs, this`faulted, this`readers
      ensures readers == [] && Swept(View()) == Swept(old(View()))
    {
      ghost var s := View();
      while |readers| != 0
        invariant View() == s.(reqs := reqs, faulted := faulted, readers := readers)
        invariant Swept(View()) == Swept(s)
        decreases |readers|
      {
        var r := readers[0];
        SweepReader(View());
        readers := readers[1..];
        CleanupPendingCallback(r);
      }
    }

    method SweepWrites()
      requires readers == []
      modifies this`reqs, this`faulted, this`pending
      ensures View() == Swept(old(View()))
    {
      ghost var s := View();
      while |pending| != 0
        invariant View() == s.(reqs := reqs, faulted := faulted, pending := pending)
        invariant Swept(View()) == Swept(s)
        decreases |pending|
      {
        var b := pending[0];
        SweepBatch(View());
        pending := pending[1..];
        CleanupBatch(b.todo);
      }
    }

    method OnClose()
      modifies this
      ensures View() == ConnectionModel.OnClose(old(View()))
      ensures old(Inv(View(), cfg)) ==> forall r <- old(reqs) :: r in reqs && ClosedOrLeft(old(reqs)[r], reqs[r])
    {
      ghost var s := View();
      SweepReads();
      SweepWrites();
      gone := true;
      if Inv(s, cfg) {
        forall r | r in s.reqs {
          OnCloseTells(s, r);
        }
      }
    }
  }

  /** The connection after the sweep of on_close. */
  function Swept(s: Conn): Conn {
    CleanupAll(s, s.readers + Unwritten(s.pending)).(readers := [], pending := [])
  }

  /** The sweep of a request does not depend on the lists that hold it. */
  lemma CleanupOneIgnoresLists(s: Conn, r: Id, readers: seq<Id>, pending: seq<Batch>)
    ensures Cleanup(s.(readers := readers, pending := pending), r)
            == Cleanup(s, r).(readers := readers, pending := pending)
  {
  }

  lemma {:induction false} CleanupIgnoresLists(s: Conn, ids: seq<Id>, readers: seq<Id>, pending: seq<Batch>)
    ensures CleanupAll(s.(readers := readers, pending := pending), ids)
            == CleanupAll(s, ids).(readers := readers, pending := pending)
    decreases |ids|
  {
    if ids != [] {
      CleanupOneIgnoresLists(s, ids[0], readers, pending);
      CleanupIgnoresLists(Cleanup(s, ids[0]), ids[1..], readers, pending);
    }
  }

  lemma {:induction false} CleanupConcat(s: Conn, a: seq<Id>, b: seq<Id>)
    ensures CleanupAll(s, a + b) == CleanupAll(CleanupAll(s, a), b)
    decreases |a|
  {
    if a == [] {
      assert a + b == b;
    } else {
      assert (a + b)[1..] == a[1..] + b;
      CleanupConcat(Cleanup(s, a[0]), a[1..], b);
    }
  }

  lemma SweepReader(s: Conn)
    requires s.readers != []
    ensures Swept(Cleanup(s.(readers := s.readers[1..]), s.readers[0])) == Swept(s)
  {
    var r := s.readers[0];
    var rest := s.readers[1..] + Unwritten(s.pending);
    assert s.readers + Unwritten(s.pending) == [r] + rest;
    CleanupConcat(s, [r], rest);
    assert CleanupAll(s, [r]) == Cleanup(s, r);
    CleanupIgnoresLists(s, [r], s.readers[1..], s.pending);
    CleanupIgnoresLists(Cleanup(s, r), rest, s.readers[1..], s.pending);
  }

  lemma SweepBatch(s: Conn)
    requires s.readers == [] && s.pending != []
    ensures Swept(CleanupAll(s.(pending := s.pending[1..]), s.pending[0].todo)) == Swept(s)
  {
    var ids := s.pending[0].todo;
    var rest := Unwritten(s.pending[1..]);
    assert s.readers + Unwritten(s.pending) == ids + rest;
    CleanupConcat(s, ids, rest);
    CleanupIgnoresLists(s, ids, [], s.pending[1..]);
    CleanupIgnoresLists(CleanupAll(s, ids), rest, [], s.pending[1..]);
    assert [] + rest == rest;
  }
}
