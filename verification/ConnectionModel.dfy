/**
 * One connection as a transition system (cpp-driver/src/connection.cpp).
 *
 * The write callback is split into one step per request, because every notification can call
 * back into the connection; the steps of different calls may therefore interleave. A failed
 * `assert` sets `faulted`; the state is otherwise what the code leaves with assertions
 * compiled out.
 */
module ConnectionModel {
  import opened Options
  import opened Requests

  datatype LinkState =
    | LinkNew
    | Connecting
    | Connected
    | RegisteringEvents
    | Ready
    | Overwhelmed
    | Closed
    | ClosedDefunct

  /** Water marks as Config validates them; see cpp-driver/src/cluster.cpp:177-195. */
  datatype Config = Config(low: nat, high: nat, maxStreams: nat, maxReusable: nat) {
    predicate Valid() { 0 < low <= high }
  }

  /**
   * PendingWriteBase. `todo` are the callbacks that the write callback has not handled yet, and
   * `completing` holds the status of the write callback from its first step to its last one.
   */
  datatype Batch = Batch(flushed: bool, buffers: seq<seq<Byte>>, size: nat, todo: seq<Id>, completing: Option<bool>)

  const EmptyBatch := Batch(false, [], 0, [], None)

  /** `sent` and `accepted` are histories: bytes given to the socket, encodings of accepted requests. */
  datatype Conn = Conn(
    link: LinkState,
    reqs: map<Id, Request>,
    pending: seq<Batch>,
    pendingSize: int,
    readers: seq<Id>,
    streams: map<int, Id>,
    free: nat,
    sent: seq<Byte>,
    accepted: seq<Byte>,
    faulted: bool,
    gone: bool)

  predicate Closing(s: Conn) { s.link == Closed || s.link == ClosedDefunct }

  // ---------- state changes ----------

  predicate LegalLink(cur: LinkState, next: LinkState) {
    cur == next ||
    match cur
    case LinkNew => next == Connecting
    case Connecting => next == Connected || next == Closed || next == ClosedDefunct
    case Connected => next == RegisteringEvents || next == Ready || next == Closed || next == ClosedDefunct
    case RegisteringEvents => next == Ready || next == Closed || next == ClosedDefunct
    case Ready => next == Overwhelmed || next == Closed || next == ClosedDefunct
    case Overwhelmed => next == Ready || next == Closed || next == ClosedDefunct
    case Closed => false
    case ClosedDefunct => false
  }

  /** Connection::set_state: an illegal edge fails an assertion; the closed states are never left. */
  function SetLink(s: Conn, next: LinkState): Conn {
    s.(link := if Closing(s) then s.link else next, faulted := s.faulted || !LegalLink(s.link, next))
  }

  /** Connection::internal_close. */
  function CloseLink(s: Conn, next: LinkState): Conn
    requires next == Closed || next == ClosedDefunct
  {
    if Closing(s) then s else SetLink(s, next)
  }

  function SetRequest(s: Conn, r: Id, next: State): Conn
    requires r in s.reqs
  {
    var q := s.reqs[r];
    s.(reqs := s.reqs[r := q.(state := Transition(q.state, next))],
       faulted := s.faulted || !Legal(q.state, next))
  }

  /** set_state, one terminal notification and dec_ref. */
  function Conclude(s: Conn, r: Id, next: State, outcome: Outcome): Conn
    requires r in s.reqs
  {
    var q := s.reqs[r];
    s.(reqs := s.reqs[r := q.(state := Transition(q.state, next),
                              refs := q.refs - 1,
                              outcomes := q.outcomes + [outcome])],
       faulted := s.faulted || !Legal(q.state, next))
  }

  /** A notification and dec_ref without a change of state. */
  function Abandon(s: Conn, r: Id, outcome: Outcome): Conn
    requires r in s.reqs
  {
    var q := s.reqs[r];
    s.(reqs := s.reqs[r := q.(refs := q.refs - 1, outcomes := q.outcomes + [outcome])])
  }

  function Release(s: Conn, stream: int): Conn {
    s.(streams := s.streams - {stream})
  }

  function AddRead(s: Conn, r: Id): Conn {
    s.(readers := s.readers + [r])
  }

  /** List::remove on the read list. */
  function Without(ids: seq<Id>, r: Id): seq<Id> {
    if ids == [] then [] else if ids[0] == r then ids[1..] else [ids[0]] + Without(ids[1..], r)
  }

  // ---------- writing ----------

  datatype Encoding = Encoded(buffers: seq<seq<Byte>>) | EncodeFailed(reported: bool)

  /** Stream id, connection reference and start(). */
  function Accept(s: Conn, r: Id, stream: int): Conn
    requires r in s.reqs
  {
    var q := s.reqs[r];
    s.(reqs := s.reqs[r := q.(stream := stream, saved := None, accepts := q.accepts + 1, refs := q.refs + 1)],
       streams := s.streams[stream := r])
  }

  /** A new batch is started only when there is none or the last one is flushed. */
  function OpenBatch(s: Conn): (t: Conn)
    ensures t.pending != [] && !t.pending[|t.pending| - 1].flushed
    ensures t == s.(pending := t.pending, free := t.free)
  {
    if s.pending == [] || s.pending[|s.pending| - 1].flushed then
      s.(pending := s.pending + [EmptyBatch], free := if s.free > 0 then s.free - 1 else 0)
    else s
  }

  /** PendingWriteBase::write for a successful encoding. */
  function AppendToBatch(b: Batch, r: Id, bufs: seq<seq<Byte>>): Batch {
    b.(buffers := b.buffers + bufs, size := b.size + |Flat(bufs)|, todo := b.todo + [r])
  }

  function Enqueue(s: Conn, r: Id, bufs: seq<seq<Byte>>): Conn
    requires s.pending != []
  {
    var k := |s.pending| - 1;
    s.(pending := s.pending[k := AppendToBatch(s.pending[k], r, bufs)],
       pendingSize := s.pendingSize + |Flat(bufs)|,
       accepted := s.accepted + Flat(bufs))
  }

  /** PendingWrite::flush on the last batch. */
  function FlushLast(s: Conn): Conn {
    if s.pending == [] then s
    else
      var k := |s.pending| - 1;
      var b := s.pending[k];
      if b.flushed || b.buffers == [] then s
      else s.(pending := s.pending[k := b.(flushed := true)], sent := s.sent + Flat(b.buffers))
  }

  function CheckHighMark(s: Conn, cfg: Config): Conn {
    if s.pendingSize > cfg.high then SetLink(s, Overwhelmed) else s
  }

  /** Connection::internal_write; `stream` is what the stream manager returned. */
  function Write(s: Conn, cfg: Config, r: Id, stream: int, enc: Encoding, flush: bool): Conn
    requires r in s.reqs
  {
    if s.reqs[r].state == Cancelled || stream < 0 then s
    else
      var s1 := OpenBatch(Accept(s, r, stream));
      match enc
      case EncodeFailed(reported) =>
        Abandon(Release(s1, stream), r, Error(if reported then EncodeErrorReportedByRequest else EncodeError))
      case Encoded(bufs) =>
        var s2 := SetRequest(CheckHighMark(Enqueue(s1, r, bufs), cfg), r, Writing);
        if flush then FlushLast(s2) else s2
  }

  // ---------- write callback ----------

  /** PendingWriteBase::on_write up to its loop. */
  function WriteDoneBegin(s: Conn, cfg: Config, k: nat, ok: bool): Conn
    requires k < |s.pending|
  {
    var b := s.pending[k];
    var s1 := s.(pendingSize := s.pendingSize - b.size, pending := s.pending[k := b.(completing := Some(ok))]);
    if s1.pendingSize < cfg.low && s1.link == Overwhelmed then SetLink(s1, Ready) else s1
  }

  function SavedResponse(q: Request): Frame {
    if q.saved.Some? then q.saved.value else Frame(q.stream, false, [])
  }

  /** One round of the loop in PendingWriteBase::on_write. */
  function WriteDoneCallback(s: Conn, k: nat): (t: Conn)
    requires CanCallBack(s, k)
    ensures Started(t) && t.pending == s.pending[k := s.pending[k].(todo := s.pending[k].todo[1..])]
  {
    var b := s.pending[k];
    var r := b.todo[0];
    var s1 := s.(pending := s.pending[k := b.(todo := b.todo[1..])]);
    if r !in s.reqs then s1.(faulted := true) else
    var q := s.reqs[r];
    match q.state
    case Writing =>
      if b.completing.value then AddRead(SetRequest(s1, r, Reading), r)
      else Conclude(Release(CloseLink(s1, ClosedDefunct), q.stream), r, Finished, Error(WriteError))
    case ReadBeforeWrite => Conclude(s1, r, Finished, Set(q.stream, SavedResponse(q)))
    case CancelledWriting => AddRead(SetRequest(s1, r, CancelledReading), r)
    case CancelledReadBeforeWrite => Conclude(s1, r, Cancelled, Outcome.Cancel)
    case _ => s1.(faulted := true)
  }

  function Recycle(s: Conn, cfg: Config, k: nat): Conn
    requires k < |s.pending|
  {
    s.(pending := s.pending[..k] + s.pending[k + 1..],
       free := if s.free < cfg.maxReusable then s.free + 1 else s.free)
  }

  /** PendingWriteBase::on_write after its loop: the batch is recycled and the next one flushed. */
  function WriteDoneEnd(s: Conn, cfg: Config, k: nat): Conn
    requires k < |s.pending|
  {
    FlushLast(Recycle(s, cfg, k))
  }

  // ---------- responses ----------

  /** One complete message in Connection::consume. */
  function Receive(s: Conn, f: Frame): Conn
  {
    if Closing(s) then s
    else if f.stream < 0 then
      if f.event then s else CloseLink(s, ClosedDefunct)
    else if f.stream !in s.streams then CloseLink(s, ClosedDefunct)
    else
      var r := s.streams[f.stream];
      var s1 := Release(s, f.stream);
      if r !in s.reqs then s1.(faulted := true) else
      match s.reqs[r].state
      case Reading =>
        Conclude(s1.(readers := Without(s1.readers, r)), r, Finished, Set(s.reqs[r].stream, f))
      case Writing =>
        var s2 := SetRequest(s1, r, ReadBeforeWrite);
        s2.(reqs := s2.reqs[r := s2.reqs[r].(saved := Some(f))])
      case CancelledReading =>
        Conclude(s1.(readers := Without(s1.readers, r)), r, Cancelled, Outcome.Cancel)
      case CancelledWriting => SetRequest(s1, r, CancelledReadBeforeWrite)
      case _ => s1.(faulted := true)
  }

  // ---------- close ----------

  /** A request in flight after cleanup_pending_callback. */
  function CleanedUp(q: Request): Request {
    if q.state == ReadBeforeWrite then
      q.(state := Finished, refs := q.refs - 1, outcomes := q.outcomes + [Set(q.stream, SavedResponse(q))])
    else if q.state == Writing || q.state == Reading then
      q.(state := Finished, refs := q.refs - 1,
         outcomes := q.outcomes + [if q.idempotent then Retry else Error(TimedOut)])
    else if CancelledInFlight(q.state) then
      q.(state := State.Cancelled, refs := q.refs - 1, outcomes := q.outcomes + [Outcome.Cancel])
    else q.(refs := q.refs - 1)
  }

  /** cleanup_pending_callback; a request that is not in flight fails an assertion. */
  function Cleanup(s: Conn, r: Id): Conn {
    if r !in s.reqs then s.(faulted := true)
    else s.(reqs := s.reqs[r := CleanedUp(s.reqs[r])], faulted := s.faulted || !InFlight(s.reqs[r].state))
  }

  function CleanupAll(s: Conn, ids: seq<Id>): Conn
    decreases |ids|
  {
    if ids == [] then s else CleanupAll(Cleanup(s, ids[0]), ids[1..])
  }

  /** The unhandled callbacks of all pending batches, in order. */
  function Unwritten(bs: seq<Batch>): seq<Id> {
    if bs == [] then [] else bs[0].todo + Unwritten(bs[1..])
  }

  /** Connection::on_close. */
  function OnClose(s: Conn): Conn {
    CleanupAll(s, s.readers + Unwritten(s.pending)).(readers := [], pending := [], gone := true)
  }

  // ---------- the transition system ----------

  datatype Step =
    | DoWrite(r: Id, stream: int, enc: Encoding, flush: bool)
    | DoFlush
    | DoWriteDoneBegin(k: nat, ok: bool)
    | DoWriteDoneCallback(k: nat)
    | DoWriteDoneEnd(k: nat)
    | DoReceive(f: Frame)
    | DoReceiveGarbage
    | DoCancel(r: Id)
    | DoRenew(r: Id)
    | DoSetUp(next: LinkState)
    | DoClose(defunct: bool)
    | DoOnClose

  // Callers and libuv promise the following.

  /** A request is written when it is new or was cancelled; its stream id is free, or none is left. */
  predicate CanWrite(s: Conn, cfg: Config, r: Id, stream: int, enc: Encoding) {
    && r in s.reqs
    && (s.reqs[r].state == New || s.reqs[r].state == Cancelled)
    && (if stream < 0 then |s.streams| == cfg.maxStreams else stream < cfg.maxStreams && stream !in s.streams)
    && (enc.Encoded? ==> enc.buffers != [])
  }

  /** Nothing is read from or written to a socket that was never asked to connect. */
  predicate Started(s: Conn) { s.link != LinkNew }

  /** A flushed batch gets one write callback. */
  predicate CanBegin(s: Conn, k: nat) {
    Started(s) && k < |s.pending| && s.pending[k].flushed && s.pending[k].completing.None?
  }

  predicate CanCallBack(s: Conn, k: nat) {
    Started(s) && k < |s.pending| && s.pending[k].completing.Some? && s.pending[k].todo != []
  }

  predicate CanEnd(s: Conn, k: nat) {
    k < |s.pending| && s.pending[k].completing.Some? && s.pending[k].todo == []
  }

  /** A request in flight is cancelled at most once, because its future is set once. */
  predicate CanCancel(s: Conn, r: Id) {
    r in s.reqs && !CancelledInFlight(s.reqs[r].state)
  }

  predicate SetUpEdge(cur: LinkState, next: LinkState) {
    || (cur == LinkNew && next == Connecting)
    || (cur == Connecting && next == Connected)
    || (cur == Connected && next == RegisteringEvents)
    || ((cur == Connected || cur == RegisteringEvents) && next == Ready)
  }

  /** The close callback runs after uv_close and never inside a write callback. */
  predicate CanFinishClose(s: Conn) {
    Closing(s) && forall i :: 0 <= i < |s.pending| ==> s.pending[i].completing.None?
  }

  predicate Enabled(s: Conn, cfg: Config, step: Step) {
    !s.gone &&
    match step
    case DoWrite(r, stream, enc, _) => CanWrite(s, cfg, r, stream, enc)
    case DoFlush => true
    case DoWriteDoneBegin(k, _) => CanBegin(s, k)
    case DoWriteDoneCallback(k) => CanCallBack(s, k)
    case DoWriteDoneEnd(k) => CanEnd(s, k)
    case DoReceive(_) => Started(s)
    case DoReceiveGarbage => Started(s)
    case DoCancel(r) => CanCancel(s, r)
    case DoRenew(r) => r in s.reqs && s.reqs[r].state == Finished
    case DoSetUp(next) => SetUpEdge(s.link, next)
    case DoClose(_) => true
    case DoOnClose => CanFinishClose(s)
  }

  function Apply(s: Conn, cfg: Config, step: Step): Conn
    requires Enabled(s, cfg, step)
  {
    match step
    case DoWrite(r, stream, enc, flush) => Write(s, cfg, r, stream, enc, flush)
    case DoFlush => FlushLast(s)
    case DoWriteDoneBegin(k, ok) => WriteDoneBegin(s, cfg, k, ok)
    case DoWriteDoneCallback(k) => WriteDoneCallback(s, k)
    case DoWriteDoneEnd(k) => WriteDoneEnd(s, cfg, k)
    case DoReceive(f) => Receive(s, f)
    case DoReceiveGarbage => CloseLink(s, ClosedDefunct)
    case DoCancel(r) => SetRequest(s, r, State.Cancelled)
    case DoRenew(r) => SetRequest(s, r, New)
    case DoSetUp(next) => SetLink(s, next)
    case DoClose(defunct) => CloseLink(s, if defunct then ClosedDefunct else Closed)
    case DoOnClose => OnClose(s)
  }

  // ---------- the invariant ----------

  /** The requests waiting for a write callback, with multiplicity. */
  ghost function Writers(bs: seq<Batch>): multiset<Id> {
    if bs == [] then multiset{} else multiset(bs[0].todo) + Writers(bs[1..])
  }

  function Once(b: bool): nat { if b then 1 else 0 }

  /**
   * Every request is in the place that its state says, exactly once, and nothing else is: the
   * read list and the pending batches are disjoint and hold the requests in flight.
   */
  ghost predicate Located(reqs: map<Id, Request>, readers: multiset<Id>, writers: multiset<Id>) {
    && (forall r <- readers :: r in reqs)
    && (forall r <- writers :: r in reqs)
    && (forall r <- reqs :: readers[r] == Once(ReadOutstanding(reqs[r].state)))
    && (forall r <- reqs :: writers[r] == Once(WriteOutstanding(reqs[r].state)))
  }

  /** The stream table is the injective map of the requests that still await a response. */
  ghost predicate Streams(reqs: map<Id, Request>, streams: map<int, Id>, max: nat) {
    && (forall k <- streams ::
          && 0 <= k < max
          && streams[k] in reqs
          && AwaitsResponse(reqs[streams[k]].state)
          && reqs[streams[k]].stream == k)
    && (forall r <- reqs :: AwaitsResponse(reqs[r].state) ==>
          reqs[r].stream in streams && streams[reqs[r].stream] == r)
  }

  /** A response fits its stream; idempotent requests alone are retried, and they never time out. */
  predicate Fitting(idempotent: bool, o: Outcome) {
    && (o.Set? ==> o.frame.stream == o.stream)
    && (o.Retry? ==> idempotent)
    && (o == Error(TimedOut) ==> !idempotent)
  }

  /**
   * One notification and one dropped reference per acceptance, none while in flight, and every
   * notification fits the request.
   */
  predicate Accounted(q: Request) {
    && q.accepts == |q.outcomes| + Once(InFlight(q.state))
    && q.refs == Once(InFlight(q.state))
    && (q.state == ReadBeforeWrite ==> q.saved.Some? && q.saved.value.stream == q.stream)
    && (forall o <- q.outcomes :: Fitting(q.idempotent, o))
  }

  ghost predicate Accounts(reqs: map<Id, Request>) {
    forall r <- reqs :: Accounted(reqs[r])
  }

  /** Only the last batch can be unflushed, and only flushed batches complete. */
  predicate BatchOk(b: Batch) {
    && b.size == |Flat(b.buffers)|
    && (b.completing.Some? ==> b.flushed)
    && (b.buffers == [] ==> b.todo == [] && !b.flushed)
  }

  predicate Batches(bs: seq<Batch>) {
    && (forall i :: 0 <= i < |bs| ==> BatchOk(bs[i]))
    && (forall i :: 0 <= i < |bs| - 1 ==> bs[i].flushed)
  }

  function Backlog(bs: seq<Batch>): seq<Byte> {
    if bs != [] && !bs[|bs| - 1].flushed then Flat(bs[|bs| - 1].buffers) else []
  }

  function Weight(b: Batch): nat { if b.completing.None? then b.size else 0 }

  function Outstanding(bs: seq<Batch>): nat {
    if bs == [] then 0 else Weight(bs[0]) + Outstanding(bs[1..])
  }

  /** The socket has got a prefix of the accepted encodings; the rest waits in the last batch. */
  predicate Wire(s: Conn) {
    s.accepted == s.sent + Backlog(s.pending)
  }

  /** pending_writes_size_ is the size of the batches not yet completed; the water marks hold. */
  predicate Marks(s: Conn, cfg: Config) {
    && s.pendingSize == Outstanding(s.pending)
    && (!s.faulted ==>
          && ((|| s.link == LinkNew || s.link == Connecting || s.link == Connected || s.link == RegisteringEvents
               || s.link == Ready) ==> s.pendingSize <= cfg.high)
          && (s.link == Overwhelmed ==> cfg.low <= s.pendingSize))
  }

  ghost predicate Inv(s: Conn, cfg: Config) {
    && cfg.Valid()
    && Located(s.reqs, multiset(s.readers), Writers(s.pending))
    && Accounts(s.reqs)
    && Batches(s.pending)
    && if s.gone then s.readers == [] && s.pending == [] && s.sent <= s.accepted
       else Streams(s.reqs, s.streams, cfg.maxStreams) && Wire(s) && Marks(s, cfg)
  }

  ghost predicate Init(s: Conn) {
    && s == Conn(LinkNew, s.reqs, [], 0, [], map[], 0, [], [], false, false)
    && forall r <- s.reqs :: s.reqs[r].state == New && s.reqs[r].accepts == 0 && s.reqs[r].refs == 0
                          && s.reqs[r].outcomes == []
  }

  // ---------- the pending list as a sequence and as a multiset ----------

  lemma {:induction false} WritersConcat(a: seq<Batch>, b: seq<Batch>)
    ensures Writers(a + b) == Writers(a) + Writers(b)
  {
    if a == [] {
      assert a + b == b;
    } else {
      calc {
        Writers(a + b);
        { assert (a + b)[1..] == a[1..] + b; }
        multiset(a[0].todo) + Writers(a[1..] + b);
        { WritersConcat(a[1..], b); }
        multiset(a[0].todo) + (Writers(a[1..]) + Writers(b));
        Writers(a) + Writers(b);
      }
    }
  }

  /** The requests waiting in the batches other than the k-th. */
  ghost function OtherWriters(bs: seq<Batch>, k: nat): multiset<Id>
    requires k < |bs|
  {
    Writers(bs[..k]) + Writers(bs[k + 1..])
  }

  lemma WritersSplit(bs: seq<Batch>, k: nat)
    requires k < |bs|
    ensures Writers(bs) == OtherWriters(bs, k) + multiset(bs[k].todo)
  {
    assert bs == bs[..k] + bs[k..];
    WritersConcat(bs[..k], bs[k..]);
  }

  lemma WritersUpdate(bs: seq<Batch>, k: nat, b: Batch)
    requires k < |bs|
    ensures Writers(bs) == OtherWriters(bs, k) + multiset(bs[k].todo)
    ensures Writers(bs[k := b]) == OtherWriters(bs, k) + multiset(b.todo)
  {
    WritersSplit(bs, k);
    WritersSplit(bs[k := b], k);
    assert bs[k := b][..k] == bs[..k] && bs[k := b][k + 1..] == bs[k + 1..];
  }

  lemma {:induction false} WritersUnwritten(bs: seq<Batch>)
    ensures Writers(bs) == multiset(Unwritten(bs))
  {
    if bs != [] {
      WritersUnwritten(bs[1..]);
    }
  }

  lemma HeadIsWaiting(bs: seq<Batch>, k: nat)
    requires k < |bs| && bs[k].todo != []
    ensures bs[k].todo[0] in Writers(bs)
  {
    WritersSplit(bs, k);
    assert bs[k].todo[0] in multiset(bs[k].todo);
  }

  lemma {:induction false} OutstandingConcat(a: seq<Batch>, b: seq<Batch>)
    ensures Outstanding(a + b) == Outstanding(a) + Outstanding(b)
  {
    if a == [] {
      assert a + b == b;
    } else {
      OutstandingConcat(a[1..], b);
      assert (a + b)[1..] == a[1..] + b;
    }
  }

  lemma OutstandingSplit(bs: seq<Batch>, k: nat)
    requires k < |bs|
    ensures Outstanding(bs) == Outstanding(bs[..k]) + Weight(bs[k]) + Outstanding(bs[k + 1..])
  {
    assert bs == bs[..k] + bs[k..];
    OutstandingConcat(bs[..k], bs[k..]);
  }

  lemma OutstandingUpdate(bs: seq<Batch>, k: nat, b: Batch)
    requires k < |bs|
    ensures Outstanding(bs[k := b]) + Weight(bs[k]) == Outstanding(bs) + Weight(b)
  {
    OutstandingSplit(bs, k);
    OutstandingSplit(bs[k := b], k);
    assert bs[k := b][..k] == bs[..k] && bs[k := b][k + 1..] == bs[k + 1..];
  }
}
