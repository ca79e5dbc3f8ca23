/** Every step of the connection keeps the invariant (cpp-driver/src/connection.cpp). */
module ConnectionInvariant {
  import opened Options
  import opened Requests
  import opened ConnectionModel

  // ---------- changes to one request ----------

  /** `now` differs from `was` in the multiplicity of r only: b tells whether r is in it once. */
  ghost predicate Moves(was: multiset<Id>, now: multiset<Id>, r: Id, b: bool) {
    now[r] == Once(b) && forall x :: x != r ==> now[x] == was[x]
  }

  lemma LocatedAfter(reqs: map<Id, Request>, readers: multiset<Id>, writers: multiset<Id>,
                     r: Id, q: Request, readers': multiset<Id>, writers': multiset<Id>)
    requires Located(reqs, readers, writers) && r in reqs
    requires Moves(readers, readers', r, ReadOutstanding(q.state))
    requires Moves(writers, writers', r, WriteOutstanding(q.state))
    ensures Located(reqs[r := q], readers', writers')
  {
    forall x | x in readers'
      ensures x in reqs[r := q]
    {
      assert x == r || x in readers;
    }
    forall x | x in writers'
      ensures x in reqs[r := q]
    {
      assert x == r || x in writers;
    }
  }

  lemma StreamsKept(reqs: map<Id, Request>, streams: map<int, Id>, max: nat, r: Id, q: Request)
    requires Streams(reqs, streams, max) && r in reqs
    requires AwaitsResponse(q.state) == AwaitsResponse(reqs[r].state)
    requires AwaitsResponse(q.state) ==> q.stream == reqs[r].stream
    ensures Streams(reqs[r := q], streams, max)
  {
  }

  lemma StreamsReleased(reqs: map<Id, Request>, streams: map<int, Id>, max: nat, r: Id, q: Request)
    requires Streams(reqs, streams, max) && r in reqs
    requires AwaitsResponse(reqs[r].state) && !AwaitsResponse(q.state)
    ensures Streams(reqs[r := q], streams - {reqs[r].stream}, max)
  {
  }

  lemma StreamsAcquired(reqs: map<Id, Request>, streams: map<int, Id>, max: nat, r: Id, q: Request)
    requires Streams(reqs, streams, max) && r in reqs
    requires !AwaitsResponse(reqs[r].state) && AwaitsResponse(q.state)
    requires 0 <= q.stream < max && q.stream !in streams
    ensures Streams(reqs[r := q], streams[q.stream := r], max)
  {
  }

  lemma AccountsAfter(reqs: map<Id, Request>, r: Id, q: Request)
    requires Accounts(reqs) && Accounted(q)
    ensures Accounts(reqs[r := q])
  {
  }

  /** A step that changes request r to q keeps the invariant if its own effects fit together. */
  lemma InvAfter(s: Conn, cfg: Config, t: Conn, r: Id, q: Request)
    requires Inv(s, cfg) && !s.gone && !t.gone && r in s.reqs && t.reqs == s.reqs[r := q]
    requires Moves(multiset(s.readers), multiset(t.readers), r, ReadOutstanding(q.state))
    requires Moves(Writers(s.pending), Writers(t.pending), r, WriteOutstanding(q.state))
    requires Accounted(q)
    requires Streams(t.reqs, t.streams, cfg.maxStreams)
    requires Batches(t.pending) && Wire(t) && Marks(t, cfg)
    ensures Inv(t, cfg)
  {
    LocatedAfter(s.reqs, multiset(s.readers), Writers(s.pending), r, q, multiset(t.readers), Writers(t.pending));
    AccountsAfter(s.reqs, r, q);
  }

  lemma Added(m: multiset<Id>, m': multiset<Id>, r: Id)
    requires m[r] == 0 && m' == m + multiset{r}
    ensures Moves(m, m', r, true)
  {
  }

  lemma Removed(m: multiset<Id>, m': multiset<Id>, r: Id)
    requires m[r] == 1 && m' + multiset{r} == m
    ensures Moves(m, m', r, false)
  {
    forall x | x != r
      ensures m'[x] == m[x]
    {
      assert (m' + multiset{r})[x] == m'[x];
    }
  }

  // ---------- flush ----------

  /** Flushing the last batch. */
  lemma FlushedBatches(bs: seq<Batch>)
    requires Batches(bs) && bs != [] && bs[|bs| - 1].buffers != []
    ensures var k := |bs| - 1;
            var bs' := bs[k := bs[k].(flushed := true)];
            && Batches(bs')
            && Backlog(bs') == []
  {
    assert BatchOk(bs[|bs| - 1]);
  }

  lemma FlushedCounts(bs: seq<Batch>)
    requires bs != []
    ensures var k := |bs| - 1;
            var bs' := bs[k := bs[k].(flushed := true)];
            && Writers(bs') == Writers(bs)
            && Outstanding(bs') == Outstanding(bs)
  {
    var k := |bs| - 1;
    WritersUpdate(bs, k, bs[k].(flushed := true));
    OutstandingUpdate(bs, k, bs[k].(flushed := true));
  }

  /** Flushing moves bytes from the last batch to the socket and changes nothing else. */
  lemma FlushLastMoves(s: Conn)
    requires Batches(s.pending)
    ensures var t := FlushLast(s);
            && t == s.(pending := t.pending, sent := t.sent)
            && Batches(t.pending)
            && Writers(t.pending) == Writers(s.pending)
            && Outstanding(t.pending) == Outstanding(s.pending)
            && t.sent + Backlog(t.pending) == s.sent + Backlog(s.pending)
  {
    if s.pending != [] && !s.pending[|s.pending| - 1].flushed && s.pending[|s.pending| - 1].buffers != [] {
      FlushedBatches(s.pending);
      FlushedCounts(s.pending);
    }
  }

  /** A step that changes no request keeps the invariant if its own effects fit together. */
  lemma InvSameRequests(s: Conn, cfg: Config, t: Conn)
    requires Inv(s, cfg) && !s.gone && !t.gone
    requires t.reqs == s.reqs && t.readers == s.readers && t.streams == s.streams
    requires Writers(t.pending) == Writers(s.pending) && Batches(t.pending) && Wire(t) && Marks(t, cfg)
    ensures Inv(t, cfg)
  {
  }

  lemma FlushLastKeeps(s: Conn, cfg: Config)
    requires Inv(s, cfg) && !s.gone
    ensures Inv(FlushLast(s), cfg)
    ensures FlushLast(s).faulted == s.faulted
  {
    FlushLastMoves(s);
  }

  // ---------- write ----------

  /** OpenBatch adds at most an empty batch, which changes nothing that is counted. */
  lemma OpenBatchKeeps(s: Conn)
    requires Batches(s.pending)
    ensures var t := OpenBatch(s);
            && Batches(t.pending)
            && Writers(t.pending) == Writers(s.pending)
            && Outstanding(t.pending) == Outstanding(s.pending)
            && Backlog(t.pending) == Backlog(s.pending)
            && t.pending[|t.pending| - 1].completing.None?
  {
    WritersConcat(s.pending, [EmptyBatch]);
    OutstandingConcat(s.pending, [EmptyBatch]);
    if s.pending != [] {
      assert BatchOk(s.pending[|s.pending| - 1]);
    }
  }

  /** Appending an encoding to the last, unflushed batch. */
  lemma EnqueueCounts(s: Conn, r: Id, bufs: seq<seq<Byte>>)
    requires Batches(s.pending) && s.pending != [] && !s.pending[|s.pending| - 1].flushed && bufs != []
    requires s.pending[|s.pending| - 1].completing.None?
    ensures var t := Enqueue(s, r, bufs);
            && Batches(t.pending)
            && Writers(t.pending) == Writers(s.pending) + multiset{r}
            && Outstanding(t.pending) == Outstanding(s.pending) + |Flat(bufs)|
            && Backlog(t.pending) == Backlog(s.pending) + Flat(bufs)
  {
    var k := |s.pending| - 1;
    var b := s.pending[k];
    assert BatchOk(b);
    var c := AppendToBatch(b, r, bufs);
    AppendedBatch(b, r, bufs);
    WritersUpdate(s.pending, k, c);
    OutstandingUpdate(s.pending, k, c);
    LastReplaced(s.pending, c);
  }

  lemma LastReplaced(bs: seq<Batch>, c: Batch)
    requires Batches(bs) && bs != [] && BatchOk(c) && !c.flushed
    ensures Batches(bs[|bs| - 1 := c]) && Backlog(bs[|bs| - 1 := c]) == Flat(c.buffers)
  {
  }

  lemma AppendedBatch(b: Batch, r: Id, bufs: seq<seq<Byte>>)
    requires BatchOk(b) && !b.flushed && b.completing.None? && bufs != []
    ensures var c := AppendToBatch(b, r, bufs);
            && BatchOk(c) && c.flushed == b.flushed && c.completing == b.completing
            && multiset(c.todo) == multiset(b.todo) + multiset{r}
            && Weight(c) == Weight(b) + |Flat(bufs)|
            && Flat(c.buffers) == Flat(b.buffers) + Flat(bufs)
  {
    FlatConcat(b.buffers, bufs);
  }

  lemma WriteFailedShape(s: Conn, cfg: Config, r: Id, stream: int, enc: Encoding, flush: bool)
    requires CanWrite(s, cfg, r, stream, enc) && s.reqs[r].state == New && stream >= 0 && enc.EncodeFailed?
    ensures var t := Write(s, cfg, r, stream, enc, flush);
            var b := OpenBatch(Accept(s, r, stream));
            && t == s.(reqs := s.reqs[r := t.reqs[r]], pending := b.pending, free := b.free)
            && t.reqs[r] == s.reqs[r].(stream := stream, saved := None, accepts := s.reqs[r].accepts + 1,
                                       outcomes := s.reqs[r].outcomes + [t.reqs[r].outcomes[|s.reqs[r].outcomes|]])
            && t.reqs[r].outcomes[|s.reqs[r].outcomes|].Error?
  {
    var t := Write(s, cfg, r, stream, enc, flush);
    assert t.streams == s.streams;
  }

  /** What a refused write does: it settles request r and leaves at most an empty batch behind. */
  ghost predicate Refuses(s: Conn, r: Id, t: Conn)
    requires r in s.reqs
  {
    && r in t.reqs && t == s.(reqs := s.reqs[r := t.reqs[r]], pending := t.pending, free := t.free)
    && s.reqs[r].state == t.reqs[r].state == New && Accounted(t.reqs[r])
    && Batches(t.pending) && Writers(t.pending) == Writers(s.pending)
    && Outstanding(t.pending) == Outstanding(s.pending) && Backlog(t.pending) == Backlog(s.pending)
  }

  lemma WriteFailedRefuses(s: Conn, cfg: Config, r: Id, stream: int, enc: Encoding, flush: bool)
    requires Batches(s.pending) && CanWrite(s, cfg, r, stream, enc) && Accounted(s.reqs[r])
    requires s.reqs[r].state == New && stream >= 0 && enc.EncodeFailed?
    ensures Refuses(s, r, Write(s, cfg, r, stream, enc, flush))
  {
    OpenBatchKeeps(Accept(s, r, stream));
    WriteFailedShape(s, cfg, r, stream, enc, flush);
  }

  lemma WriteFailedKeeps(s: Conn, cfg: Config, r: Id, stream: int, enc: Encoding, flush: bool)
    requires Inv(s, cfg) && !s.gone && CanWrite(s, cfg, r, stream, enc)
    requires s.reqs[r].state == New && stream >= 0 && enc.EncodeFailed?
    ensures Inv(Write(s, cfg, r, stream, enc, flush), cfg)
    ensures Write(s, cfg, r, stream, enc, flush).faulted == s.faulted
  {
    assert Accounted(s.reqs[r]);
    WriteFailedRefuses(s, cfg, r, stream, enc, flush);
    RefusedKeeps(s, cfg, r, Write(s, cfg, r, stream, enc, flush));
  }

  lemma RefusedKeeps(s: Conn, cfg: Config, r: Id, t: Conn)
    requires Inv(s, cfg) && !s.gone && r in s.reqs && Refuses(s, r, t)
    ensures Inv(t, cfg) && t.faulted == s.faulted
  {
    StreamsKept(s.reqs, s.streams, cfg.maxStreams, r, t.reqs[r]);
    InvAfter(s, cfg, t, r, t.reqs[r]);
  }

  /** What an accepted write does, apart from the batches, which become bs. */
  ghost predicate Accepts(s: Conn, cfg: Config, r: Id, stream: int, bytes: seq<Byte>, bs: seq<Batch>, t: Conn)
    requires r in s.reqs
  {
    && t.reqs == s.reqs[r := s.reqs[r].(state := Writing, stream := stream, saved := None,
                                        accepts := s.reqs[r].accepts + 1, refs := s.reqs[r].refs + 1)]
    && t.pending == bs && t.pendingSize == s.pendingSize + |bytes|
    && t.readers == s.readers && t.streams == s.streams[stream := r]
    && t.sent == s.sent && t.accepted == s.accepted + bytes && t.gone == s.gone
    && t.link == (if t.pendingSize > cfg.high && !Closing(s) then Overwhelmed else s.link)
    && t.faulted == (s.faulted || Overruns(s, cfg, |bytes|))
  }

  /** The write takes the connection over its high water mark in a state that has no way to be overwhelmed. */
  predicate Overruns(s: Conn, cfg: Config, size: nat) {
    s.pendingSize + size > cfg.high && s.link != Ready && s.link != Overwhelmed
  }

  lemma WriteAcceptedShape(s: Conn, cfg: Config, r: Id, stream: int, bufs: seq<seq<Byte>>)
    requires CanWrite(s, cfg, r, stream, Encoded(bufs)) && s.reqs[r].state == New && stream >= 0
    ensures Accepts(s, cfg, r, stream, Flat(bufs), Enqueue(OpenBatch(Accept(s, r, stream)), r, bufs).pending,
                    Write(s, cfg, r, stream, Encoded(bufs), false))
  {
    var s1 := OpenBatch(Accept(s, r, stream));
    var s2 := Enqueue(s1, r, bufs);
    EnqueuedShape(s, r, stream, bufs);
    MarkedShape(s2, cfg, r, SetRequest(CheckHighMark(s2, cfg), r, Writing));
  }

  lemma EnqueuedShape(s: Conn, r: Id, stream: int, bufs: seq<seq<Byte>>)
    requires r in s.reqs
    ensures var t := Enqueue(OpenBatch(Accept(s, r, stream)), r, bufs);
            && t.reqs == Accept(s, r, stream).reqs && t.pendingSize == s.pendingSize + |Flat(bufs)|
            && t.readers == s.readers && t.streams == s.streams[stream := r] && t.link == s.link
            && t.sent == s.sent && t.accepted == s.accepted + Flat(bufs) && t.gone == s.gone && t.faulted == s.faulted
  {
  }

  lemma MarkedShape(s: Conn, cfg: Config, r: Id, t: Conn)
    requires r in s.reqs && s.reqs[r].state == New && t == SetRequest(CheckHighMark(s, cfg), r, Writing)
    ensures t == s.(reqs := s.reqs[r := s.reqs[r].(state := Writing)], link := t.link, faulted := t.faulted)
    ensures t.link == (if s.pendingSize > cfg.high && !Closing(s) then Overwhelmed else s.link)
    ensures t.faulted == (s.faulted || Overruns(s, cfg, 0))
  {
  }

  lemma AcceptsWire(s: Conn, cfg: Config, r: Id, stream: int, bytes: seq<Byte>, bs: seq<Batch>, t: Conn)
    requires cfg.Valid() && Wire(s) && Marks(s, cfg) && r in s.reqs
    requires Accepts(s, cfg, r, stream, bytes, bs, t)
    requires Outstanding(bs) == Outstanding(s.pending) + |bytes| && Backlog(bs) == Backlog(s.pending) + bytes
    ensures Wire(t) && Marks(t, cfg)
  {
    assert s.sent + (Backlog(s.pending) + bytes) == s.sent + Backlog(s.pending) + bytes;
  }

  lemma AcceptsStreams(s: Conn, cfg: Config, r: Id, stream: int, bytes: seq<Byte>, bs: seq<Batch>, t: Conn)
    requires Streams(s.reqs, s.streams, cfg.maxStreams) && r in s.reqs && s.reqs[r].state == New && Accounted(s.reqs[r])
    requires 0 <= stream < cfg.maxStreams && stream !in s.streams && Accepts(s, cfg, r, stream, bytes, bs, t)
    ensures Streams(t.reqs, t.streams, cfg.maxStreams) && Accounted(t.reqs[r])
  {
    StreamsAcquired(s.reqs, s.streams, cfg.maxStreams, r, t.reqs[r]);
  }

  lemma NewWriter(reqs: map<Id, Request>, readers: multiset<Id>, writers: multiset<Id>, writers': multiset<Id>, r: Id)
    requires Located(reqs, readers, writers) && r in reqs && reqs[r].state == New && writers' == writers + multiset{r}
    ensures Moves(writers, writers', r, true)
  {
    Added(writers, writers', r);
  }

  lemma AcceptsKeeps(s: Conn, cfg: Config, r: Id, stream: int, bytes: seq<Byte>, bs: seq<Batch>, t: Conn)
    requires Inv(s, cfg) && !s.gone && r in s.reqs && s.reqs[r].state == New
    requires 0 <= stream < cfg.maxStreams && stream !in s.streams
    requires Accepts(s, cfg, r, stream, bytes, bs, t)
    requires Batches(bs) && Writers(bs) == Writers(s.pending) + multiset{r}
    requires Outstanding(bs) == Outstanding(s.pending) + |bytes| && Backlog(bs) == Backlog(s.pending) + bytes
    ensures Inv(t, cfg)
  {
    var q := t.reqs[r];
    NewWriter(s.reqs, multiset(s.readers), Writers(s.pending), Writers(bs), r);
    AcceptsWire(s, cfg, r, stream, bytes, bs, t);
    AcceptsStreams(s, cfg, r, stream, bytes, bs, t);
    InvAfter(s, cfg, t, r, q);
  }

  /** The accepted write before its flush. */
  lemma WriteAcceptedKeeps(s: Conn, cfg: Config, r: Id, stream: int, bufs: seq<seq<Byte>>)
    requires Inv(s, cfg) && !s.gone && CanWrite(s, cfg, r, stream, Encoded(bufs))
    requires s.reqs[r].state == New && stream >= 0
    ensures Inv(Write(s, cfg, r, stream, Encoded(bufs), false), cfg)
    ensures Write(s, cfg, r, stream, Encoded(bufs), false).faulted == (s.faulted || Overruns(s, cfg, |Flat(bufs)|))
  {
    OpenBatchKeeps(Accept(s, r, stream));
    EnqueueCounts(OpenBatch(Accept(s, r, stream)), r, bufs);
    WriteAcceptedShape(s, cfg, r, stream, bufs);
    AcceptsKeeps(s, cfg, r, stream, Flat(bufs), Enqueue(OpenBatch(Accept(s, r, stream)), r, bufs).pending,
                 Write(s, cfg, r, stream, Encoded(bufs), false));
  }

  lemma WriteKeeps(s: Conn, cfg: Config, r: Id, stream: int, enc: Encoding, flush: bool)
    requires Inv(s, cfg) && !s.gone && CanWrite(s, cfg, r, stream, enc)
    ensures Inv(Write(s, cfg, r, stream, enc, flush), cfg)
    ensures Write(s, cfg, r, stream, enc, flush).faulted
            == (s.faulted
                || (s.reqs[r].state == New && stream >= 0 && enc.Encoded? && Overruns(s, cfg, |Flat(enc.buffers)|)))
  {
    if s.reqs[r].state == State.Cancelled || stream < 0 {
    } else if enc.EncodeFailed? {
      WriteFailedKeeps(s, cfg, r, stream, enc, flush);
    } else {
      WriteAcceptedKeeps(s, cfg, r, stream, enc.buffers);
      if flush {
        FlushLastKeeps(Write(s, cfg, r, stream, enc, false), cfg);
      }
    }
  }

  // ---------- write callback ----------

  lemma BeginCounts(bs: seq<Batch>, k: nat, ok: bool)
    requires Batches(bs) && k < |bs| && bs[k].flushed && bs[k].completing.None?
    ensures var bs' := bs[k := bs[k].(completing := Some(ok))];
            && Batches(bs')
            && Writers(bs') == Writers(bs)
            && Outstanding(bs') == Outstanding(bs) - bs[k].size
            && Backlog(bs') == Backlog(bs)
  {
    var c := bs[k].(completing := Some(ok));
    assert BatchOk(bs[k]);
    assert Writers(bs[k := c]) == Writers(bs) by { WritersUpdate(bs, k, c); }
    OutstandingUpdate(bs, k, c);
  }

  lemma WriteDoneBeginKeeps(s: Conn, cfg: Config, k: nat, ok: bool)
    requires Inv(s, cfg) && !s.gone && CanBegin(s, k)
    ensures Inv(WriteDoneBegin(s, cfg, k, ok), cfg)
    ensures WriteDoneBegin(s, cfg, k, ok).faulted == s.faulted
  {
    BeginCounts(s.pending, k, ok);
    BeginMarks(s, cfg, k, ok);
    InvSameRequests(s, cfg, WriteDoneBegin(s, cfg, k, ok));
  }

  lemma BeginMarks(s: Conn, cfg: Config, k: nat, ok: bool)
    requires cfg.Valid() && Batches(s.pending) && Wire(s) && Marks(s, cfg) && CanBegin(s, k)
    ensures var t := WriteDoneBegin(s, cfg, k, ok);
            && t == s.(pending := t.pending, pendingSize := t.pendingSize, link := t.link)
            && t.pending == s.pending[k := s.pending[k].(completing := Some(ok))]
            && Wire(t) && Marks(t, cfg)
  {
    BeginCounts(s.pending, k, ok);
  }

  /** Taking the head request off the loop of a completing batch. */
  lemma PopHead(bs: seq<Batch>, k: nat)
    requires Batches(bs) && k < |bs| && bs[k].completing.Some? && bs[k].todo != []
    ensures var b := bs[k];
            var bs' := bs[k := b.(todo := b.todo[1..])];
            && Batches(bs')
            && Writers(bs') + multiset{b.todo[0]} == Writers(bs)
            && Outstanding(bs') == Outstanding(bs)
            && Backlog(bs') == Backlog(bs)
  {
    PopHeadWriters(bs, k);
    PopHeadBytes(bs, k);
  }

  lemma PopHeadBytes(bs: seq<Batch>, k: nat)
    requires Batches(bs) && k < |bs| && bs[k].completing.Some? && bs[k].todo != []
    ensures var bs' := bs[k := bs[k].(todo := bs[k].todo[1..])];
            Batches(bs') && Outstanding(bs') == Outstanding(bs) && Backlog(bs') == Backlog(bs)
  {
    var b := bs[k];
    assert BatchOk(b);
    var c := b.(todo := b.todo[1..]);
    assert BatchOk(c);
    OutstandingUpdate(bs, k, c);
  }

  lemma PopHeadWriters(bs: seq<Batch>, k: nat)
    requires k < |bs| && bs[k].todo != []
    ensures Writers(bs[k := bs[k].(todo := bs[k].todo[1..])]) + multiset{bs[k].todo[0]} == Writers(bs)
  {
    var b := bs[k];
    WritersUpdate(bs, k, b.(todo := b.todo[1..]));
    assert b.todo == [b.todo[0]] + b.todo[1..];
    assert multiset(b.todo) == multiset(b.todo[1..]) + multiset{b.todo[0]};
  }

  /** The request after its round of the loop, and whether its write failed. */
  function WrittenRequest(q: Request, ok: bool): Request {
    match q.state
    case Writing =>
      if ok then q.(state := Reading)
      else q.(state := Finished, refs := q.refs - 1, outcomes := q.outcomes + [Error(WriteError)])
    case ReadBeforeWrite =>
      q.(state := Finished, refs := q.refs - 1, outcomes := q.outcomes + [Set(q.stream, SavedResponse(q))])
    case CancelledWriting => q.(state := CancelledReading)
    case CancelledReadBeforeWrite =>
      q.(state := State.Cancelled, refs := q.refs - 1, outcomes := q.outcomes + [Outcome.Cancel])
    case _ => q
  }

  /** What one round of the write callback's loop does to request r, the head of batch b. */
  ghost predicate Written(s: Conn, k: nat, b: Batch, r: Id, t: Conn)
    requires r in s.reqs && k < |s.pending| && b.completing.Some? && b.todo != []
  {
    var q := s.reqs[r];
    var q' := WrittenRequest(q, b.completing.value);
    var failed := q.state == Writing && !b.completing.value;
    && t.reqs == s.reqs[r := q']
    && t.pending == s.pending[k := b.(todo := b.todo[1..])]
    && t.readers == (if ReadOutstanding(q'.state) then s.readers + [r] else s.readers)
    && t.streams == (if failed then s.streams - {q.stream} else s.streams)
    && t.link == (if failed && !Closing(s) then ClosedDefunct else s.link)
    && t.faulted == (s.faulted || (failed && s.link == LinkNew))
    && t.pendingSize == s.pendingSize && t.sent == s.sent && t.accepted == s.accepted && t.gone == s.gone
  }

  lemma WriteDoneCallbackShape(s: Conn, k: nat)
    requires CanCallBack(s, k) && s.pending[k].todo[0] in s.reqs
    requires WriteOutstanding(s.reqs[s.pending[k].todo[0]].state)
    ensures Written(s, k, s.pending[k], s.pending[k].todo[0], WriteDoneCallback(s, k))
  {
    if s.reqs[s.pending[k].todo[0]].state == Writing {
      if s.pending[k].completing.value {
        WrittenFirst(s, k);
      } else {
        WrittenBadly(s, k);
      }
    } else {
      WrittenLater(s, k);
    }
  }

  lemma WrittenFirst(s: Conn, k: nat)
    requires CanCallBack(s, k) && s.pending[k].todo[0] in s.reqs && s.reqs[s.pending[k].todo[0]].state == Writing
    requires s.pending[k].completing.value
    ensures Written(s, k, s.pending[k], s.pending[k].todo[0], WriteDoneCallback(s, k))
  {
  }

  lemma WrittenBadly(s: Conn, k: nat)
    requires CanCallBack(s, k) && s.pending[k].todo[0] in s.reqs && s.reqs[s.pending[k].todo[0]].state == Writing
    requires !s.pending[k].completing.value
    ensures Written(s, k, s.pending[k], s.pending[k].todo[0], WriteDoneCallback(s, k))
  {
  }

  lemma WrittenLater(s: Conn, k: nat)
    requires CanCallBack(s, k) && s.pending[k].todo[0] in s.reqs && s.reqs[s.pending[k].todo[0]].state != Writing
    requires WriteOutstanding(s.reqs[s.pending[k].todo[0]].state)
    ensures Written(s, k, s.pending[k], s.pending[k].todo[0], WriteDoneCallback(s, k))
  {
  }

  lemma WrittenAccounted(q: Request, ok: bool)
    requires Accounted(q) && WriteOutstanding(q.state)
    ensures Accounted(WrittenRequest(q, ok))
  {
  }

  lemma WrittenStreams(s: Conn, cfg: Config, k: nat, b: Batch, r: Id, t: Conn)
    requires Streams(s.reqs, s.streams, cfg.maxStreams) && CanCallBack(s, k) && b == s.pending[k]
    requires r in s.reqs && WriteOutstanding(s.reqs[r].state)
    requires Written(s, k, b, r, t)
    ensures Streams(t.reqs, t.streams, cfg.maxStreams)
  {
    var q := WrittenRequest(s.reqs[r], b.completing.value);
    if s.reqs[r].state == Writing && !b.completing.value {
      StreamsReleased(s.reqs, s.streams, cfg.maxStreams, r, q);
    } else {
      StreamsKept(s.reqs, s.streams, cfg.maxStreams, r, q);
    }
  }

  lemma WrittenMoves(reqs: map<Id, Request>, readers: seq<Id>, bs: seq<Batch>, k: nat, r: Id, ok: bool)
    requires Located(reqs, multiset(readers), Writers(bs)) && r in reqs && WriteOutstanding(reqs[r].state)
    requires k < |bs| && bs[k].todo != [] && bs[k].todo[0] == r
    ensures var q := WrittenRequest(reqs[r], ok);
            var readers' := if ReadOutstanding(q.state) then readers + [r] else readers;
            && Moves(multiset(readers), multiset(readers'), r, ReadOutstanding(q.state))
            && Moves(Writers(bs), Writers(bs[k := bs[k].(todo := bs[k].todo[1..])]), r, false)
            && !WriteOutstanding(q.state)
  {
    Whereabouts(reqs, multiset(readers), Writers(bs), r);
    WrittenLeaves(bs, k, r);
    WrittenIsOut(reqs[r], ok);
    WrittenReads(readers, r, WrittenRequest(reqs[r], ok));
  }

  lemma WrittenIsOut(q: Request, ok: bool)
    requires WriteOutstanding(q.state)
    ensures !WriteOutstanding(WrittenRequest(q, ok).state)
  {
  }

  lemma Whereabouts(reqs: map<Id, Request>, readers: multiset<Id>, writers: multiset<Id>, r: Id)
    requires Located(reqs, readers, writers) && r in reqs && WriteOutstanding(reqs[r].state)
    ensures readers[r] == 0 && writers[r] == 1
  {
  }

  lemma WrittenReads(readers: seq<Id>, r: Id, q: Request)
    requires multiset(readers)[r] == 0
    ensures var readers' := if ReadOutstanding(q.state) then readers + [r] else readers;
            Moves(multiset(readers), multiset(readers'), r, ReadOutstanding(q.state))
  {
    WrittenWaits(readers, r);
  }

  lemma WrittenLeaves(bs: seq<Batch>, k: nat, r: Id)
    requires k < |bs| && bs[k].todo != [] && bs[k].todo[0] == r && Writers(bs)[r] == 1
    ensures Moves(Writers(bs), Writers(bs[k := bs[k].(todo := bs[k].todo[1..])]), r, false)
  {
    PopHeadWriters(bs, k);
    Removed(Writers(bs), Writers(bs[k := bs[k].(todo := bs[k].todo[1..])]), r);
  }

  lemma WrittenWaits(readers: seq<Id>, r: Id)
    requires multiset(readers)[r] == 0
    ensures Moves(multiset(readers), multiset(readers + [r]), r, true)
  {
    assert multiset(readers + [r]) == multiset(readers) + multiset{r};
    Added(multiset(readers), multiset(readers + [r]), r);
  }

  lemma WrittenKeeps(s: Conn, cfg: Config, k: nat, b: Batch, r: Id, t: Conn)
    requires Inv(s, cfg) && !s.gone && CanCallBack(s, k) && b == s.pending[k]
    requires b.todo[0] == r && r in s.reqs && WriteOutstanding(s.reqs[r].state)
    requires Written(s, k, b, r, t)
    ensures Inv(t, cfg)
  {
    PopHead(s.pending, k);
    WrittenMoves(s.reqs, s.readers, s.pending, k, r, b.completing.value);
    WrittenStreams(s, cfg, k, b, r, t);
    WrittenAccounted(s.reqs[r], b.completing.value);
    InvAfter(s, cfg, t, r, t.reqs[r]);
  }

  lemma WriteDoneCallbackKeeps(s: Conn, cfg: Config, k: nat)
    requires Inv(s, cfg) && !s.gone && CanCallBack(s, k)
    ensures Inv(WriteDoneCallback(s, k), cfg)
    ensures WriteDoneCallback(s, k).faulted == s.faulted
  {
    var r := s.pending[k].todo[0];
    HeadIsWaiting(s.pending, k);
    assert WriteOutstanding(s.reqs[r].state);
    WriteDoneCallbackShape(s, k);
    WrittenKeeps(s, cfg, k, s.pending[k], r, WriteDoneCallback(s, k));
  }

  lemma RemoveWriters(bs: seq<Batch>, k: nat)
    requires k < |bs| && bs[k].todo == []
    ensures Writers(bs[..k] + bs[k + 1..]) == Writers(bs)
  {
    WritersSplit(bs, k);
    WritersConcat(bs[..k], bs[k + 1..]);
    assert OtherWriters(bs, k) + multiset{} == OtherWriters(bs, k);
  }

  lemma RemoveOutstanding(bs: seq<Batch>, k: nat)
    requires k < |bs| && bs[k].completing.Some?
    ensures Outstanding(bs[..k] + bs[k + 1..]) == Outstanding(bs)
  {
    OutstandingSplit(bs, k);
    OutstandingConcat(bs[..k], bs[k + 1..]);
  }

  lemma RemoveFlushed(bs: seq<Batch>, k: nat)
    requires Batches(bs) && k < |bs| && bs[k].flushed
    ensures Batches(bs[..k] + bs[k + 1..])
    ensures Backlog(bs[..k] + bs[k + 1..]) == Backlog(bs)
  {
    var bs' := bs[..k] + bs[k + 1..];
    assert forall i :: 0 <= i < |bs'| ==> bs'[i] == bs[if i < k then i else i + 1];
  }

  lemma WriteDoneEndKeeps(s: Conn, cfg: Config, k: nat)
    requires Inv(s, cfg) && !s.gone && CanEnd(s, k)
    ensures Inv(WriteDoneEnd(s, cfg, k), cfg)
    ensures WriteDoneEnd(s, cfg, k).faulted == s.faulted
  {
    assert BatchOk(s.pending[k]);
    RemoveWriters(s.pending, k);
    RemoveOutstanding(s.pending, k);
    RemoveFlushed(s.pending, k);
    FlushLastKeeps(Recycle(s, cfg, k), cfg);
  }

  // ---------- responses ----------

  lemma {:induction false} WithoutRemovesOne(ids: seq<Id>, r: Id)
    requires r in ids
    ensures multiset(Without(ids, r)) + multiset{r} == multiset(ids)
  {
    assert ids == [ids[0]] + ids[1..];
    assert multiset(ids) == multiset{ids[0]} + multiset(ids[1..]);
    if ids[0] != r {
      WithoutRemovesOne(ids[1..], r);
    }
  }

  /** The request after its response arrived. */
  function AnsweredRequest(q: Request, f: Frame): Request {
    match q.state
    case Reading => q.(state := Finished, refs := q.refs - 1, outcomes := q.outcomes + [Set(q.stream, f)])
    case Writing => q.(state := ReadBeforeWrite, saved := Some(f))
    case CancelledReading =>
      q.(state := State.Cancelled, refs := q.refs - 1, outcomes := q.outcomes + [Outcome.Cancel])
    case CancelledWriting => q.(state := CancelledReadBeforeWrite)
    case _ => q
  }

  predicate Delivers(s: Conn, f: Frame) {
    !Closing(s) && f.stream >= 0 && f.stream in s.streams
  }

  lemma ReceiveShape(s: Conn, f: Frame)
    requires Delivers(s, f) && s.streams[f.stream] in s.reqs
    requires AwaitsResponse(s.reqs[s.streams[f.stream]].state)
    ensures var r := s.streams[f.stream];
            var q := s.reqs[r];
            var t := Receive(s, f);
            t == s.(reqs := s.reqs[r := AnsweredRequest(q, f)],
                    streams := s.streams - {f.stream},
                    readers := if ReadOutstanding(q.state) then Without(s.readers, r) else s.readers)
  {
  }

  lemma ReceiveKeeps(s: Conn, cfg: Config, f: Frame)
    requires Inv(s, cfg) && !s.gone && Started(s)
    ensures Inv(Receive(s, f), cfg)
    ensures Receive(s, f).faulted == s.faulted
  {
    if Delivers(s, f) {
      DeliveryKeeps(s, cfg, f);
    }
  }

  lemma DeliveryKeeps(s: Conn, cfg: Config, f: Frame)
    requires Inv(s, cfg) && !s.gone && Delivers(s, f)
    ensures Inv(Receive(s, f), cfg)
    ensures Receive(s, f).faulted == s.faulted && Receive(s, f).link == s.link
  {
    ReceiveShape(s, f);
    AnsweredKeeps(s, cfg, f, s.streams[f.stream], Receive(s, f));
  }

  lemma AnsweredStreams(reqs: map<Id, Request>, streams: map<int, Id>, max: nat, r: Id, f: Frame)
    requires Streams(reqs, streams, max) && f.stream in streams && streams[f.stream] == r
    ensures r in reqs && Streams(reqs[r := AnsweredRequest(reqs[r], f)], streams - {f.stream}, max)
  {
    StreamsReleased(reqs, streams, max, r, AnsweredRequest(reqs[r], f));
  }

  lemma AnsweredKeeps(s: Conn, cfg: Config, f: Frame, r: Id, t: Conn)
    requires Inv(s, cfg) && !s.gone && f.stream in s.streams && s.streams[f.stream] == r
    requires t == s.(reqs := s.reqs[r := AnsweredRequest(s.reqs[r], f)],
                     streams := s.streams - {f.stream},
                     readers := if ReadOutstanding(s.reqs[r].state) then Without(s.readers, r) else s.readers)
    ensures Inv(t, cfg)
  {
    var q := AnsweredRequest(s.reqs[r], f);
    AnsweredStreams(s.reqs, s.streams, cfg.maxStreams, r, f);
    AnsweredMoves(s.reqs, s.readers, Writers(s.pending), r, f);
    AnsweredAccounted(s.reqs[r], f);
    InvAfter(s, cfg, t, r, q);
  }

  lemma AnsweredMoves(reqs: map<Id, Request>, readers: seq<Id>, writers: multiset<Id>, r: Id, f: Frame)
    requires Located(reqs, multiset(readers), writers) && r in reqs && AwaitsResponse(reqs[r].state)
    ensures var q := AnsweredRequest(reqs[r], f);
            var readers' := if ReadOutstanding(reqs[r].state) then Without(readers, r) else readers;
            && Moves(multiset(readers), multiset(readers'), r, ReadOutstanding(q.state))
            && Moves(writers, writers, r, WriteOutstanding(q.state))
  {
    if ReadOutstanding(reqs[r].state) {
      assert r in multiset(readers);
      WithoutRemovesOne(readers, r);
      Removed(multiset(readers), multiset(Without(readers, r)), r);
    }
  }

  lemma AnsweredAccounted(q: Request, f: Frame)
    requires Accounted(q) && AwaitsResponse(q.state) && q.stream == f.stream
    ensures Accounted(AnsweredRequest(q, f))
  {
  }

  // ---------- cancel, renew, link changes ----------

  lemma SetRequestKeeps(s: Conn, cfg: Config, r: Id, next: State)
    requires Inv(s, cfg) && !s.gone && r in s.reqs
    requires if next == State.Cancelled then !CancelledInFlight(s.reqs[r].state)
             else next == New && s.reqs[r].state == Finished
    ensures Inv(SetRequest(s, r, next), cfg)
    ensures SetRequest(s, r, next).faulted == s.faulted
  {
    RestatedKeeps(s, cfg, r, Transition(s.reqs[r].state, next));
  }

  /** A request may change its state within its place and its claim to a stream. */
  lemma RestatedKeeps(s: Conn, cfg: Config, r: Id, state: State)
    requires Inv(s, cfg) && !s.gone && r in s.reqs
    requires ReadOutstanding(state) == ReadOutstanding(s.reqs[r].state)
    requires WriteOutstanding(state) == WriteOutstanding(s.reqs[r].state)
    requires AwaitsResponse(state) == AwaitsResponse(s.reqs[r].state)
    requires state != ReadBeforeWrite
    ensures Inv(s.(reqs := s.reqs[r := s.reqs[r].(state := state)]), cfg)
  {
    var q := s.reqs[r].(state := state);
    assert Accounted(s.reqs[r]) && Accounted(q);
    StreamsKept(s.reqs, s.streams, cfg.maxStreams, r, q);
    InvAfter(s, cfg, s.(reqs := s.reqs[r := q]), r, q);
  }

  lemma SetLinkKeeps(s: Conn, cfg: Config, next: LinkState)
    requires Inv(s, cfg) && !s.gone
    requires SetUpEdge(s.link, next) || next == Closed || next == ClosedDefunct
    ensures Inv(SetLink(s, next), cfg)
  {
  }

  // ---------- close ----------

  lemma CleanupEnds(s: Conn, r: Id)
    requires r in s.reqs && Accounts(s.reqs) && InFlight(s.reqs[r].state)
    ensures var t := Cleanup(s, r);
            && t == s.(reqs := s.reqs[r := t.reqs[r]])
            && Accounts(t.reqs)
            && !InFlight(t.reqs[r].state)
  {
    var t := Cleanup(s, r);
    assert Accounted(s.reqs[r]);
    AccountsAfter(s.reqs, r, t.reqs[r]);
  }

  predicate Distinct(ids: seq<Id>) {
    forall i, j :: 0 <= i < j < |ids| ==> ids[i] != ids[j]
  }

  lemma {:induction false} CleanupAllEnds(s: Conn, ids: seq<Id>)
    requires Accounts(s.reqs) && Distinct(ids)
    requires forall r <- ids :: r in s.reqs && InFlight(s.reqs[r].state)
    ensures var t := CleanupAll(s, ids);
            && t == s.(reqs := t.reqs)
            && t.reqs.Keys == s.reqs.Keys
            && Accounts(t.reqs)
            && forall x <- s.reqs :: if x in ids then !InFlight(t.reqs[x].state) else t.reqs[x] == s.reqs[x]
    decreases |ids|
  {
    if ids != [] {
      var s1 := Cleanup(s, ids[0]);
      CleanupEnds(s, ids[0]);
      assert forall r <- ids[1..] :: r != ids[0];
      CleanupAllEnds(s1, ids[1..]);
      assert forall x :: x in ids <==> x == ids[0] || x in ids[1..];
    }
  }

  lemma MultiplicityDistinct(ids: seq<Id>)
    requires forall x :: multiset(ids)[x] <= 1
    ensures Distinct(ids)
  {
    forall i, j | 0 <= i < j < |ids|
      ensures ids[i] != ids[j]
    {
      assert ids == ids[..i] + [ids[i]] + ids[i + 1..j] + [ids[j]] + ids[j + 1..];
      assert multiset{ids[i], ids[j]} <= multiset(ids);
    }
  }

  lemma HeldOnce(reqs: map<Id, Request>, readers: multiset<Id>, writers: multiset<Id>, x: Id)
    requires Located(reqs, readers, writers)
    ensures (readers + writers)[x] == if x in reqs then Once(InFlight(reqs[x].state)) else 0
  {
    assert x in readers ==> x in reqs;
    assert x in writers ==> x in reqs;
  }

  /** The requests swept up by close are exactly those in flight, each once. */
  lemma SweptOnce(s: Conn)
    requires Located(s.reqs, multiset(s.readers), Writers(s.pending))
    ensures var ids := s.readers + Unwritten(s.pending);
            && Distinct(ids)
            && forall r :: r in ids <==> r in s.reqs && InFlight(s.reqs[r].state)
  {
    WritersUnwritten(s.pending);
    HoldersOnce(s.reqs, s.readers, Unwritten(s.pending));
  }

  lemma HoldersOnce(reqs: map<Id, Request>, a: seq<Id>, b: seq<Id>)
    requires Located(reqs, multiset(a), multiset(b))
    ensures Distinct(a + b)
    ensures forall r :: r in a + b <==> r in reqs && InFlight(reqs[r].state)
  {
    assert multiset(a + b) == multiset(a) + multiset(b);
    forall x
      ensures multiset(a + b)[x] == if x in reqs then Once(InFlight(reqs[x].state)) else 0
    {
      HeldOnce(reqs, multiset(a), multiset(b), x);
    }
    MultiplicityDistinct(a + b);
    assert forall r :: r in a + b <==> r in multiset(a + b);
  }

  lemma NothingLocated(reqs: map<Id, Request>)
    requires forall r <- reqs :: !InFlight(reqs[r].state)
    ensures Located(reqs, multiset{}, multiset{})
  {
  }

  lemma OnCloseKeeps(s: Conn, cfg: Config)
    requires Inv(s, cfg) && !s.gone && CanFinishClose(s)
    ensures Inv(OnClose(s), cfg)
    ensures OnClose(s).faulted == s.faulted
    ensures forall r <- OnClose(s).reqs :: !InFlight(OnClose(s).reqs[r].state)
  {
    SweptOnce(s);
    var ids := s.readers + Unwritten(s.pending);
    CleanupAllEnds(s, ids);
    NothingLocated(CleanupAll(s, ids).reqs);
  }
}
