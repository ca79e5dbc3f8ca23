/** PendingWriteSsl::encrypt: buffers repacked into fixed-size chunks (cpp-driver/src/connection.cpp:1086-1137). */
module SslWriter {
  import opened Requests

  const SSL_WRITE_SIZE := 8192

  /** Bytes consumed so far: the whole buffers before i and the first `offset` bytes of buffer i. */
  function Consumed(bufs: seq<seq<Byte>>, i: nat, offset: nat): seq<Byte>
    requires i <= |bufs| && (i < |bufs| ==> offset <= |bufs[i]|)
  {
    Flat(bufs[..i]) + if i < |bufs| then bufs[i][..offset] else []
  }

  lemma ConsumedWhole(bufs: seq<seq<Byte>>, i: nat)
    requires i < |bufs|
    ensures Consumed(bufs, i, |bufs[i]|) == Consumed(bufs, i + 1, 0)
  {
    assert bufs[..i + 1] == bufs[..i] + [bufs[i]];
    FlatConcat(bufs[..i], [bufs[i]]);
    assert Flat([bufs[i]]) == bufs[i];
  }

  lemma ConsumedPart(bufs: seq<seq<Byte>>, i: nat, offset: nat, n: nat)
    requires i < |bufs| && offset + n <= |bufs[i]|
    ensures Consumed(bufs, i, offset + n) == Consumed(bufs, i, offset) + bufs[i][offset..offset + n]
  {
    assert bufs[i][..offset + n] == bufs[i][..offset] + bufs[i][offset..offset + n];
  }

  lemma ConsumedIsPrefix(bufs: seq<seq<Byte>>, i: nat, offset: nat)
    requires i <= |bufs| && (i < |bufs| ==> offset <= |bufs[i]|)
    ensures Consumed(bufs, i, offset) <= Flat(bufs)
  {
    assert bufs == bufs[..i] + bufs[i..];
    FlatConcat(bufs[..i], bufs[i..]);
  }

  /** Chunks of 8192 bytes, except perhaps the last, which is not empty. */
  predicate Packed(chunks: seq<seq<Byte>>) {
    && (forall i :: 0 <= i < |chunks| ==> 0 < |chunks[i]| <= 8192)
    && (forall i :: 0 <= i < |chunks| - 1 ==> |chunks[i]| == 8192)
  }

  lemma AddChunk(chunks: seq<seq<Byte>>, c: seq<Byte>)
    requires Packed(chunks) && 0 < |c| <= SSL_WRITE_SIZE
    requires forall i :: 0 <= i < |chunks| ==> |chunks[i]| == SSL_WRITE_SIZE
    ensures Packed(chunks + [c])
    ensures Flat(chunks + [c]) == Flat(chunks) + c
  {
    FlatConcat(chunks, [c]);
    assert Flat([c]) == c;
  }

  /** memcpy of n bytes of src from offset on. */
  method CopyInto(buf: array<Byte>, at: nat, src: seq<Byte>, offset: nat, n: nat)
    requires at + n <= buf.Length && offset + n <= |src|
    modifies buf
    ensures buf[..at + n] == old(buf[..at]) + src[offset..offset + n]
    ensures buf[at + n..] == old(buf[at + n..])
  {
    forall i | 0 <= i < n {
      buf[at + i] := src[offset + i];
    }
  }

  /**
   * `accepts` says which calls of the session's encrypt succeed; the first that does not ends the
   * loop. The chunks are what was passed to it.
   */
  method Encrypt(bufs: seq<seq<Byte>>, accepts: nat -> bool) returns (chunks: seq<seq<Byte>>, ok: bool)
    requires forall i :: 0 <= i < |bufs| ==> |bufs[i]| > 0
    ensures Packed(chunks)
    ensures Flat(chunks) <= Flat(bufs)
    ensures ok ==> Flat(chunks) == Flat(bufs)
    ensures ok <==> forall i :: 0 <= i < |chunks| ==> accepts(i)
    ensures forall i :: 0 <= i < |chunks| - 1 ==> accepts(i)
  {
    var buf := new Byte[SSL_WRITE_SIZE](_ => 0);
    var copied, offset, it := 0, 0, 0;
    chunks := [];
    var isDone := |bufs| == 0;
    while !isDone
      invariant 0 <= it <= |bufs| && 0 <= copied < SSL_WRITE_SIZE && 0 <= offset
      invariant it < |bufs| ==> offset < |bufs[it]|
      invariant it == |bufs| ==> offset == 0 && copied == 0
      invariant isDone <==> it == |bufs|
      invariant Packed(chunks)
      invariant !isDone ==> forall i :: 0 <= i < |chunks| ==> |chunks[i]| == SSL_WRITE_SIZE
      invariant forall i :: 0 <= i < |chunks| ==> accepts(i)
      invariant Flat(chunks) + buf[..copied] == Consumed(bufs, it, offset)
      decreases |bufs| - it, if it < |bufs| then |bufs[it]| - offset else 0
    {
      var size := |bufs[it]|;
      var toCopy := size - offset;
      var available := SSL_WRITE_SIZE - copied;
      if available < toCopy {
        toCopy := available;
      }
      ghost var before, part := buf[..copied], bufs[it][offset..offset + toCopy];
      CopyInto(buf, copied, bufs[it], offset, toCopy);
      ConsumedPart(bufs, it, offset, toCopy);
      assert Flat(chunks) + (before + part) == Flat(chunks) + before + part;
      copied := copied + toCopy;
      offset := offset + toCopy;
      assert Flat(chunks) + buf[..copied] == Consumed(bufs, it, offset);
      if offset == size {
        ConsumedWhole(bufs, it);
        it := it + 1;
        offset := 0;
      }
      isDone := it == |bufs|;
      if isDone || copied == SSL_WRITE_SIZE {
        ghost var sent := chunks;
        AddChunk(sent, buf[..copied]);
        ConsumedIsPrefix(bufs, it, offset);
        chunks := chunks + [buf[..copied]];
        assert Flat(chunks) == Consumed(bufs, it, offset);
        if !accepts(|chunks| - 1) {
          return chunks, false;
        }
        copied := 0;
        assert Flat(chunks) + buf[..copied] == Flat(chunks);
      }
    }
    assert bufs[..|bufs|] == bufs;
    assert Flat(chunks) + buf[..copied] == Flat(chunks);
    ok := true;
  }
}
