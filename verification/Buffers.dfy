/**
 * Small buffers (`buffer.hpp:27-69, 178-219`): up to 16 bytes are kept in the buffer
 * itself, more are kept in a shared block whose reference count follows the copies.
 */
module Buffers {
  import opened Requests
  import opened RefCounting

  const FIXED_BUFFER_SIZE := 16

  type RefBuffer = RefCounted<seq<Byte>>

  /** The union of the original: what was stored last is all there is. */
  datatype Storage = Fixed(bytes: seq<Byte>) | Shared(block: RefBuffer)

  function Zeros(n: nat): (r: seq<Byte>)
    ensures |r| == n
  {
    seq(n, _ => 0)
  }

  /** The buffers in use and all the blocks that were ever created for them. */
  class Pool {
    ghost var live: set<Buffer>
    ghost var blocks: set<RefBuffer>

    ghost constructor ()
      ensures live == {} && blocks == {} && Valid()
    {
      live, blocks := {}, {};
    }

    ghost function Users(b: RefBuffer): set<Buffer>
      reads this, live
    {
      set h | h in live && h.Uses(b)
    }

    /**
     * Every live buffer is sound, and every block has as many references as there are
     * live buffers larger than 16 bytes on it; it was freed once if there are none.
     */
    ghost predicate Valid()
      reads this, live, blocks
    {
      && (forall h :: h in live ==> h.Sound() && (h.Large() ==> h.storage.block in blocks))
      && (forall h :: h in live && h.Large() ==> |h.storage.block.value| == h.size)
      && (forall b :: b in blocks ==> b.HeldBy(|Users(b)|))
    }

    /** When one buffer alone was changed, the other users of a block are the same. */
    twostate lemma OthersStay(new h: Buffer, b: RefBuffer)
      requires live <= old(live) + {h} && old(live) <= live + {h}
      requires forall g :: g in old(live) && g != h ==> g.size == old(g.size) && g.storage == old(g.storage)
      ensures |Users(b)| == old(|Users(b)|) - (if h in old(Users(b)) then 1 else 0) + (if h in Users(b) then 1 else 0)
    {
      assert Users(b) - {h} == old(Users(b)) - {h};
      HoldersMoved(old(Users(b)), Users(b), h);
    }

    /** The references that a live buffer has on a block. */
    ghost function On(h: Buffer, b: RefBuffer): nat
      reads this, h
    {
      if h in live && h.Uses(b) then 1 else 0
    }

    /** When one buffer alone was changed, it is enough that the counts followed it. */
    twostate lemma CountsFollow(h: Buffer)
      requires old(Valid()) && blocks == old(blocks) && live <= old(live) + {h} && old(live) <= live + {h}
      requires forall g :: g in old(live) && g != h ==> g.size == old(g.size) && g.storage == old(g.storage)
      requires h in live ==> h.Sound()
      requires h in live && h.Large() ==> h.storage.block in blocks && |h.storage.block.value| == h.size
      requires forall b :: b in blocks ==> b.value == old(b.value)
      requires forall b :: b in blocks ==> b.refCount == old(b.refCount) - old(On(h, b)) + On(h, b)
      requires forall b :: b in blocks ==> b.deallocated == if b.refCount == 0 then 1 else 0
      ensures Valid()
    {
      forall b | b in blocks
        ensures b.HeldBy(|Users(b)|)
      {
        OthersStay(h, b);
      }
    }

    /** A new buffer with a block of its own, or with none, changes no other count. */
    twostate lemma Grown(new h: Buffer)
      requires old(Valid()) && h !in old(live) && live == old(live) + {h}
      requires forall g :: g in old(live) ==> g.size == old(g.size) && g.storage == old(g.storage)
      requires forall b :: b in old(blocks) ==>
        b.value == old(b.value) && b.refCount == old(b.refCount) && b.deallocated == old(b.deallocated)
      requires h.Sound() && blocks == old(blocks) + if h.Large() then {h.storage.block} else {}
      requires h.Large() ==> h.storage.block !in old(blocks) && |h.storage.block.value| == h.size
      requires h.Large() ==> h.storage.block.refCount == 1 && h.storage.block.deallocated == 0
      ensures Valid()
    {
      forall b | b in old(blocks)
        ensures Users(b) == old(Users(b))
      {
      }
      if h.Large() {
        assert Users(h.storage.block) == {h};
      }
    }

    /** A block that a live buffer is on has a reference and was not freed. */
    lemma InUse(h: Buffer)
      requires Valid() && h in live && h.Large()
      ensures h.storage.block.refCount >= 1 && h.storage.block.deallocated == 0
    {
      assert h in Users(h.storage.block);
    }
  }

  class Buffer {
    var size: nat
    var storage: Storage

    predicate Large()
      reads this
    {
      size > FIXED_BUFFER_SIZE
    }

    /** What is stored is what the size says. */
    ghost predicate Sound()
      reads this
    {
      && (Large() ==> storage.Shared?)
      && (0 < size <= FIXED_BUFFER_SIZE ==> storage.Fixed?)
      && (storage.Fixed? ==> |storage.bytes| == FIXED_BUFFER_SIZE)
    }

    ghost predicate Uses(b: RefBuffer)
      reads this
    {
      Large() && storage == Shared(b)
    }

    /** The bytes of the buffer, wherever they are. */
    ghost function Contents(): seq<Byte>
      requires Sound()
      reads this, if storage.Shared? then {storage.block} else {}
    {
      if size == 0 then []
      else if Large() then storage.block.value
      else storage.bytes[..size]
    }

    /** Not yet initialised: no bytes, and not one of the live buffers. */
    constructor ()
      ensures size == 0 && Sound()
    {
      size := 0;
      storage := Fixed(Zeros(FIXED_BUFFER_SIZE));
    }

    /** The references that this buffer has on a block. */
    ghost function On(b: RefBuffer): nat
      reads this
    {
      if Uses(b) then 1 else 0
    }

    /** The common part of copying and assigning: first the new reference, then the old one. */
    method Take(buf: Buffer, ghost blocks: set<RefBuffer>)
      requires Sound() && buf.Sound()
      requires Large() ==> storage.block in blocks && storage.block.refCount >= 1
      requires buf.Large() ==> buf.storage.block in blocks
      modifies this, blocks
      ensures Sound() && size == old(buf.size) && Contents() == old(buf.Contents())
      ensures Large() ==> storage == old(buf.storage)
      ensures forall b :: b in blocks ==> b.value == old(b.value)
      ensures forall b :: b in blocks ==> b.refCount == old(b.refCount) + old(buf.On(b)) - old(On(b))
      ensures forall b :: b in blocks ==>
        b.deallocated == old(b.deallocated) + if old(Uses(b)) && b.refCount == 0 then 1 else 0
    {
      var temp := storage;
      if buf.size > FIXED_BUFFER_SIZE {
        buf.storage.block.IncRef();
        storage := buf.storage;
      } else if buf.size > 0 {
        var behind := if storage.Fixed? then storage.bytes[buf.size..] else Zeros(FIXED_BUFFER_SIZE - buf.size);
        storage := Fixed(buf.storage.bytes[..buf.size] + behind);
      }
      if size > FIXED_BUFFER_SIZE {
        temp.block.DecRef();
      }
      size := buf.size;
    }

    /** Taking the bytes of a live buffer keeps the counts, whether this one was live before or not. */
    method Copy(buf: Buffer, ghost pool: Pool)
      requires pool.Valid() && buf in pool.live && (this in pool.live || (size == 0 && Sound()))
      modifies this, pool`live, pool.blocks
      ensures pool.Valid() && pool.live == old(pool.live) + {this} && pool.blocks == old(pool.blocks)
      ensures size == old(buf.size) && Contents() == old(buf.Contents())
      ensures forall b :: b in pool.blocks ==> b.value == old(b.value)
    {
      if buf.Large() {
        pool.InUse(buf);
      }
      if Large() {
        pool.InUse(this);
      }
      Take(buf, pool.blocks);
      pool.live := pool.live + {this};
      pool.CountsFollow(this);
    }

    /** `Buffer(data, size)`, and `Buffer(size)` with bytes that are still to be written. */
    constructor FromBytes(data: seq<Byte>, ghost pool: Pool)
      requires pool.Valid()
      modifies pool
      ensures pool.Valid() && pool.live == old(pool.live) + {this} && this !in old(pool.live)
      ensures Contents() == data && size == |data| && (storage.Fixed? <==> |data| <= 16)
      ensures pool.blocks >= old(pool.blocks) && fresh(pool.blocks - old(pool.blocks))
    {
      size := |data|;
      if |data| > FIXED_BUFFER_SIZE {
        var block := new RefCounted(data);
        block.IncRef();
        storage := Shared(block);
      } else {
        storage := Fixed(data + Zeros(FIXED_BUFFER_SIZE - |data|));
      }
      new;
      pool.live := pool.live + {this};
      if Large() {
        pool.blocks := pool.blocks + {storage.block};
      }
      pool.Grown(this);
    }

    /** The copy constructor. */
    constructor CopyOf(buf: Buffer, ghost pool: Pool)
      requires pool.Valid() && buf in pool.live
      modifies pool`live, pool.blocks
      ensures pool.Valid() && pool.live == old(pool.live) + {this} && pool.blocks == old(pool.blocks)
      ensures size == buf.size && Contents() == buf.Contents() == old(buf.Contents())
      ensures forall b :: b in pool.blocks ==> b.value == old(b.value)
    {
      size := 0;
      storage := Fixed(Zeros(FIXED_BUFFER_SIZE));
      new;
      Copy(buf, pool);
    }

    /** Assignment, also of a buffer to itself. */
    method Assign(buf: Buffer, ghost pool: Pool)
      requires pool.Valid() && buf in pool.live && this in pool.live
      modifies this, pool`live, pool.blocks
      ensures pool.Valid() && pool.live == old(pool.live) && pool.blocks == old(pool.blocks)
      ensures size == old(buf.size) && Contents() == old(buf.Contents())
      ensures forall h :: h in pool.live && h != this ==> h.Contents() == old(h.Contents())
    {
      Copy(buf, pool);
    }

    /** The destructor. */
    method Destroy(ghost pool: Pool)
      requires pool.Valid() && this in pool.live
      modifies pool`live, pool.blocks
      ensures pool.Valid() && pool.live == old(pool.live) - {this} && pool.blocks == old(pool.blocks)
      ensures forall h :: h in pool.live ==> h.Contents() == old(h.Contents())
    {
      if size > FIXED_BUFFER_SIZE {
        pool.InUse(this);
        storage.block.DecRef();
      }
      pool.live := pool.live - {this};
      pool.CountsFollow(this);
    }

    /** Writing within the bounds that the original asserts; the copies of a large buffer see it. */
    method Write(offset: nat, data: seq<Byte>, ghost pool: Pool) returns (next: nat)
      requires pool.Valid() && this in pool.live && offset + |data| <= size
      modifies this, pool.blocks
      ensures pool.Valid() && next == offset + |data|
      ensures size == old(size) && Contents() == Overwritten(old(Contents()), offset, data)
      ensures forall h :: h in pool.live && h != this ==>
        h.Contents() == if Large() && h.Large() && h.storage == storage then Contents() else old(h.Contents())
    {
      if size > FIXED_BUFFER_SIZE {
        storage.block.value := Overwritten(storage.block.value, offset, data);
      } else if size > 0 {
        ghost var before := storage.bytes[..size];
        storage := Fixed(Overwritten(storage.bytes, offset, data));
        assert storage.bytes[..size] == Overwritten(before, offset, data);
      } else {
        assert Overwritten([], 0, []) == [];
      }
      next := offset + |data|;
      forall b | b in pool.blocks
        ensures pool.Users(b) == old(pool.Users(b))
      {
      }
    }
  }
}
