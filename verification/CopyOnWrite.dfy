/**
 * Copy-on-write pointers (`copy_on_write_ptr.hpp:25-86`): copies share a block, and
 * whoever is about to change a shared block takes a copy of it first. To every
 * holder it looks as if it had a value of its own.
 */
module CopyOnWrite {
  import opened RefCounting

  /**
   * The pointers in use with the value that each of them sees, and all the blocks that
   * were ever created for them. The methods of the pointers treat `views` as if every
   * pointer had a value of its own; `Valid` says that this is what the blocks amount to.
   */
  class Sharing<T> {
    ghost var views: map<CopyOnWritePtr<T>, T>
    ghost var blocks: set<RefCounted<T>>

    ghost constructor ()
      ensures views == map[] && blocks == {} && Valid()
    {
      views, blocks := map[], {};
    }

    ghost function Users(b: RefCounted<T>): set<CopyOnWritePtr<T>>
      reads this, views.Keys
    {
      set h | h in views && h.ptr == b
    }

    /** Every block has as many references as pointers; it was freed once if there are none. */
    ghost predicate Valid()
      reads this, views.Keys, blocks
    {
      && (forall h :: h in views ==> h.ptr in blocks && h.ptr.value == views[h])
      && (forall b :: b in blocks ==> b.HeldBy(|Users(b)|))
    }

    lemma InUse(h: CopyOnWritePtr<T>)
      requires Valid() && h in views
      ensures h.ptr.refCount >= 1 && h.ptr.deallocated == 0
    {
      assert h in Users(h.ptr);
    }

    /** A block with one reference is seen by one pointer only. */
    lemma Alone(h: CopyOnWritePtr<T>)
      requires Valid() && h in views && h.ptr.refCount == 1
      ensures forall g :: g in views && g != h ==> g.ptr != h.ptr
    {
      assert h in Users(h.ptr);
      assert |Users(h.ptr) - {h}| == 0;
      assert forall g :: g in views && g.ptr == h.ptr ==> g in Users(h.ptr);
    }

    /** A new value in a block changes no count. */
    twostate lemma SameCounts()
      requires old(Valid()) && views.Keys == old(views.Keys) && blocks == old(blocks)
      requires forall h :: h in views ==> h.ptr == old(h.ptr) && h.ptr.value == views[h]
      requires forall b :: b in blocks ==> b.refCount == old(b.refCount) && b.deallocated == old(b.deallocated)
      ensures Valid()
    {
      forall b | b in blocks
        ensures Users(b) == old(Users(b))
      {
      }
    }

    ghost function On(h: CopyOnWritePtr<T>, b: RefCounted<T>): nat
      reads this, h
    {
      if h in views && h.ptr == b then 1 else 0
    }

    twostate lemma OthersStay(new h: CopyOnWritePtr<T>, b: RefCounted<T>)
      requires views.Keys <= old(views.Keys) + {h} && old(views.Keys) <= views.Keys + {h}
      requires forall g :: g in old(views) && g != h ==> g.ptr == old(g.ptr)
      ensures |Users(b)| == old(|Users(b)|) - (if h in old(Users(b)) then 1 else 0) + (if h in Users(b) then 1 else 0)
    {
      assert Users(b) - {h} == old(Users(b)) - {h};
      HoldersMoved(old(Users(b)), Users(b), h);
    }

    /** When one pointer alone was changed, it is enough that the counts followed it. */
    twostate lemma CountsFollow(new h: CopyOnWritePtr<T>)
      requires old(Valid()) && views.Keys <= old(views.Keys) + {h} && old(views.Keys) <= views.Keys + {h}
      requires forall g :: g in old(views) && g != h ==> g.ptr == old(g.ptr) && views[g] == old(views)[g]
      requires h in views ==> h.ptr in blocks && h.ptr.value == views[h]
      requires forall b :: b in old(blocks) ==> b.value == old(b.value)
      requires old(blocks) <= blocks && forall b :: b in blocks - old(blocks) ==> h in views && h.ptr == b
      requires forall b :: b in old(blocks) ==>
        b.refCount == old(b.refCount) - (if h in old(Users(b)) then 1 else 0) + On(h, b)
      requires forall b :: b in blocks - old(blocks) ==> b.refCount == 1
      requires forall b :: b in blocks ==> b.deallocated == if b.refCount == 0 then 1 else 0
      ensures Valid()
    {
      forall b | b in old(blocks)
        ensures b.HeldBy(|Users(b)|)
      {
        OthersStay(h, b);
      }
      forall b | b in blocks - old(blocks)
        ensures b.HeldBy(|Users(b)|)
      {
        assert Users(b) == {h};
      }
    }
  }

  class CopyOnWritePtr<T> {
    var ptr: RefCounted<T>

    constructor (value: T, ghost sharing: Sharing<T>)
      requires sharing.Valid()
      modifies sharing
      ensures sharing.Valid() && this !in old(sharing.views) && sharing.views == old(sharing.views)[this := value]
      ensures fresh(sharing.blocks - old(sharing.blocks))
    {
      var block := new RefCounted(value);
      block.IncRef();
      ptr := block;
      new;
      sharing.views := sharing.views[this := value];
      sharing.blocks := sharing.blocks + {ptr};
      sharing.CountsFollow(this);
    }

    /** The copy constructor. */
    constructor CopyOf(cow: CopyOnWritePtr<T>, ghost sharing: Sharing<T>)
      requires sharing.Valid() && cow in sharing.views
      modifies sharing`views, sharing.blocks
      ensures sharing.Valid() && sharing.blocks == old(sharing.blocks)
      ensures this !in old(sharing.views) && sharing.views == old(sharing.views)[this := old(sharing.views)[cow]]
    {
      sharing.InUse(cow);
      cow.ptr.IncRef();
      ptr := cow.ptr;
      new;
      sharing.views := sharing.views[this := sharing.views[cow]];
      sharing.CountsFollow(this);
    }

    /** Assignment: nothing happens between pointers to the same block. */
    method Assign(rhs: CopyOnWritePtr<T>, ghost sharing: Sharing<T>)
      requires sharing.Valid() && this in sharing.views && rhs in sharing.views
      modifies this, sharing`views, sharing.blocks
      ensures sharing.Valid() && sharing.blocks == old(sharing.blocks)
      ensures sharing.views == old(sharing.views)[this := old(sharing.views)[rhs]]
    {
      if rhs.ptr != ptr {
        sharing.InUse(rhs);
        sharing.InUse(this);
        rhs.ptr.IncRef();
        var temp := ptr;
        ptr := rhs.ptr;
        temp.DecRef();
        sharing.views := sharing.views[this := sharing.views[rhs]];
        sharing.CountsFollow(this);
      }
    }

    /** A holder that shares its block gets a copy of its own; no holder sees a difference. */
    method Detach(ghost sharing: Sharing<T>)
      requires sharing.Valid() && this in sharing.views
      modifies this, sharing`blocks, sharing.blocks
      ensures sharing.Valid() && ptr.refCount == 1
      ensures fresh(sharing.blocks - old(sharing.blocks))
    {
      sharing.InUse(this);
      if ptr.refCount > 1 {
        Clone(sharing);
      }
    }

    method Clone(ghost sharing: Sharing<T>)
      requires sharing.Valid() && this in sharing.views && ptr.refCount > 1
      modifies this, sharing`blocks, sharing.blocks
      ensures sharing.Valid() && ptr.refCount == 1
      ensures fresh(sharing.blocks - old(sharing.blocks))
    {
      var temp := ptr;
      var block := new RefCounted(temp.value);
      block.IncRef();
      ptr := block;
      temp.DecRef();
      sharing.blocks := sharing.blocks + {ptr};
      sharing.CountsFollow(this);
    }

    /** A change through one pointer is seen by that pointer and by no other. */
    method Write(value: T, ghost sharing: Sharing<T>)
      requires sharing.Valid() && this in sharing.views
      modifies this, sharing, sharing.blocks
      ensures sharing.Valid() && sharing.views == old(sharing.views)[this := value]
      ensures fresh(sharing.blocks - old(sharing.blocks))
    {
      Detach(sharing);
      sharing.Alone(this);
      label detached:
      ptr.value := value;
      sharing.views := sharing.views[this := value];
      sharing.SameCounts@detached();
    }

    method Drop(ghost sharing: Sharing<T>)
      requires sharing.Valid() && this in sharing.views
      modifies sharing`views, sharing.blocks
      ensures sharing.Valid() && sharing.views == old(sharing.views) - {this}
    {
      sharing.InUse(this);
      ptr.DecRef();
      sharing.views := sharing.views - {this};
      sharing.CountsFollow(this);
    }

    /** Reading does not detach. */
    method Read(ghost sharing: Sharing<T>) returns (value: T)
      requires sharing.Valid() && this in sharing.views
      ensures value == sharing.views[this]
    {
      value := ptr.value;
    }
  }

  /** However often a list is changed, a copy that was taken of it stays as it was. */
  method ChangesPassBy<T>(list: CopyOnWritePtr<T>, values: seq<T>, ghost sharing: Sharing<T>)
    requires sharing.Valid() && list in sharing.views
    modifies list, sharing, sharing.blocks
    ensures sharing.Valid() && sharing.views.Keys == old(sharing.views.Keys)
    ensures forall h :: h in sharing.views && h != list ==> sharing.views[h] == old(sharing.views)[h]
    ensures values != [] ==> sharing.views[list] == values[|values| - 1]
  {
    ghost var before := sharing.views;
    for i := 0 to |values|
      invariant sharing.Valid() && sharing.views.Keys == before.Keys
      invariant fresh(sharing.blocks - old(sharing.blocks))
      invariant forall h :: h in before && h != list ==> sharing.views[h] == before[h]
      invariant i > 0 ==> sharing.views[list] == values[i - 1]
    {
      list.Write(values[i], sharing);
    }
  }
}
