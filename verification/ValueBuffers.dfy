/**
 * Writing values (`collection.cpp:125-229`, `abstract_data.cpp:27-112`): the size is
 * computed first, a buffer of that size is allocated, and the parts are copied into
 * it one after the other. Every buffer is filled exactly, with the bytes of the value.
 */
module ValueBuffers {
  import opened Requests
  import opened DataTypes
  import opened ValueLayout
  import opened Values

  /** Items that are already bytes, each behind its length. */
  function Framed(items: seq<seq<Byte>>): seq<Byte> {
    if items == [] then [] else Int32(|items[0]|) + items[0] + Framed(items[1..])
  }

  function Bodies(values: seq<Value>): (r: seq<seq<Byte>>)
    ensures |r| == |values|
  {
    if values == [] then [] else [Body(values[0])] + Bodies(values[1..])
  }

  lemma {:induction false} FramedBodies(values: seq<Value>)
    ensures Framed(Bodies(values)) == ItemBytes(values)
    decreases |values|
  {
    if values != [] {
      FramedBodies(values[1..]);
      assert Bodies(values)[1..] == Bodies(values[1..]);
    }
  }

  lemma {:induction false} BodiesAppend(values: seq<Value>, v: Value)
    ensures Bodies(values + [v]) == Bodies(values) + [Body(v)]
    decreases |values|
  {
    if values == [] {
      assert values + [v] == [v];
    } else {
      assert (values + [v])[1..] == values[1..] + [v];
      BodiesAppend(values[1..], v);
    }
  }

  lemma {:induction false} FramedSplit(items: seq<seq<Byte>>, i: nat)
    requires i < |items|
    ensures Framed(items[i..]) == Int32(|items[i]|) + items[i] + Framed(items[i + 1..])
  {
    assert items[i..][1..] == items[i + 1..];
  }

  /** `memcpy` into a buffer. */
  method CopyBytes(buf: array<Byte>, pos: nat, data: seq<Byte>) returns (next: nat)
    requires pos + |data| <= buf.Length
    modifies buf
    ensures next == pos + |data|
    ensures buf[..next] == old(buf[..pos]) + data
  {
    next := pos;
    for i := 0 to |data|
      invariant next == pos + i
      invariant buf[..next] == old(buf[..pos]) + data[..i]
    {
      buf[next] := data[i];
      next := next + 1;
    }
  }

  /** The number in front of some bytes. */
  lemma Headed(all: seq<Byte>, n: nat, rest: seq<Byte>)
    requires all == Int32(n) + rest
    ensures |all| >= 4 && (n < 0x8000_0000 ==> BigEndian(all[..4]) == n)
  {
    Int32IsBigEndian(n);
    assert all[..4] == Int32(n);
  }

  class Collection {
    const kind: Kind
    var items: seq<seq<Byte>>

    constructor (kind: Kind)
      ensures this.kind == kind && items == []
    {
      this.kind := kind;
      items := [];
    }

    /** The items are those of some values. */
    ghost predicate Holds(values: seq<Value>)
      reads this
    {
      items == Bodies(values)
    }

    ghost function Bytes(): seq<Byte>
      reads this
    {
      Int32(Count(kind, |items|)) + Framed(items)
    }

    /** The bytes of the collection are those of the value that was appended item by item. */
    lemma BytesOf(values: seq<Value>)
      requires Holds(values)
      ensures Bytes() == Body(Collected(kind, values))
    {
      FramedBodies(values);
    }

    /** Any item but null: `cass::encode`, or the `encode` of a nested value. */
    method Append(body: seq<Byte>, ghost values: seq<Value>, ghost v: Value)
      requires Holds(values) && body == Body(v)
      modifies this
      ensures Holds(values + [v])
    {
      BodiesAppend(values, v);
      items := items + [body];
    }

    method AppendNull(ghost values: seq<Value>)
      requires Holds(values)
      modifies this
      ensures Holds(values + [Null])
    {
      BodiesAppend(values, Null);
      items := items + [[]];
    }

    method GetItemsSize() returns (size: nat)
      ensures size == |Framed(items)|
    {
      size := 0;
      for i := 0 to |items|
        invariant size + |Framed(items[i..])| == |Framed(items)|
      {
        FramedSplit(items, i);
        size := size + INT32_SIZE;
        size := size + |items[i]|;
      }
    }

    method EncodeItems(buf: array<Byte>, pos: nat)
      requires pos + |Framed(items)| == buf.Length
      modifies buf
      ensures buf[..] == old(buf[..pos]) + Framed(items)
    {
      var next := pos;
      for i := 0 to |items|
        invariant pos <= next && next + |Framed(items[i..])| == buf.Length
        invariant buf[..next] + Framed(items[i..]) == old(buf[..pos]) + Framed(items)
      {
        FramedSplit(items, i);
        ghost var done := buf[..next];
        next := CopyBytes(buf, next, Int32(|items[i]|));
        next := CopyBytes(buf, next, items[i]);
        Regroup(done, Int32(|items[i]|), items[i], Framed(items[i + 1..]));
      }
      assert buf[..next] == buf[..];
    }

    method Encode() returns (buf: array<Byte>)
      ensures fresh(buf) && buf[..] == Bytes()
      ensures buf.Length >= 4
      ensures |items| < 0x8000_0000 ==> BigEndian(buf[..4]) == if kind == Map then |items| / 2 else |items|
    {
      var size := GetItemsSize();
      buf := new Byte[INT32_SIZE + size];
      var pos := CopyBytes(buf, 0, Int32(Count(kind, |items|)));
      EncodeItems(buf, pos);
      Headed(buf[..], Count(kind, |items|), Framed(items));
    }

    method GetSizeWithLength() returns (size: nat)
      ensures size == INT32_SIZE + |Bytes()|
    {
      size := GetItemsSize();
      size := INT32_SIZE + INT32_SIZE + size;
    }

    method EncodeWithLength() returns (buf: array<Byte>)
      ensures fresh(buf) && buf[..] == Int32(|Bytes()|) + Bytes()
      ensures buf.Length >= 4 && (|Bytes()| < 0x8000_0000 ==> BigEndian(buf[..4]) == |Bytes()|)
    {
      var size := GetItemsSize();
      var internalSize := INT32_SIZE + size;
      buf := new Byte[INT32_SIZE + internalSize];
      var pos := CopyBytes(buf, 0, Int32(internalSize));
      pos := CopyBytes(buf, pos, Int32(Count(kind, |items|)));
      EncodeItems(buf, pos);
      Headed(buf[..], |Bytes()|, Bytes());
    }
  }

  lemma Regroup(a: seq<Byte>, b: seq<Byte>, c: seq<Byte>, d: seq<Byte>)
    ensures a + (b + c + d) == a + b + c + d
  {
  }

  /** One field of a tuple or user type; a collection is encoded only when the whole is. */
  datatype Element =
    | UnsetElement
    | NulElement
    | BufferElement(buf: seq<Byte>)
    | CollectionElement(collection: Collection)

  ghost function ElementBytes(e: Element): seq<Byte>
    reads if e.CollectionElement? then {e.collection} else {}
  {
    match e
    case UnsetElement => Int32(-1)
    case NulElement => Int32(-1)
    case BufferElement(buf) => if buf == [] then Int32(-1) else buf
    case CollectionElement(c) => Int32(|c.Bytes()|) + c.Bytes()
  }

  /** The element was set to the value. */
  ghost predicate ElementHolds(e: Element, v: Value)
    reads if e.CollectionElement? then {e.collection} else {}
  {
    match e
    case UnsetElement => v == Unset
    case NulElement => v == Null
    case BufferElement(buf) => if buf == [] then v == Unset else buf == WithLength(v)
    case CollectionElement(c) => v.Collected? && v.kind == c.kind && c.Holds(v.items)
  }

  lemma ElementBytesOf(e: Element, v: Value)
    requires ElementHolds(e, v)
    ensures ElementBytes(e) == WithLength(v)
  {
    if e.CollectionElement? {
      e.collection.BytesOf(v.items);
    }
  }

  lemma FieldsSplit(values: seq<Value>, i: nat)
    requires i < |values|
    ensures FieldBytes(values[i..]) == WithLength(values[i]) + FieldBytes(values[i + 1..])
  {
    assert values[i..][1..] == values[i + 1..];
  }

  datatype CassError = Ok | IndexOutOfBounds | InvalidValueType | InvalidItemCount

  /** The fields of a tuple or user type value, or the parameters of a statement. */
  class AbstractData {
    var elements: seq<Element>

    constructor (count: nat)
      ensures |elements| == count && forall i :: 0 <= i < count ==> elements[i] == UnsetElement
    {
      elements := seq(count, _ => UnsetElement);
    }

    ghost function Collections(): set<object>
      reads this
    {
      set e | e in elements && e.CollectionElement? :: e.collection
    }

    ghost predicate Holds(values: seq<Value>)
      reads this, Collections()
    {
      |values| == |elements| && forall i :: 0 <= i < |values| ==> ElementHolds(elements[i], values[i])
    }

    /** `check`; `fits` is what the check of the value's type against the declared one says. */
    method Check(index: nat, fits: bool) returns (rc: CassError)
      ensures rc == Ok <==> index < |elements| && fits
      ensures index >= |elements| ==> rc == IndexOutOfBounds
      ensures index < |elements| && !fits ==> rc == InvalidValueType
    {
      if index >= |elements| {
        return IndexOutOfBounds;
      }
      rc := if fits then Ok else InvalidValueType;
    }

    /** Any value but a collection: null, or the bytes of a value with its length. */
    method SetElement(index: nat, e: Element, fits: bool) returns (rc: CassError)
      requires !e.CollectionElement?
      modifies this
      ensures rc ==
        if index >= |old(elements)| then IndexOutOfBounds
        else if !fits then InvalidValueType
        else Ok
      ensures elements == if rc == Ok then old(elements)[index := e] else old(elements)
    {
      rc := Check(index, fits);
      if rc != Ok {
        return;
      }
      elements := elements[index := e];
    }

    /** A map with a key that has no value is refused. */
    method SetCollection(index: nat, c: Collection, fits: bool) returns (rc: CassError)
      modifies this
      ensures rc ==
        if index >= |old(elements)| then IndexOutOfBounds
        else if !fits then InvalidValueType
        else if c.kind == Map && |c.items| % 2 != 0 then InvalidItemCount
        else Ok
      ensures elements == if rc == Ok then old(elements)[index := CollectionElement(c)] else old(elements)
    {
      rc := Check(index, fits);
      if rc != Ok {
        return;
      }
      if c.kind == Map && |c.items| % 2 != 0 {
        return InvalidItemCount;
      }
      elements := elements[index := CollectionElement(c)];
    }

    method ElementSize(e: Element, ghost v: Value) returns (size: nat)
      requires ElementHolds(e, v)
      ensures size == |WithLength(v)|
    {
      ElementBytesOf(e, v);
      match e {
        case UnsetElement => size := INT32_SIZE;
        case NulElement => size := INT32_SIZE;
        case BufferElement(buf) => size := if buf == [] then INT32_SIZE else |buf|;
        case CollectionElement(c) => size := c.GetSizeWithLength();
      }
    }

    method GetBuffersSize(ghost values: seq<Value>) returns (size: nat)
      requires Holds(values)
      ensures size == |FieldBytes(values)|
    {
      size := 0;
      for i := 0 to |elements|
        invariant Holds(values)
        invariant size + |FieldBytes(values[i..])| == |FieldBytes(values)|
      {
        FieldsSplit(values, i);
        var n := ElementSize(elements[i], values[i]);
        size := size + n;
      }
    }

    method ElementToBytes(e: Element, ghost v: Value) returns (data: seq<Byte>)
      requires ElementHolds(e, v)
      ensures data == WithLength(v)
    {
      ElementBytesOf(e, v);
      match e {
        case UnsetElement => data := Int32(-1);
        case NulElement => data := Int32(-1);
        case BufferElement(buf) => data := if buf == [] then Int32(-1) else buf;
        case CollectionElement(c) =>
          var encoded := c.EncodeWithLength();
          data := encoded[..];
      }
    }

    method EncodeBuffers(pos: nat, buf: array<Byte>, ghost values: seq<Value>)
      requires Holds(values) && pos + |FieldBytes(values)| == buf.Length
      modifies buf
      ensures buf[..] == old(buf[..pos]) + FieldBytes(values)
    {
      var next := pos;
      for i := 0 to |elements|
        invariant pos <= next && next + |FieldBytes(values[i..])| == buf.Length
        invariant Holds(values)
        invariant buf[..next] + FieldBytes(values[i..]) == old(buf[..pos]) + FieldBytes(values)
      {
        FieldsSplit(values, i);
        ghost var done := buf[..next];
        var data := ElementToBytes(elements[i], values[i]);
        next := CopyBytes(buf, next, data);
        Associate(done, data, FieldBytes(values[i + 1..]));
      }
      assert buf[..next] == buf[..];
    }

    /** The value without its length, in a buffer of exactly its size. */
    method Encode(ghost values: seq<Value>) returns (buf: array<Byte>)
      requires Holds(values)
      ensures fresh(buf) && buf[..] == Body(Tupled(values))
    {
      var size := GetBuffersSize(values);
      buf := new Byte[size];
      EncodeBuffers(0, buf, values);
    }

    /** The value with its length. */
    method EncodeWithLength(ghost values: seq<Value>) returns (buf: array<Byte>)
      requires Holds(values)
      ensures fresh(buf) && buf[..] == WithLength(Tupled(values))
      ensures var n := |Body(Tupled(values))|; buf.Length == 4 + n && (n < 0x8000_0000 ==> BigEndian(buf[..4]) == n)
    {
      var size := GetBuffersSize(values);
      buf := new Byte[INT32_SIZE + size];
      var pos := CopyBytes(buf, 0, Int32(size));
      EncodeBuffers(pos, buf, values);
      Headed(buf[..], size, Body(Tupled(values)));
    }
  }

  lemma Associate(a: seq<Byte>, b: seq<Byte>, c: seq<Byte>)
    ensures a + (b + c) == a + b + c
  {
  }
}
