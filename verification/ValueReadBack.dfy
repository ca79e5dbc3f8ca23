/**
 * What comes back when a value is written and read again, null items of collections included, and
 * the writer and the reader put together.
 */
module ValueReadBacks {
  import opened Options
  import opened Requests
  import opened DataTypes
  import opened Values
  import opened ValueRoundTrip
  import opened ValueBuffers
  import opened ValueIterators

  /** A body without bytes: an empty value, the tuple without fields, or nothing that can be read. */
  function EmptyRead(t: DataType): Option<Value> {
    if IsCollection(t) then None
    else if !IsTuple(t) then Some(Scalar([]))
    else if FieldTypes(t) == [] then Some(Tupled([]))
    else None
  }

  /** What is read from the body of a value. A null item is read as what no bytes stand for. */
  function ReadBack(v: Value, t: DataType): Option<Value>
    requires HasType(v, t)
    decreases v, 0
  {
    match v
    case Scalar(_) => Some(v)
    case Null => EmptyRead(t)
    case Unset => EmptyRead(t)
    case Collected(kind, items) =>
      var r := ItemsBack(items, t, 0);
      if r.Some? then Some(Collected(kind, r.value)) else None
    case Tupled(fields) =>
      var r := FieldsBack(fields, FieldTypes(t));
      if r.Some? then Some(Tupled(r.value)) else None
  }

  function ItemsBack(items: seq<Value>, t: DataType, i: nat): Option<seq<Value>>
    requires IsCollection(t) && forall k :: 0 <= k < |items| ==> HasType(items[k], ElementType(t, i + k))
    decreases items, 0
  {
    if items == [] then Some([])
    else
      assert HasType(items[0], ElementType(t, i + 0));
      assert forall k :: 0 <= k < |items[1..]| ==> items[1..][k] == items[k + 1] && i + 1 + k == i + (k + 1);
      Both(ReadBack(items[0], ElementType(t, i)), ItemsBack(items[1..], t, i + 1))
  }

  /** A field that is null or was not set is read as null. */
  function FieldsBack(fields: seq<Value>, types: seq<DataType>): Option<seq<Value>>
    requires |fields| == |types| && forall k :: 0 <= k < |fields| ==> HasType(fields[k], types[k])
    decreases fields, 0
  {
    if fields == [] then Some([])
    else
      Both(if fields[0] == Null || fields[0] == Unset then Some(Null) else ReadBack(fields[0], types[0]),
           FieldsBack(fields[1..], types[1..]))
  }

  function Both(first: Option<Value>, others: Option<seq<Value>>): Option<seq<Value>> {
    if first.Some? && others.Some? then Some([first.value] + others.value) else None
  }

  /** The values with nothing left behind them. */
  function Whole(values: Option<seq<Value>>): Option<Many> {
    if values.Some? then Some(Many(values.value, [])) else None
  }

  lemma JoinedWhole(first: Option<Value>, others: Option<seq<Value>>)
    ensures Joined(first, Whole(others)) == Whole(Both(first, others))
  {
  }

  lemma EmptyBody(t: DataType)
    ensures ReadBody(t, []) == EmptyRead(t)
  {
    if !IsCollection(t) && IsTuple(t) {
      var types := FieldTypes(t);
      assert ReadFields(types, [], t) == if types == [] then Some(Many([], [])) else None;
    }
  }

  lemma {:induction false} ItemsReadBack(items: seq<Value>, t: DataType, i: nat, count: int)
    requires IsCollection(t) && count == i + |items| && |ItemBytes(items)| < INT32_LIMIT
    requires forall k :: 0 <= k < |items| ==> HasType(items[k], ElementType(t, i + k))
    ensures ReadItems(t, i, count, ItemBytes(items)) == Whole(ItemsBack(items, t, i))
    decreases items, 0
  {
    if items != [] {
      var w, rest, next := items[0], items[1..], i + 1;
      assert HasType(w, ElementType(t, i + 0));
      forall k | 0 <= k < |rest|
        ensures HasType(rest[k], ElementType(t, next + k))
      {
        assert rest[k] == items[k + 1] && next + k == i + (k + 1);
      }
      ItemStep(t, i, next, count, w, ItemBytes(rest));
      BodyReadsBack(w, ElementType(t, i));
      ItemsReadBack(rest, t, next, count);
      JoinedWhole(ReadBack(w, ElementType(t, i)), ItemsBack(rest, t, next));
      ItemsBackStep(items, t, i, next);
    }
  }

  lemma ItemsBackStep(items: seq<Value>, t: DataType, i: nat, next: nat)
    requires items != [] && next == i + 1
    requires IsCollection(t) && forall k :: 0 <= k < |items| ==> HasType(items[k], ElementType(t, i + k))
    requires HasType(items[0], ElementType(t, i))
    requires forall k :: 0 <= k < |items[1..]| ==> HasType(items[1..][k], ElementType(t, next + k))
    ensures ItemsBack(items, t, i) == Both(ReadBack(items[0], ElementType(t, i)), ItemsBack(items[1..], t, next))
  {
  }

  lemma {:induction false} FieldsReadBack(fields: seq<Value>, types: seq<DataType>, t: DataType)
    requires |types| == |fields| && |FieldBytes(fields)| < INT32_LIMIT
    requires forall k :: 0 <= k < |types| ==> types[k] < t && HasType(fields[k], types[k])
    ensures ReadFields(types, FieldBytes(fields), t) == Whole(FieldsBack(fields, types))
    decreases fields, 0
  {
    if fields != [] {
      var w, rest := fields[0], fields[1..];
      FieldStep(types, t, w, FieldBytes(rest));
      FieldsReadBack(rest, types[1..], t);
      if w == Null || w == Unset {
        JoinedWhole(Some(Null), FieldsBack(rest, types[1..]));
      } else {
        BodyReadsBack(w, types[0]);
        JoinedWhole(ReadBack(w, types[0]), FieldsBack(rest, types[1..]));
      }
    }
  }

  /** What is read from the bytes of any value that fits a message. */
  lemma {:induction false} BodyReadsBack(v: Value, t: DataType)
    requires HasType(v, t) && |Body(v)| < INT32_LIMIT
    ensures ReadBody(t, Body(v)) == ReadBack(v, t)
    decreases v, 0
  {
    match v
    case Scalar(_) =>
    case Null => EmptyBody(t);
    case Unset => EmptyBody(t);
    case Collected(kind, items) => CollectionReadsBack(kind, items, t);
    case Tupled(fields) => FieldsReadBack(fields, FieldTypes(t), t);
  }

  lemma {:induction false} CollectionReadsBack(kind: Kind, items: seq<Value>, t: DataType)
    requires HasType(Collected(kind, items), t) && |Body(Collected(kind, items))| < INT32_LIMIT
    ensures ReadBody(t, Body(Collected(kind, items))) == ReadBack(Collected(kind, items), t)
    decreases items, 1
  {
    var count, bytes := Count(kind, |items|), ItemBytes(items);
    ItemsAreLong(items);
    CollectionHeldIn(t, count, bytes);
    assert ItemCount(t, count) == |items|;
    ItemsReadBack(items, t, 0, |items|);
    ReadHeld(t, count, bytes, ReadItems(t, 0, |items|, bytes));
  }

  // The writer and the reader together

  /** The fields of a tuple or user type are encoded, and read back through the iterators. */
  method EncodeAndRead(data: AbstractData, t: DataType, ghost values: seq<Value>) returns (v: Option<Value>)
    requires data.Holds(values) && IsTuple(t) && HasType(Tupled(values), t) && |FieldBytes(values)| < INT32_LIMIT
    ensures v == ReadBack(Tupled(values), t)
    ensures v == Some(AsRead(Tupled(values))) <==> NoNullItem(Tupled(values))
  {
    var buf := data.Encode(values);
    v := ReadValue(t, BytesHeld(buf[..]));
    BodyReadsBack(Tupled(values), t);
    BodyRoundTrip(Tupled(values), t);
  }

  /** A collection is encoded with its length, and taken off the input and read back. */
  method EncodeAndReadCollection(c: Collection, t: DataType, ghost values: seq<Value>)
    returns (v: Option<Value>, rest: seq<Byte>)
    requires c.Holds(values) && HasType(Collected(c.kind, values), t)
    requires |Body(Collected(c.kind, values))| < INT32_LIMIT
    ensures v == ReadBack(Collected(c.kind, values), t) && rest == []
    ensures v == Some(AsRead(Collected(c.kind, values))) <==> NoNullItem(Collected(c.kind, values))
  {
    ghost var whole := Collected(c.kind, values);
    c.BytesOf(values);
    var buf := c.EncodeWithLength();
    CollectionStep(whole, t, buf[..]);
    var ok, held;
    ok, held, rest := DecodeValue(t, buf[..]);
    v := ReadValue(t, held);
    BodyReadsBack(whole, t);
    BodyRoundTrip(whole, t);
  }

  lemma CollectionStep(v: Value, t: DataType, input: seq<Byte>)
    requires v.Collected? && HasType(v, t) && |Body(v)| < INT32_LIMIT && input == Int32(|Body(v)|) + Body(v)
    ensures Sized(input) && HeldIn(t, Body(v)).Some?
    ensures DecodeStep(t, input) == Some(Step(HeldIn(t, Body(v)).value, []))
  {
    assert Int32(|Body(v)|) + Body(v) + [] == input;
    StepOfBody(t, Body(v), []);
  }
}
