/**
 * What is written is read back: reading the bytes of a value through the iterators
 * gives the value, with unset fields read as null, exactly when no collection in it
 * holds a null item.
 */
module ValueRoundTrip {
  import opened Options
  import opened Requests
  import opened DataTypes
  import opened Values

  /** The value as it is read back: a field that was not set is null. */
  function AsRead(v: Value): (r: Value) {
    match v
    case Scalar(_) => v
    case Null => Null
    case Unset => Null
    case Collected(kind, items) => Collected(kind, AllAsRead(items))
    case Tupled(fields) => Tupled(AllAsRead(fields))
  }

  function AllAsRead(values: seq<Value>): seq<Value> {
    if values == [] then [] else [AsRead(values[0])] + AllAsRead(values[1..])
  }

  /** No collection holds a null item, at any depth. */
  predicate NoNullItem(v: Value) {
    match v
    case Scalar(_) => true
    case Null => true
    case Unset => true
    case Collected(_, items) => NoNulls(items)
    case Tupled(fields) => NoNullsWithin(fields)
  }

  predicate NoNulls(items: seq<Value>) {
    items != [] ==> items[0] != Null && NoNullItem(items[0]) && NoNulls(items[1..])
  }

  predicate NoNullsWithin(fields: seq<Value>) {
    fields != [] ==> NoNullItem(fields[0]) && NoNullsWithin(fields[1..])
  }

  // One value off the input

  lemma StepOfBody(t: DataType, body: seq<Byte>, rest: seq<Byte>)
    requires |body| < INT32_LIMIT
    ensures DecodeStep(t, Int32(|body|) + body + rest) ==
      if HeldIn(t, body).Some? then Some(Step(HeldIn(t, body).value, rest)) else None
  {
    var input := Int32(|body|) + body + rest;
    Int32RoundTrip(|body|);
    assert input[..INT32_SIZE] == Int32(|body|);
    assert input[INT32_SIZE..][..|body|] == body;
    assert input[INT32_SIZE..][|body|..] == rest;
  }

  lemma StepOfNull(t: DataType, rest: seq<Byte>)
    ensures DecodeStep(t, Int32(-1) + rest) == Some(Step(NullHeld, rest))
  {
    Int32RoundTrip(-1);
    assert (Int32(-1) + rest)[..INT32_SIZE] == Int32(-1);
    assert (Int32(-1) + rest)[INT32_SIZE..] == rest;
  }

  /** A body never reads as null: the empty one of a null item reads as an empty value, or not at all. */
  lemma BodyIsNotNull(t: DataType, body: seq<Byte>)
    ensures ReadBody(t, body) != Some(Null)
  {
  }

  lemma JoinedIsMany(first: Option<Value>, others: Option<Many>, x: Value, xs: seq<Value>)
    ensures Joined(first, others) == Some(Many([x] + xs, [])) <==> first == Some(x) && others == Some(Many(xs, []))
  {
    if first.Some? && others.Some? {
      SameCons(first.value, others.value.values, x, xs);
    }
  }

  /** The reading used up the input, if it succeeded. */
  predicate AtEnd(r: Option<Many>) {
    r.Some? ==> r.value.rest == []
  }

  lemma SameCons<T>(a: T, s: seq<T>, b: T, t: seq<T>)
    ensures [a] + s == [b] + t <==> a == b && s == t
  {
    if [a] + s == [b] + t {
      assert ([a] + s)[0] == a && ([b] + t)[0] == b;
      assert ([a] + s)[1..] == s && ([b] + t)[1..] == t;
    }
  }

  // Sizes

  lemma {:induction false} ItemsAreLong(items: seq<Value>)
    ensures INT32_SIZE * |items| <= |ItemBytes(items)|
    decreases |items|
  {
    if items != [] {
      ItemsAreLong(items[1..]);
    }
  }

  // The round trip

  /** One item of a collection and the ones after it. */
  lemma ItemStep(t: DataType, i: nat, next: nat, count: int, w: Value, rest: seq<Byte>)
    requires IsCollection(t) && i < count && next == i + 1 && |Body(w)| < INT32_LIMIT
    ensures
      var e := ElementType(t, i);
      ReadItems(t, i, count, Int32(|Body(w)|) + Body(w) + rest) ==
        if HeldIn(e, Body(w)).Some? then Joined(ReadBody(e, Body(w)), ReadItems(t, next, count, rest)) else None
  {
    StepOfBody(ElementType(t, i), Body(w), rest);
  }

  lemma {:induction false} ItemsRoundTrip(t: DataType, i: nat, count: int, items: seq<Value>)
    requires IsCollection(t) && count == i + |items| && |ItemBytes(items)| < INT32_LIMIT
    requires forall k :: 0 <= k < |items| ==> items[k] != Unset && HasType(items[k], ElementType(t, i + k))
    ensures ReadItems(t, i, count, ItemBytes(items)) == Some(Many(AllAsRead(items), [])) <==> NoNulls(items)
    ensures AtEnd(ReadItems(t, i, count, ItemBytes(items)))
    decreases items, 0
  {
    if items != [] {
      var w, rest, next := items[0], items[1..], i + 1;
      var e := ElementType(t, i);
      assert HasType(w, ElementType(t, i + 0));
      forall k | 0 <= k < |rest|
        ensures rest[k] != Unset && HasType(rest[k], ElementType(t, next + k))
      {
        assert rest[k] == items[k + 1] && next + k == i + (k + 1);
      }
      ItemStep(t, i, next, count, w, ItemBytes(rest));
      ItemRoundTrip(w, e);
      ItemsRoundTrip(t, next, count, rest);
      JoinedIsMany(ReadBody(e, Body(w)), ReadItems(t, next, count, ItemBytes(rest)), AsRead(w), AllAsRead(rest));
    }
  }

  lemma {:induction false} ItemRoundTrip(w: Value, t: DataType)
    requires w != Unset && HasType(w, t) && |Body(w)| < INT32_LIMIT
    ensures ReadBody(t, Body(w)) == Some(AsRead(w)) <==> w != Null && NoNullItem(w)
    decreases w, 1
  {
    if w == Null {
      BodyIsNotNull(t, []);
    } else {
      BodyRoundTrip(w, t);
    }
  }

  /** One field of a tuple and the ones after it. */
  lemma FieldStep(types: seq<DataType>, t: DataType, w: Value, rest: seq<Byte>)
    requires types != [] && (forall k :: 0 <= k < |types| ==> types[k] < t) && |Body(w)| < INT32_LIMIT
    ensures ReadFields(types, WithLength(w) + rest, t) ==
      if w == Null || w == Unset then Joined(Some(Null), ReadFields(types[1..], rest, t))
      else if HeldIn(types[0], Body(w)).Some?
      then Joined(ReadBody(types[0], Body(w)), ReadFields(types[1..], rest, t))
      else None
  {
    StepOfBody(types[0], Body(w), rest);
    StepOfNull(types[0], rest);
  }

  lemma {:induction false} FieldsRoundTrip(types: seq<DataType>, t: DataType, fields: seq<Value>)
    requires |types| == |fields| && |FieldBytes(fields)| < INT32_LIMIT
    requires forall k :: 0 <= k < |types| ==> types[k] < t && HasType(fields[k], types[k])
    ensures ReadFields(types, FieldBytes(fields), t) == Some(Many(AllAsRead(fields), [])) <==> NoNullsWithin(fields)
    ensures AtEnd(ReadFields(types, FieldBytes(fields), t))
    decreases fields, 0
  {
    if fields != [] {
      var w, rest := fields[0], fields[1..];
      FieldStep(types, t, w, FieldBytes(rest));
      FieldsRoundTrip(types[1..], t, rest);
      var others := ReadFields(types[1..], FieldBytes(rest), t);
      if w == Null || w == Unset {
        JoinedIsMany(Some(Null), others, AsRead(w), AllAsRead(rest));
      } else {
        BodyRoundTrip(w, types[0]);
        JoinedIsMany(ReadBody(types[0], Body(w)), others, AsRead(w), AllAsRead(rest));
      }
    }
  }

  lemma CollectionHeldIn(t: DataType, count: nat, bytes: seq<Byte>)
    requires IsCollection(t) && count < INT32_LIMIT
    ensures HeldIn(t, Int32(count) + bytes) == Some(CollectionHeld(count, bytes))
  {
    Int32RoundTrip(count);
    assert (Int32(count) + bytes)[..INT32_SIZE] == Int32(count);
    assert (Int32(count) + bytes)[INT32_SIZE..] == bytes;
  }

  /**
   * A value that fits a message is read back from its bytes exactly when no
   * collection in it holds a null item.
   */
  lemma {:induction false} BodyRoundTrip(v: Value, t: DataType)
    requires v != Null && v != Unset && HasType(v, t) && |Body(v)| < INT32_LIMIT
    ensures ReadBody(t, Body(v)) == Some(AsRead(v)) <==> NoNullItem(v)
    decreases v, 0
  {
    match v
    case Scalar(_) =>
    case Collected(kind, items) => CollectionRoundTrip(kind, items, t);
    case Tupled(fields) => FieldsRoundTrip(FieldTypes(t), t, fields);
  }

  lemma {:induction false} CollectionRoundTrip(kind: Kind, items: seq<Value>, t: DataType)
    requires HasType(Collected(kind, items), t) && |Body(Collected(kind, items))| < INT32_LIMIT
    ensures ReadBody(t, Body(Collected(kind, items))) == Some(AsRead(Collected(kind, items))) <==> NoNulls(items)
    decreases items, 1
  {
    var count, bytes := Count(kind, |items|), ItemBytes(items);
    ItemsAreLong(items);
    CollectionHeldIn(t, count, bytes);
    assert ItemCount(t, count) == |items|;
    ItemsRoundTrip(t, 0, |items|, items);
    ReadHeld(t, count, bytes, ReadItems(t, 0, |items|, bytes));
  }

  lemma ReadHeld(t: DataType, count: int, bytes: seq<Byte>, r: Option<Many>)
    requires IsCollection(t) && ReadItems(t, 0, ItemCount(t, count), bytes) == r
    ensures Read(t, CollectionHeld(count, bytes)) == if r.Some? then Some(Collected(t.kind, r.value.values)) else None
  {
  }
}
