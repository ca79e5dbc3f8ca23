/**
 * Reading values (`decoder.cpp:138-168`, `collection_iterator.cpp:21-47`,
 * `user_type_field_iterator.cpp:23-30`): the iterators take one value after the
 * other off the input, and going through them recovers the whole value.
 */
module ValueIterators {
  import opened Options
  import opened Requests
  import opened DataTypes
  import opened Values

  /** `Decoder::decode_value`. */
  method DecodeValue(t: DataType, input: seq<Byte>) returns (ok: bool, held: Held, rest: seq<Byte>)
    requires Sized(input)
    ensures ok <==> DecodeStep(t, input).Some?
    ensures ok ==> DecodeStep(t, input) == Some(Step(held, rest))
  {
    held, rest := NullHeld, input;
    if |rest| < INT32_SIZE {
      return false, held, rest;
    }
    var size := ToInt32(rest[..INT32_SIZE]);
    rest := rest[INT32_SIZE..];
    if size >= 0 {
      var buffer := rest[..size];
      rest := rest[size..];
      if IsCollection(t) {
        if |buffer| < INT32_SIZE {
          return false, held, rest;
        }
        held := CollectionHeld(ToInt32(buffer[..INT32_SIZE]), buffer[INT32_SIZE..]);
      } else {
        held := BytesHeld(buffer);
      }
    }
    ok := true;
  }

  /** The items of a list, set or map, a map's keys and values in turn. */
  class CollectionIterator {
    const dataType: DataType
    const count: int
    var index: int
    var rest: seq<Byte>
    var value: Held

    constructor (t: DataType, announced: int, rest: seq<Byte>)
      requires IsCollection(t)
      ensures dataType == t && count == ItemCount(t, announced) && index == -1 && this.rest == rest
    {
      dataType := t;
      count := if t.kind == Map then 2 * announced else announced;
      index := -1;
      this.rest := rest;
      value := NullHeld;
    }

    method Next() returns (more: bool)
      requires IsCollection(dataType) && -1 <= index && Sized(rest)
      modifies this
      ensures old(index) + 1 >= count ==> !more && index == old(index) && rest == old(rest)
      ensures old(index) + 1 < count ==> index == old(index) + 1
      ensures more ==> old(index) + 1 < count
      ensures old(index) + 1 < count ==>
        (more <==> DecodeStep(ElementType(dataType, index), old(rest)).Some?)
      ensures more ==> DecodeStep(ElementType(dataType, index), old(rest)) == Some(Step(value, rest))
    {
      if index + 1 >= count {
        return false;
      }
      index := index + 1;
      var t := ElementType(dataType, index);
      more, value, rest := DecodeValue(t, rest);
    }
  }

  /** The fields of a tuple or user type. */
  class TupleIterator {
    const types: seq<DataType>
    var next: nat
    var rest: seq<Byte>
    var value: Held

    constructor (types: seq<DataType>, rest: seq<Byte>)
      ensures this.types == types && next == 0 && this.rest == rest
    {
      this.types := types;
      next := 0;
      this.rest := rest;
      value := NullHeld;
    }

    method Next() returns (more: bool)
      requires next <= |types| && Sized(rest)
      modifies this
      ensures old(next) == |types| ==> !more && next == old(next) && rest == old(rest)
      ensures old(next) < |types| ==> next == old(next) + 1
      ensures more ==> old(next) < |types|
      ensures old(next) < |types| ==> (more <==> DecodeStep(types[old(next)], old(rest)).Some?)
      ensures more ==> DecodeStep(types[old(next)], old(rest)) == Some(Step(value, rest))
    {
      if next == |types| {
        return false;
      }
      next := next + 1;
      more, value, rest := DecodeValue(types[next - 1], rest);
    }
  }

  /** The values read so far in front of those still to be read. */
  ghost function After(done: seq<Value>, r: Option<Many>): Option<Many> {
    if r.Some? then Some(Many(done + r.value.values, r.value.rest)) else None
  }

  lemma AfterOne(done: seq<Value>, v: Value, r: Option<Many>)
    ensures After(done, Joined(Some(v), r)) == After(done + [v], r)
  {
    if r.Some? {
      assert done + ([v] + r.value.values) == (done + [v]) + r.value.values;
    }
  }

  lemma AfterNone(r: Option<Many>)
    ensures After([], r) == r
  {
    if r.Some? {
      assert [] + r.value.values == r.value.values;
    }
  }

  /** Going through a collection with its iterator. */
  method ReadCollection(t: DataType, announced: int, input: seq<Byte>) returns (r: Option<seq<Value>>)
    requires IsCollection(t)
    ensures r.Some? <==> ReadItems(t, 0, ItemCount(t, announced), input).Some?
    ensures r.Some? ==> r.value == ReadItems(t, 0, ItemCount(t, announced), input).value.values
    decreases t, 0
  {
    var it := new CollectionIterator(t, announced, input);
    ghost var all := ReadItems(t, 0, it.count, input);
    var values := [];
    var i := 0;
    AfterNone(all);
    while i < it.count
      invariant 0 <= i && it.index == i - 1
      invariant all == After(values, ReadItems(t, i, it.count, it.rest))
      decreases it.count - i
    {
      if !Sized(it.rest) {
        return None;
      }
      var more := it.Next();
      if !more {
        return None;
      }
      var v := ReadValue(ElementType(t, i), it.value);
      if v.None? {
        return None;
      }
      AfterOne(values, v.value, ReadItems(t, i + 1, it.count, it.rest));
      values, i := values + [v.value], i + 1;
    }
    r := Some(values);
  }

  /** Going through a tuple or user type value with its iterator. */
  method ReadTuple(types: seq<DataType>, input: seq<Byte>, t: DataType) returns (r: Option<seq<Value>>)
    requires forall k :: 0 <= k < |types| ==> types[k] < t
    ensures r.Some? <==> ReadFields(types, input, t).Some?
    ensures r.Some? ==> r.value == ReadFields(types, input, t).value.values
    decreases t, 0
  {
    var it := new TupleIterator(types, input);
    ghost var all := ReadFields(types, input, t);
    var values := [];
    var i := 0;
    assert types[0..] == types;
    AfterNone(all);
    while i < |types|
      invariant 0 <= i <= |types| && it.next == i
      invariant all == After(values, ReadFields(types[i..], it.rest, t))
    {
      if !Sized(it.rest) {
        return None;
      }
      var more := it.Next();
      assert types[i..][1..] == types[i + 1..];
      if !more {
        return None;
      }
      var v := ReadValue(types[i], it.value);
      if v.None? {
        return None;
      }
      AfterOne(values, v.value, ReadFields(types[i + 1..], it.rest, t));
      values, i := values + [v.value], i + 1;
    }
    r := Some(values);
  }

  /** A value read through the iterators as deep as it goes. */
  method ReadValue(t: DataType, held: Held) returns (v: Option<Value>)
    ensures v == Read(t, held)
    decreases t, 1
  {
    match held {
      case NullHeld => v := Some(Null);
      case BytesHeld(bytes) =>
        if !IsTuple(t) {
          return Some(Scalar(bytes));
        }
        var fields := ReadTuple(FieldTypes(t), bytes, t);
        v := if fields.Some? then Some(Tupled(fields.value)) else None;
      case CollectionHeld(count, rest) =>
        if !IsCollection(t) {
          return None;
        }
        var items := ReadCollection(t, count, rest);
        v := if items.Some? then Some(Collected(t.kind, items.value)) else None;
    }
  }
}
