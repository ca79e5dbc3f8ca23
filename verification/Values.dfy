/**
 * Values of tuples, user types and collections, the bytes that stand for them from
 * protocol version 3 on (section 6 of the CQL binary protocol v4), and reading them
 * back as the iterators do.
 */
module Values {
  import opened Options
  import opened Requests
  import opened DataTypes

  const INT32_SIZE := 4
  const INT32_RANGE := 0x1_0000_0000
  const INT32_LIMIT := 0x8000_0000

  /** A length or a count of the protocol: four bytes, the most significant first. */
  function Int32(n: int): (b: seq<Byte>)
    ensures |b| == INT32_SIZE
  {
    var u := n % INT32_RANGE;
    [u / 16777216 % 256, u / 65536 % 256, u / 256 % 256, u % 256]
  }

  function ToInt32(b: seq<Byte>): (n: int)
    requires |b| == INT32_SIZE
    ensures -INT32_LIMIT <= n < INT32_LIMIT
  {
    var u := 16777216 * (b[0] as int) + 65536 * (b[1] as int) + 256 * (b[2] as int) + b[3] as int;
    if u < INT32_LIMIT then u else u - INT32_RANGE
  }

  lemma Int32RoundTrip(n: int)
    requires -INT32_LIMIT <= n < INT32_LIMIT
    ensures ToInt32(Int32(n)) == n
  {
    var u := n % INT32_RANGE;
    var a, b, c, d := u / 16777216 % 256, u / 65536 % 256, u / 256 % 256, u % 256;
    assert u == d + 256 * (u / 256);
    assert u / 256 == c + 256 * (u / 65536) by { assert u / 256 / 256 == u / 65536; }
    assert u / 65536 == b + 256 * (u / 16777216) by { assert u / 65536 / 256 == u / 16777216; }
    assert u / 16777216 == a;
    assert u == 16777216 * a + 65536 * b + 256 * c + d;
    assert n >= 0 ==> u == n;
    assert n < 0 ==> u == n + INT32_RANGE;
  }

  /**
   * A value as an application builds it. A collection holds its items in the order
   * they were appended, a map the keys and values in turn. `Unset` is a field of a
   * tuple or user type that was never set.
   */
  datatype Value =
    | Scalar(bytes: seq<Byte>)
    | Null
    | Unset
    | Collected(kind: Kind, items: seq<Value>)
    | Tupled(fields: seq<Value>)

  /** The count that a collection announces: the pairs of a map. */
  function Count(kind: Kind, n: nat): nat {
    if kind == Map then n / 2 else n
  }

  /** A value without its length (`encode`). A null item of a collection is written as no bytes. */
  function Body(v: Value): seq<Byte>
    decreases v, 0
  {
    match v
    case Scalar(bytes) => bytes
    case Null => []
    case Unset => []
    case Collected(kind, items) => Int32(Count(kind, |items|)) + ItemBytes(items)
    case Tupled(fields) => FieldBytes(fields)
  }

  function ItemBytes(items: seq<Value>): seq<Byte> {
    if items == [] then [] else Int32(|Body(items[0])|) + Body(items[0]) + ItemBytes(items[1..])
  }

  /** A value with its length (`encode_with_length`); a field that was not set is written as null. */
  function WithLength(v: Value): seq<Byte>
    decreases v, 1
  {
    if v == Null || v == Unset then Int32(-1) else Int32(|Body(v)|) + Body(v)
  }

  function FieldBytes(fields: seq<Value>): seq<Byte> {
    if fields == [] then [] else WithLength(fields[0]) + FieldBytes(fields[1..])
  }

  // Types

  predicate IsCollection(t: DataType) {
    t.Composite? && t.kind != Tuple && |t.types| == (if t.kind == Map then 2 else 1)
  }

  predicate IsTuple(t: DataType) {
    t.User? || (t.Composite? && t.kind == Tuple)
  }

  /** The type of the item at an index: keys and values of a map alternate. */
  function ElementType(t: DataType, i: nat): (r: DataType)
    requires IsCollection(t)
    ensures r < t
  {
    if t.kind == Map then t.types[i % 2] else t.types[0]
  }

  function FieldTypes(t: DataType): (r: seq<DataType>)
    requires IsTuple(t)
    ensures forall k :: 0 <= k < |r| ==> r[k] < t
  {
    match t
    case Composite(_, types, _) => types
    case User(_, _, fields, _) => seq(|fields|, i requires 0 <= i < |fields| => fields[i].dataType)
  }

  /** The value is one of the type. Null belongs to every type, and only a field can be unset. */
  predicate HasType(v: Value, t: DataType)
    decreases v
  {
    match v
    case Scalar(_) => t.Simple? || t.Custom?
    case Null => true
    case Unset => true
    case Collected(kind, items) =>
      && IsCollection(t) && kind == t.kind && (kind == Map ==> |items| % 2 == 0)
      && forall i :: 0 <= i < |items| ==> items[i] != Unset && HasType(items[i], ElementType(t, i))
    case Tupled(fields) =>
      && IsTuple(t) && |fields| == |FieldTypes(t)|
      && forall i :: 0 <= i < |fields| ==> HasType(fields[i], FieldTypes(t)[i])
  }

  // Reading

  /** What one value of the input holds before it is looked into (`Value` of the driver). */
  datatype Held =
    | NullHeld
    | BytesHeld(bytes: seq<Byte>)
    | CollectionHeld(count: int, rest: seq<Byte>)

  datatype Step = Step(held: Held, rest: seq<Byte>)

  /** The content of a value of some length: a collection announces its count first. */
  function HeldIn(t: DataType, body: seq<Byte>): Option<Held> {
    if !IsCollection(t) then Some(BytesHeld(body))
    else if |body| < INT32_SIZE then None
    else Some(CollectionHeld(ToInt32(body[..INT32_SIZE]), body[INT32_SIZE..]))
  }

  /** The announced length lies within the input, which the original takes for granted. */
  predicate Sized(input: seq<Byte>) {
    INT32_SIZE <= |input| ==> ToInt32(input[..INT32_SIZE]) <= |input| - INT32_SIZE
  }

  /** `decode_value`: one value off the input. */
  function DecodeStep(t: DataType, input: seq<Byte>): Option<Step> {
    if |input| < INT32_SIZE || !Sized(input) then None
    else
      var size, rest := ToInt32(input[..INT32_SIZE]), input[INT32_SIZE..];
      if size < 0 then Some(Step(NullHeld, rest))
      else
        match HeldIn(t, rest[..size])
        case None => None
        case Some(held) => Some(Step(held, rest[size..]))
  }

  /** How many items the iterator of a collection goes through. */
  function ItemCount(t: DataType, count: int): int
    requires IsCollection(t)
  {
    if t.kind == Map then 2 * count else count
  }

  /** The whole value, read through the iterators; `None` when one of them stops early. */
  function Read(t: DataType, held: Held): Option<Value>
    decreases t, 2
  {
    match held
    case NullHeld => Some(Null)
    case BytesHeld(bytes) =>
      if !IsTuple(t) then Some(Scalar(bytes))
      else
        var r := ReadFields(FieldTypes(t), bytes, t);
        if r.Some? then Some(Tupled(r.value.values)) else None
    case CollectionHeld(count, rest) =>
      if !IsCollection(t) then None
      else
        var r := ReadItems(t, 0, ItemCount(t, count), rest);
        if r.Some? then Some(Collected(t.kind, r.value.values)) else None
  }

  /** The values read, and what is left of the input. */
  datatype Many = Many(values: seq<Value>, rest: seq<Byte>)

  function ReadItems(t: DataType, i: nat, count: int, input: seq<Byte>): Option<Many>
    requires IsCollection(t)
    decreases t, 1, count - i
  {
    if i >= count then Some(Many([], input))
    else
      match DecodeStep(ElementType(t, i), input)
      case None => None
      case Some(step) =>
        Joined(Read(ElementType(t, i), step.held), ReadItems(t, i + 1, count, step.rest))
  }

  function ReadFields(types: seq<DataType>, input: seq<Byte>, t: DataType): Option<Many>
    requires forall k :: 0 <= k < |types| ==> types[k] < t
    decreases t, 1, |types|
  {
    if types == [] then Some(Many([], input))
    else
      match DecodeStep(types[0], input)
      case None => None
      case Some(step) =>
        Joined(Read(types[0], step.held), ReadFields(types[1..], step.rest, t))
  }

  function Joined(first: Option<Value>, others: Option<Many>): Option<Many> {
    if first.Some? && others.Some? then Some(Many([first.value] + others.value.values, others.value.rest)) else None
  }

  /** The value read from a body of its own. */
  function ReadBody(t: DataType, body: seq<Byte>): Option<Value> {
    match HeldIn(t, body)
    case None => None
    case Some(held) => Read(t, held)
  }
}
