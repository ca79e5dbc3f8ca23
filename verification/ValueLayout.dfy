/**
 * The layout of values as the protocol has it (section 6 of the CQL binary protocol v4;
 * cpp-driver/src/serialization.hpp:102-116): counts and lengths take four bytes, the most
 * significant first, and stand in front of what they count.
 */
module ValueLayout {
  import opened Options
  import opened Requests
  import opened DataTypes
  import opened Values

  /** Bytes read as one number, the most significant byte first. */
  function BigEndian(b: seq<Byte>): nat {
    if b == [] then 0 else 256 * BigEndian(b[..|b| - 1]) + b[|b| - 1] as int
  }

  lemma BigEndianOfFour(b: seq<Byte>)
    requires |b| == 4
    ensures BigEndian(b) == 16777216 * (b[0] as int) + 65536 * (b[1] as int) + 256 * (b[2] as int) + b[3] as int
  {
    assert b[..3][..2] == b[..2] && b[..2][..1] == b[..1];
    assert BigEndian(b[..1]) == b[0] as int;
    assert BigEndian(b[..2]) == 256 * BigEndian(b[..1]) + b[1] as int;
    assert BigEndian(b[..3]) == 256 * BigEndian(b[..2]) + b[2] as int;
  }

  lemma BytesOfNumber(u: int)
    requires 0 <= u < INT32_RANGE
    ensures u == 16777216 * (u / 16777216 % 256) + 65536 * (u / 65536 % 256) + 256 * (u / 256 % 256) + u % 256
  {
    assert u / 256 / 256 == u / 65536;
    assert u / 65536 / 256 == u / 16777216;
    assert u == u % 256 + 256 * (u / 256);
    assert u / 256 == u / 256 % 256 + 256 * (u / 65536);
    assert u / 65536 == u / 65536 % 256 + 256 * (u / 16777216);
    assert u / 16777216 % 256 == u / 16777216;
  }

  /** What encode_int32 writes is the number, modulo 2^32, most significant byte first. */
  lemma Int32IsBigEndian(n: int)
    ensures BigEndian(Int32(n)) == n % 0x1_0000_0000
  {
    BigEndianOfFour(Int32(n));
    BytesOfNumber(n % INT32_RANGE);
  }

  /** What decode_int32 reads is the number in two's complement. */
  lemma ToInt32IsBigEndian(b: seq<Byte>)
    requires |b| == 4
    ensures ToInt32(b) == if b[0] < 128 then BigEndian(b) else BigEndian(b) - 0x1_0000_0000
  {
    BigEndianOfFour(b);
  }

  lemma Int32Landmarks()
    ensures Int32(0) == [0, 0, 0, 0] && Int32(-1) == [255, 255, 255, 255]
    ensures Int32(1) == [0, 0, 0, 1] && Int32(0x1020304) == [1, 2, 3, 4]
  {
  }

  lemma DigitOff(q: nat, d: nat)
    requires d < 256
    ensures (256 * q + d) / 256 == q && (256 * q + d) % 256 == d
  {
  }

  lemma Digits(a: nat, b: nat, c: nat, d: nat, u: nat)
    requires a < 256 && b < 256 && c < 256 && d < 256 && u == 256 * (256 * (256 * a + b) + c) + d
    ensures u / 16777216 % 256 == a && u / 65536 % 256 == b && u / 256 % 256 == c && u % 256 == d
  {
    DigitOff(256 * (256 * a + b) + c, d);
    DigitOff(256 * a + b, c);
    DigitOff(a, b);
    assert u / 65536 == u / 256 / 256 && u / 16777216 == u / 65536 / 256;
  }

  /** No other four bytes stand for the number. */
  lemma Int32Only(n: int, b: seq<Byte>)
    requires |b| == 4 && BigEndian(b) == n % INT32_RANGE
    ensures Int32(n) == b
  {
    BigEndianOfFour(b);
    Digits(b[0], b[1], b[2], b[3], BigEndian(b));
  }

  /** Any four bytes are the encoding of the number that they are read as. */
  lemma Int32Onto(b: seq<Byte>)
    requires |b| == 4
    ensures Int32(ToInt32(b)) == b
  {
    ToInt32IsBigEndian(b);
    BigEndianOfFour(b);
    Int32Only(ToInt32(b), b);
  }

  /** One more digit to the base 256 moves the others to the left. */
  lemma Int32Shift(n: int, d: Byte)
    requires 0 <= n < 0x80_0000
    ensures Int32(256 * n + d as int) == Int32(n)[1..] + [d]
  {
    Int32IsBigEndian(n);
    Shifted(Int32(n), n, d);
    Int32Only(256 * n + d as int, Int32(n)[1..] + [d]);
  }

  lemma Shifted(b: seq<Byte>, n: nat, d: Byte)
    requires |b| == 4 && BigEndian(b) == n < 0x80_0000
    ensures BigEndian(b[1..] + [d]) == 256 * n + d as int
  {
    BigEndianOfFour(b);
    BigEndianOfFour(b[1..] + [d]);
  }

  // Layout of values

  /** A collection starts with the number of its items, or of its pairs if it is a map. */
  lemma CollectionStartsWithCount(kind: Kind, items: seq<Value>)
    requires |items| < 0x8000_0000
    ensures |Body(Collected(kind, items))| >= 4
    ensures BigEndian(Body(Collected(kind, items))[..4]) == if kind == Map then |items| / 2 else |items|
  {
    Int32IsBigEndian(Count(kind, |items|));
    assert Body(Collected(kind, items))[..4] == Int32(Count(kind, |items|));
  }

  /** From place i on there are the length of a value, its bytes, and the rest. */
  ghost predicate ItemAt(all: seq<Byte>, i: nat, body: seq<Byte>, rest: seq<Byte>) {
    && i + 4 + |body| <= |all|
    && BigEndian(all[i..i + 4]) == |body|
    && all[i + 4..i + 4 + |body|] == body
    && all[i + 4 + |body|..] == rest
  }

  lemma ItemPlaced(all: seq<Byte>, a: seq<Byte>, body: seq<Byte>, c: seq<Byte>)
    requires |body| < 0x8000_0000 && all == a + (Int32(|body|) + body + []) + c
    ensures a <= all && ItemAt(all, |a|, body, c)
  {
    Int32IsBigEndian(|body|);
    assert all[|a|..|a| + 4] == Int32(|body|);
  }

  /** Its items follow in order, each behind its length; a null item has no bytes. */
  lemma ItemsInOrder(before: seq<Value>, v: Value, after: seq<Value>, all: seq<Byte>)
    requires |Body(v)| < 0x8000_0000 && all == ItemBytes(before + [v] + after)
    ensures ItemBytes(before) <= all && ItemAt(all, |ItemBytes(before)|, Body(v), ItemBytes(after))
  {
    ItemsJoin(before + [v], after);
    ItemsJoin(before, [v]);
    assert ItemBytes([v]) == Int32(|Body(v)|) + Body(v) + [];
    ItemPlaced(all, ItemBytes(before), Body(v), ItemBytes(after));
  }

  lemma {:induction false} ItemsJoin(a: seq<Value>, b: seq<Value>)
    ensures ItemBytes(a + b) == ItemBytes(a) + ItemBytes(b)
    decreases |a|
  {
    if a == [] {
      assert a + b == b;
    } else {
      ItemsJoin(a[1..], b);
      assert (a + b)[1..] == a[1..] + b;
      Associated(Int32(|Body(a[0])|) + Body(a[0]), ItemBytes(a[1..]), ItemBytes(b));
    }
  }

  lemma Associated(a: seq<Byte>, b: seq<Byte>, c: seq<Byte>)
    ensures a + (b + c) == a + b + c
  {
  }

  /** A field is its length and its bytes; the length of a null or unset one is minus one. */
  lemma FieldIsLengthAndBytes(v: Value)
    requires |Body(v)| < 0x8000_0000
    ensures v == Null || v == Unset <==> WithLength(v) == [255, 255, 255, 255]
    ensures v != Null && v != Unset ==>
              |WithLength(v)| >= 4 && BigEndian(WithLength(v)[..4]) == |Body(v)| && WithLength(v)[4..] == Body(v)
  {
    Int32Landmarks();
    Int32IsBigEndian(|Body(v)|);
    if v != Null && v != Unset {
      assert WithLength(v)[..4] == Int32(|Body(v)|);
      BigEndianOfFour(Int32(|Body(v)|));
    }
  }

  /** A tuple or user type is its fields in order. */
  lemma {:induction false} FieldsJoin(a: seq<Value>, b: seq<Value>)
    ensures FieldBytes(a + b) == FieldBytes(a) + FieldBytes(b)
    decreases |a|
  {
    if a == [] {
      assert a + b == b;
    } else {
      FieldsJoin(a[1..], b);
      assert (a + b)[1..] == a[1..] + b;
      Associated(WithLength(a[0]), FieldBytes(a[1..]), FieldBytes(b));
    }
  }

  /** Reading takes the length off the input, and as many bytes as it says unless it is negative. */
  lemma StepTakesLength(t: DataType, input: seq<Byte>)
    requires |input| >= 4 && Sized(input)
    ensures var n := BigEndian(input[..4]);
            if n >= 0x8000_0000 then DecodeStep(t, input) == Some(Step(NullHeld, input[4..]))
            else
              && 4 + n <= |input|
              && (!IsCollection(t) ==> DecodeStep(t, input) == Some(Step(BytesHeld(input[4..4 + n]), input[4 + n..])))
              && (IsCollection(t) && n >= 4 ==>
                    DecodeStep(t, input)
                    == Some(Step(CollectionHeld(ToInt32(input[4..8]), input[8..4 + n]), input[4 + n..])))
              && (IsCollection(t) && n < 4 ==> DecodeStep(t, input) == None)
  {
    ToInt32IsBigEndian(input[..4]);
    BigEndianOfFour(input[..4]);
    var n := BigEndian(input[..4]);
    if n < 0x8000_0000 {
      assert input[4..][..n] == input[4..4 + n] && input[4..][n..] == input[4 + n..];
      if n >= 4 {
        assert input[4..4 + n][..4] == input[4..8] && input[4..4 + n][4..] == input[8..4 + n];
      }
    }
  }

  /** The items of a map are its keys and values in turn, each of the type of its own. */
  lemma KeysAndValuesInTurn(items: seq<Value>, t: DataType, k: nat)
    requires t.Composite? && t.kind == Map && HasType(Collected(Map, items), t) && 2 * k + 1 < |items|
    ensures |t.types| == 2 && HasType(items[2 * k], t.types[0]) && HasType(items[2 * k + 1], t.types[1])
  {
    assert ElementType(t, 2 * k) == t.types[0] && ElementType(t, 2 * k + 1) == t.types[1];
  }

  /** The fields of a tuple or user type are of the declared types, in the declared order. */
  lemma FieldsAsDeclared(fields: seq<Value>, t: DataType, i: nat)
    requires HasType(Tupled(fields), t) && i < |fields|
    ensures t.User? ==> |t.fields| == |fields| && HasType(fields[i], t.fields[i].dataType)
    ensures t.Composite? ==> t.kind == Tuple && |t.types| == |fields| && HasType(fields[i], t.types[i])
  {
    assert HasType(fields[i], FieldTypes(t)[i]);
  }
}
