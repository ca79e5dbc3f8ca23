/** Class names without arguments, alone, inside a list and with more text behind them. */
module ClassBareNames {
  import opened Options
  import opened DataTypes
  import opened ClassText
  import opened ClassNames
  import opened ClassSlices
  import opened ClassTextLemmas
  import opened ClassRoundTrip

  // Inside a list

  predicate AllNames(items: seq<string>) {
    forall k :: 0 <= k < |items| ==> IsIdentifier(items[k]) && items[k] != ""
  }

  function BareParts(items: seq<string>): seq<Part> {
    seq(|items|, k requires 0 <= k < |items| => Part(items[k], None))
  }

  /** A collection or tuple of names without arguments. */
  function ListText(kind: Kind, items: seq<string>): string {
    Part(MARSHAL + ShortKind(kind), Some(Joined(BareParts(items)))).Text()
  }

  function Each(items: seq<string>): seq<DataType> {
    seq(|items|, k requires 0 <= k < |items| => ParseOne(items[k], false))
  }

  /** How many parameters a collection needs. */
  function Needed(kind: Kind): nat { if kind == Map then 2 else 1 }

  /** The items of a tuple are parsed as if each stood alone. */
  lemma BareTuple(items: seq<string>)
    requires AllNames(items)
    ensures ParseOne(ListText(Tuple, items), false) == Gathered(Tuple, Each(items), false)
  {
    var s := ListText(Tuple, items);
    var pieces := ListPieces(Tuple, items);
    var w := Wrapping(false, false, true);
    TupleIs(s, w, pieces);
    OneIsClass(s, HeadOf(s), w);
    StandBare(s, pieces, items);
  }

  /** So are those of a collection; there is no type if there are too few, and further ones are ignored. */
  lemma BareItems(kind: Kind, items: seq<string>)
    requires AllNames(items) && kind != Tuple
    ensures ParseOne(ListText(kind, items), false)
            == if |items| < Needed(kind) then Nil else Gathered(kind, Each(items[..Needed(kind)]), false)
  {
    var s := ListText(kind, items);
    var pieces := ListPieces(kind, items);
    var w, n := Wrapping(false, false, false), Needed(kind);
    CollectionIs(s, w, kind, pieces);
    OneIsClass(s, HeadOf(s), w);
    if n <= |items| {
      FirstItems(s, pieces, items, n);
    }
  }

  lemma ListPieces(kind: Kind, items: seq<string>) returns (pieces: seq<Piece>)
    requires AllNames(items)
    ensures var s := ListText(kind, items);
            && TypeParams(s, FirstEnd(s)) == Pieces(true, pieces) && Stand(s, pieces, BareParts(items))
            && (forall k :: 0 <= k < |pieces| ==> Within(s, pieces[k]))
            && HeadOf(s) == (if kind == Tuple then OtherHead else CollectionHead(kind))
            && WrappingOf(s) == Wrapping(false, false, kind == Tuple)
  {
    var part, parts := Part(MARSHAL + ShortKind(kind), Some(Joined(BareParts(items)))), BareParts(items);
    ShortsAreIdentifiers(kind);
    MarshalName(ShortKind(kind));
    JoinedBalanced(parts);
    OwnHead(part);
    OwnParams(part, parts);
    KindHead(kind);
    KindWrapping(kind, Suffix(part.inside));
    pieces := TypeParams(part.Text(), |part.name|).list;
  }

  lemma FirstItems(s: string, pieces: seq<Piece>, items: seq<string>, n: nat)
    requires AllNames(items) && Stand(s, pieces, BareParts(items)) && n <= |items|
    requires forall k :: 0 <= k < |pieces| ==> Within(s, pieces[k])
    ensures TypesOf(s, pieces[..n], false) == Each(items[..n])
  {
    assert BareParts(items[..n]) == BareParts(items)[..n];
    StandBare(s, pieces[..n], items[..n]);
  }

  lemma TupleIs(s: string, w: Wrapping, pieces: seq<Piece>)
    requires TypeParams(s, FirstEnd(s)) == Pieces(true, pieces) && w == Wrapping(false, false, true)
    ensures forall k :: 0 <= k < |pieces| ==> Within(s, pieces[k])
    ensures ParseClass(s, OtherHead, w, false) == Gathered(Tuple, TypesOf(s, pieces, false), false)
  {
    assert OutlineOf(s, OtherHead, w.tuple) == Parts(Tuple, pieces);
  }

  lemma CollectionIs(s: string, w: Wrapping, kind: Kind, pieces: seq<Piece>)
    requires TypeParams(s, FirstEnd(s)) == Pieces(true, pieces) && kind != Tuple && w == Wrapping(false, false, false)
    ensures forall k :: 0 <= k < |pieces| ==> Within(s, pieces[k])
    ensures ParseClass(s, CollectionHead(kind), w, false)
            == if |pieces| < Needed(kind) then Nil
               else Gathered(kind, TypesOf(s, pieces[..Needed(kind)], false), false)
  {
    var n := Needed(kind);
    assert OutlineOf(s, CollectionHead(kind), false) == if |pieces| < n then Bad else Parts(kind, pieces[..n]);
  }

  lemma StandBare(s: string, pieces: seq<Piece>, items: seq<string>)
    requires AllNames(items) && Stand(s, pieces, BareParts(items))
    requires forall k :: 0 <= k < |pieces| ==> Within(s, pieces[k])
    ensures TypesOf(s, pieces, false) == Each(items)
  {
    forall k | 0 <= k < |items|
      ensures TypesOf(s, pieces, false)[k] == ParseOne(items[k], false)
    {
      assert StandsFor(s, pieces[k], BareParts(items)[k]);
      assert Part(items[k], None).Text() == items[k];
      BareStands(s, pieces[k], items[k]);
      BarePiece(s, pieces, k);
    }
  }

  lemma BareStands(s: string, piece: Piece, item: string)
    requires piece.In(s) && piece.Core(s) == item && IsIdentifier(item)
    ensures piece.Bare() && piece.name == item
  {
    CoreIsName(s, piece);
  }

  lemma CoreIsName(s: string, piece: Piece)
    requires piece.In(s)
    ensures IsIdentifier(piece.Core(s)) ==> piece.Bare()
  {
    if !piece.Bare() {
      assert piece.Core(s)[|piece.name|] == '(';
    }
  }

  /** So a bare tuple class is the empty tuple inside a list too. */
  lemma EmptyTupleInside()
    ensures ParseOne(MARSHAL + TUPLE_TYPE, false) == Composite(Tuple, [], true)
    ensures ParseOne(ListText(List, [MARSHAL + TUPLE_TYPE]), false)
            == Composite(List, [Composite(Tuple, [], true)], false)
  {
    ShortsAreIdentifiers(Tuple);
    MarshalName(TUPLE_TYPE);
    BareTupleFacts();
    BareTupleParse(MARSHAL + TUPLE_TYPE);
    BareItems(List, [MARSHAL + TUPLE_TYPE]);
    assert [MARSHAL + TUPLE_TYPE][..1] == [MARSHAL + TUPLE_TYPE];
    assert Each([MARSHAL + TUPLE_TYPE]) == [Composite(Tuple, [], true)];
  }

  lemma BareTupleFacts()
    ensures var s := MARSHAL + TUPLE_TYPE;
            FirstEnd(s) == |s| && HeadOf(s) == OtherHead && WrappingOf(s) == Wrapping(false, false, true)
  {
    ShortsAreIdentifiers(Tuple);
    MarshalName(TUPLE_TYPE);
    BareHead(MARSHAL + TUPLE_TYPE);
    KindHead(Tuple);
    KindWrapping(Tuple, "");
    assert MARSHAL + ShortKind(Tuple) + "" == MARSHAL + TUPLE_TYPE;
  }

  lemma BareHead(s: string)
    requires IsIdentifier(s) && s != ""
    ensures FirstEnd(s) == |s| && FirstName(s) == s
  {
    assert Part(s, None).Text() == s;
    OwnHead(Part(s, None));
  }

  lemma BareTupleParse(s: string)
    requires FirstEnd(s) == |s| && HeadOf(s) == OtherHead && WrappingOf(s) == Wrapping(false, false, true)
    ensures ParseOne(s, false) == Composite(Tuple, [], true)
  {
    var w := Wrapping(false, false, true);
    assert TypeParams(s, |s|) == Pieces(true, []);
    TupleIs(s, w, []);
    OneIsClass(s, OtherHead, w);
    assert TypesOf(s, [], false) == [];
  }

  // With more text behind

  /** A bare user class is no type, and is one when the rest of a user type follows any character. */
  lemma BareUserTakes(open: string, ks: string, name: string)
    requires open == "," || open == ")"
    requires IsIdentifier(ks) && ks != "" && IsBytes(name) && name != ""
    ensures ParseOne(MARSHAL + USER_TYPE, false) == Nil
    ensures ParseOne(MARSHAL + USER_TYPE + (open + (ks + "," + ToHex(name) + "") + ")"), false)
            == User(ks, name, [], true)
  {
    var s, t := MARSHAL + USER_TYPE, open + (ks + "," + ToHex(name) + "") + ")";
    BareUserHead(s);
    BareWrapping(s, t);
    BareFirst(s, t);
    BareUser(s);
    BareUserParse(s, s);
    var ksPart := Part(ks, None);
    assert ksPart.Text() == ks;
    WholeHere(s, t);
    var keyspace, hex := OddRead(s + t, |s|, open, ksPart, name);
    HexRoundTrip(name);
    BareUserIs(s + t, s, keyspace, hex, ks, name);
  }

  lemma BareUserHead(s: string)
    requires s == MARSHAL + USER_TYPE
    ensures FirstEnd(s) == |s| && HeadOf(s) == UserHead
  {
    ShortsAreIdentifiers(List);
    MarshalName(USER_TYPE);
    BareHead(s);
    UserClassHead();
  }

  lemma BareUserIs(s: string, bare: string, keyspace: Piece, hex: Piece, ks: string, name: string)
    requires FirstEnd(s) == |bare| && HeadOf(s) == UserHead && WrappingOf(s) == Wrapping(false, false, false)
    requires UserOutline(s, |bare|) == UserParts(keyspace, hex, [])
    requires keyspace.Bare() && keyspace.name == ks && ks != ""
    requires hex.Bare() && FromHex(hex.name) == Some(name) && name != ""
    ensures ParseOne(s, false) == User(ks, name, [], true)
  {
    OneIsClass(s, UserHead, Wrapping(false, false, false));
    UserClassAlone(s, Wrapping(false, false, false), keyspace, hex);
    assert FieldsOf([], []) == [];
  }

  lemma UserClassAlone(s: string, w: Wrapping, keyspace: Piece, hex: Piece)
    requires UserOutline(s, FirstEnd(s)) == UserParts(keyspace, hex, []) && keyspace.Bare() && hex.Bare()
    ensures ParseClass(s, UserHead, w, false) == UserOf(keyspace.name, hex.name, [], [])
  {
    assert OutlineOf(s, UserHead, w.tuple) == UserParts(keyspace, hex, []);
    var types := TypesOf(s, FieldPiecesOf([]), false);
    assert types == [] && FieldNames([]) == [];
    assert keyspace.Text(s, false) == keyspace.name && hex.Text(s, false) == hex.name;
  }

  // Inside FrozenType and ReversedType

  /** Whether a text is a tuple is asked of the outer name, so a wrapped tuple is a custom type. */
  lemma WrappedTupleIsCustom(outer: string, inside: string)
    requires (outer == FROZEN_TYPE || outer == REVERSED_TYPE) && Balanced(inside)
    ensures ParseOne(WrappedText(MARSHAL + outer, MARSHAL + TUPLE_TYPE, inside), false) == Custom(MARSHAL + TUPLE_TYPE)
  {
    OuterName(outer);
    TupleName();
    OuterWrapping(outer, "(" + Part(MARSHAL + TUPLE_TYPE, Some(inside)).Text() + ")");
    WrappedIsCustom(MARSHAL + outer, MARSHAL + TUPLE_TYPE, inside);
  }

  /** There must be one class inside, no more and no fewer. */
  lemma WrapsOne(outer: string, items: seq<string>)
    requires (outer == FROZEN_TYPE || outer == REVERSED_TYPE) && AllNames(items) && |items| != 1
    ensures ParseOne(Part(MARSHAL + outer, Some(Joined(BareParts(items)))).Text(), false) == Nil
  {
    var part, parts := Part(MARSHAL + outer, Some(Joined(BareParts(items)))), BareParts(items);
    OuterName(outer);
    JoinedBalanced(parts);
    OwnHead(part);
    OwnParams(part, parts);
    OuterWrapping(outer, Suffix(part.inside));
    NoneNested(part.Text());
  }

  lemma NoneNested(s: string)
    requires WrappingOf(s).wrapped && |TypeParams(s, FirstEnd(s)).list| != 1
    ensures ParseOne(s, false) == Nil
  {
  }

  function WrappedText(outer: string, inner: string, inside: string): string {
    Part(outer, Some(Part(inner, Some(inside)).Text())).Text()
  }

  lemma WrappedIsCustom(outer: string, inner: string, inside: string)
    requires IsIdentifier(outer) && outer != "" && IsIdentifier(inner) && inner != "" && Balanced(inside)
    requires var w := WrappingOf(WrappedText(outer, inner, inside)); w.wrapped && !w.tuple
    requires ClassHeadOf(inner) == OtherHead && ByClass(inner) == None
    ensures ParseOne(WrappedText(outer, inner, inside), false) == Custom(inner)
  {
    var nested := Part(inner, Some(inside));
    var s := WrappedText(outer, inner, inside);
    var p := NestedPiece(outer, nested, s);
    var text := NestedText(nested, s, p);
    WrappedLeaf(s, WrappingOf(s), p, text, inner);
  }

  lemma NestedPiece(outer: string, nested: Part, s: string) returns (p: Piece)
    requires IsIdentifier(outer) && outer != "" && nested.Readable() && s == Part(outer, Some(nested.Text())).Text()
    ensures Nested(s) == Some(p) && StandsFor(s, p, nested)
  {
    var part := Part(outer, Some(nested.Text()));
    PartBalanced(nested);
    assert Joined([nested]) == nested.Text();
    OwnHead(part);
    OwnParams(part, [nested]);
    p := TypeParams(s, |outer|).list[0];
    assert StandsFor(s, p, [nested][0]);
  }

  lemma NestedText(nested: Part, s: string, p: Piece) returns (text: string)
    requires nested.Readable() && nested.inside.Some? && StandsFor(s, p, nested)
    ensures text == p.Text(s, false) && FirstName(text) == nested.name && HeadOf(text) == ClassHeadOf(nested.name)
  {
    var core := nested.Text();
    OwnHead(nested);
    assert s + "" == s;
    var more := LongText(s, "", p);
    FirstSame(core, more);
    text := core + more;
    assert FirstName(text) == nested.name;
  }

  lemma WrappedLeaf(s: string, w: Wrapping, p: Piece, text: string, name: string)
    requires WrappingOf(s) == w && w.wrapped && !w.tuple && Nested(s) == Some(p) && p.Text(s, false) == text
    requires HeadOf(text) == OtherHead && FirstName(text) == name && ByClass(name) == None
    ensures ParseOne(s, false) == Custom(name)
  {
    ShorterText(s, p, false);
    LeafAlone(text, w, name);
  }

  lemma LeafAlone(s: string, w: Wrapping, name: string)
    requires FirstName(s) == name && !w.tuple
    ensures ParseClass(s, OtherHead, w, false) == LeafType(name)
  {
    assert OutlineOf(s, OtherHead, w.tuple) == Leaf(name);
  }

  lemma OuterName(outer: string)
    requires outer == FROZEN_TYPE || outer == REVERSED_TYPE
    ensures IsIdentifier(MARSHAL + outer) && MARSHAL + outer != ""
  {
    OuterIsIdentifier(outer);
    MarshalName(outer);
  }

  lemma OuterIsIdentifier(outer: string)
    requires outer == FROZEN_TYPE || outer == REVERSED_TYPE
    ensures IsIdentifier(outer)
  {
  }

  lemma OuterWrapping(outer: string, rest: string)
    requires outer == FROZEN_TYPE || outer == REVERSED_TYPE
    ensures var w := WrappingOf(MARSHAL + outer + rest); w.wrapped && !w.tuple
  {
    SameClass(outer, rest);
    NotClass(outer, rest, TUPLE_TYPE);
  }

  lemma TupleName()
    ensures IsIdentifier(MARSHAL + TUPLE_TYPE) && MARSHAL + TUPLE_TYPE != ""
    ensures ClassHeadOf(MARSHAL + TUPLE_TYPE) == OtherHead && ByClass(MARSHAL + TUPLE_TYPE) == None
  {
    ShortsAreIdentifiers(Tuple);
    MarshalName(TUPLE_TYPE);
    KindHead(Tuple);
    TupleSign();
    NoSuchClass(TUPLE_TYPE);
  }

  lemma TupleSign()
    ensures Sign(TUPLE_TYPE) == (9, 't', 'u')
  {
  }

  lemma NoSuchClass(short: string)
    requires |short| >= 2 && Sign(short) == (9, 't', 'u')
    ensures ByClass(MARSHAL + short) == None
  {
    var lower := Lowered(MARSHAL + short);
    MarshalIsLower();
    assert lower == MARSHAL + Lowered(short);
    PackagePrefix(lower, Lowered(short));
    NoneNamed(CLASS_TYPES, short);
  }

  lemma {:induction false} NoneNamed(types: seq<SimpleType>, short: string)
    requires |short| >= 2 && Sign(short) == (9, 't', 'u') && forall u <- types :: u in CLASS_TYPES
    ensures FirstNamed(types, Lowered(short)) == None
    decreases |types|
  {
    if types != [] {
      HasClass(types[0]);
      SignOf(types[0]);
      SignsDiffer(ShortClass(types[0]), short);
      NoneNamed(types[1..], short);
    }
  }
}
