/**
 * When text behind a complete class name changes the result of `parse_one`: the over-long slice of
 * a keyspace with arguments has to reach the end of the text.
 */
module ClassSuffixes {
  import opened Options
  import opened DataTypes
  import opened ClassText
  import opened ClassNames
  import opened ClassSlices

  // The text is `s` with `m` behind it, and more may follow

  /** The slice of the piece is cut short by the end of the text. */
  predicate AtEnd(s: string, m: string, p: Piece) {
    !p.Bare() && |s| + |m| < p.start + p.end
  }

  /** What the slice of the piece takes from behind its arguments. */
  function More(s: string, m: string, p: Piece): string
    requires p.In(s)
  {
    if p.Bare() then "" else (s + m)[p.end..Least(p.start + p.end, |s + m|)]
  }

  /** What more it takes when `extra` follows. */
  function Extra(s: string, m: string, p: Piece, extra: string): string {
    if AtEnd(s, m, p) then extra[..Least(|extra|, p.start + p.end - |s| - |m|)] else ""
  }

  /** The keyspace of a user type that is reached is cut short by the end of the text. */
  predicate Reaches(s: string, m: string)
    decreases |s|, 3
  {
    ReachesWrapped(s, m, WrappingOf(s))
  }

  predicate ReachesWrapped(s: string, m: string, w: Wrapping)
    decreases |s|, 2
  {
    if !w.wrapped then ReachesClass(s, m, HeadOf(s), w)
    else
      match Nested(s)
      case None => false
      case Some(p) =>
        ShorterText(s, p, true);
        AtEnd(s, m, p) && ReachesClass(p.Core(s), More(s, m, p), HeadOf(p.Core(s)), w)
  }

  predicate ReachesClass(s: string, m: string, head: ClassHead, w: Wrapping)
    decreases |s|, 1
  {
    match OutlineOf(s, head, w.tuple)
    case Bad => false
    case Leaf(_) => false
    case Parts(_, list) => AnyReaches(s, m, list)
    case UserParts(keyspace, _, fields) => AtEnd(s, m, keyspace) || AnyReaches(s, m, FieldPiecesOf(fields))
  }

  predicate AnyReaches(s: string, m: string, list: seq<Piece>)
    requires forall k :: 0 <= k < |list| ==> Within(s, list[k])
    decreases |s|, 0
  {
    exists k :: 0 <= k < |list| && (ShorterText(s, list[k], true);
      AtEnd(s, m, list[k]) && Reaches(list[k].Core(s), More(s, m, list[k])))
  }

  // The text of a piece, with and without what follows

  lemma PieceText(s: string, m: string, p: Piece)
    requires p.In(s) && p.In(s + m)
    ensures p.Text(s + m, false) == p.Core(s) + More(s, m, p)
  {
    if !p.Bare() {
      Spliced(p.name, s, m, p.start, p.end, Least(p.start + p.end, |s + m|));
    }
  }

  lemma Spliced(name: string, s: string, m: string, start: nat, end: nat, far: nat)
    requires start <= end <= |s| && end <= far <= |s + m|
    ensures name + (s + m)[start..far] == name + s[start..end] + (s + m)[end..far]
  {
    assert (s + m)[start..end] == s[start..end];
    assert (s + m)[start..far] == (s + m)[start..end] + (s + m)[end..far];
  }

  lemma MoreExtra(s: string, m: string, p: Piece, extra: string)
    requires p.In(s)
    ensures More(s, m + extra, p) == More(s, m, p) + Extra(s, m, p, extra)
  {
    if !p.Bare() {
      var all, long := s + m, s + (m + extra);
      var end, far := Least(p.start + p.end, |all|), Least(p.start + p.end, |long|);
      assert long[p.end..end] == all[p.end..end];
      assert long[p.end..far] == long[p.end..end] + long[end..far];
      if AtEnd(s, m, p) {
        assert long[|all|..far] == extra[..far - |all|];
      }
    }
  }

  /** The text of a piece in the shorter text and in the longer one. */
  lemma PieceTexts(s: string, m: string, extra: string, a: string, b: string, p: Piece)
    requires a == s + m && b == s + (m + extra) && extra != "" && p.In(s) && p.In(a) && p.In(b)
    ensures p.Text(a, false) == p.Core(s) + More(s, m, p)
    ensures p.Text(b, false) == p.Core(s) + (More(s, m, p) + Extra(s, m, p, extra))
    ensures AtEnd(s, m, p) ==> Complete(p.Core(s)) && Extra(s, m, p, extra) != ""
    ensures p.Text(a, false) == p.Text(b, false) <==> !AtEnd(s, m, p)
  {
    PieceText(s, m, p);
    PieceText(s, m + extra, p);
    MoreExtra(s, m, p, extra);
    if AtEnd(s, m, p) {
      CoreComplete(s, p);
    } else {
      assert More(s, m, p) + "" == More(s, m, p);
    }
  }

  // The theorem

  predicate PieceReaches(s: string, m: string, p: Piece)
    requires Within(s, p)
  {
    ShorterText(s, p, true);
    AtEnd(s, m, p) && Reaches(p.Core(s), More(s, m, p))
  }

  /**
   * Text behind a complete class name that stands for a type changes the result exactly when the
   * slice of a keyspace reaches the end of the name.
   */
  lemma {:induction false} SuffixShows(s: string, m: string, extra: string)
    requires Complete(s) && ParseOne(s, true) != Nil && extra != ""
    ensures ParseOne(s + (m + extra), false) != ParseOne(s + m, false) <==> Reaches(s, m)
    decreases |s|, 3
  {
    WrappingSame(s, m);
    WrappingSame(s, m + extra);
    WrappedShows(s, m, extra, s + m, s + (m + extra), WrappingOf(s));
  }

  lemma {:induction false} WrappedShows(s: string, m: string, extra: string, a: string, b: string, w: Wrapping)
    requires a == s + m && b == s + (m + extra) && extra != ""
    requires Complete(s) && ParseWrapped(s, w, true) != Nil
    ensures ParseWrapped(b, w, false) != ParseWrapped(a, w, false) <==> ReachesWrapped(s, m, w)
    decreases |s|, 2
  {
    if !w.wrapped {
      HeadSame(s, m);
      HeadSame(s, m + extra);
      ClassShows(s, m, extra, a, b, HeadOf(s), w);
    } else {
      NestedSame(s, m);
      NestedSame(s, m + extra);
      NestedShows(s, m, extra, a, b, w, Nested(s).value);
    }
  }

  lemma {:induction false} NestedShows(s: string, m: string, extra: string, a: string, b: string, w: Wrapping, p: Piece)
    requires a == s + m && b == s + (m + extra) && extra != ""
    requires ParseWrapped(s, w, true) != Nil && w.wrapped && Nested(s) == Nested(a) == Nested(b) == Some(p)
    ensures ParseWrapped(b, w, false) != ParseWrapped(a, w, false) <==> ReachesWrapped(s, m, w)
    decreases |s|, 1, 1
  {
    var core, more, rest := p.Core(s), More(s, m, p), Extra(s, m, p, extra);
    ShorterText(s, p, true);
    PieceTexts(s, m, extra, a, b, p);
    if AtEnd(s, m, p) {
      HeadSame(core, more);
      HeadSame(core, more + rest);
      ClassShows(core, more, rest, p.Text(a, false), p.Text(b, false), HeadOf(core), w);
    }
  }

  lemma {:induction false} ClassShows(s: string, m: string, extra: string, a: string, b: string,
                                      head: ClassHead, w: Wrapping)
    requires a == s + m && b == s + (m + extra) && extra != ""
    requires Complete(s) && ParseClass(s, head, w, true) != Nil
    ensures ParseClass(b, head, w, false) != ParseClass(a, head, w, false) <==> ReachesClass(s, m, head, w)
    decreases |s|, 1, 0
  {
    OutlineStays(s, m, head, w.tuple);
    OutlineStays(s, m + extra, head, w.tuple);
    match OutlineOf(s, head, w.tuple)
    case Bad =>
    case Leaf(_) =>
    case Parts(kind, list) =>
      PartsShow(s, m, extra, a, b, list);
    case UserParts(keyspace, hex, fields) =>
      UserShows(s, m, extra, a, b, keyspace, hex, fields);
  }

  lemma {:induction false} PartsShow(s: string, m: string, extra: string, a: string, b: string, list: seq<Piece>)
    requires a == s + m && b == s + (m + extra) && extra != ""
    requires forall k :: 0 <= k < |list| ==> Within(s, list[k]) && Within(a, list[k]) && Within(b, list[k])
    requires NoNil(TypesOf(s, list, true))
    ensures NoNil(TypesOf(a, list, false)) && NoNil(TypesOf(b, list, false))
    ensures TypesOf(b, list, false) != TypesOf(a, list, false) <==> AnyReaches(s, m, list)
    decreases |s|, 0, 1
  {
    TypesRelated(s, m, list);
    TypesRelated(s, m + extra, list);
    var long, short := TypesOf(b, list, false), TypesOf(a, list, false);
    forall k | 0 <= k < |list|
      ensures long[k] != short[k] <==> PieceReaches(s, m, list[k])
    {
      assert TypesOf(s, list, true)[k] != Nil;
      PieceShows(s, m, extra, a, b, list[k]);
    }
  }

  lemma {:induction false} PieceShows(s: string, m: string, extra: string, a: string, b: string, p: Piece)
    requires a == s + m && b == s + (m + extra) && extra != ""
    requires Within(s, p) && Within(a, p) && Within(b, p) && ParseOne(p.Core(s), true) != Nil
    ensures ParseOne(p.Text(b, false), false) != ParseOne(p.Text(a, false), false) <==> PieceReaches(s, m, p)
    decreases |s|, 0, 0
  {
    PieceTexts(s, m, extra, a, b, p);
    ShorterText(s, p, true);
    if AtEnd(s, m, p) {
      SuffixShows(p.Core(s), More(s, m, p), Extra(s, m, p, extra));
    }
  }

  lemma {:induction false} UserShows(s: string, m: string, extra: string, a: string, b: string,
                                     keyspace: Piece, hex: Piece, fields: seq<FieldPiece>)
    requires a == s + m && b == s + (m + extra) && extra != ""
    requires UserOutline(s, FirstEnd(s)) == UserParts(keyspace, hex, fields)
    requires keyspace.In(s) && keyspace.In(a) && keyspace.In(b) && hex.In(s) && hex.In(a) && hex.In(b)
    requires forall k :: 0 <= k < |fields| ==>
      Within(s, fields[k].piece) && Within(a, fields[k].piece) && Within(b, fields[k].piece)
    requires UserType(s, keyspace, hex, fields, true) != Nil
    ensures UserType(b, keyspace, hex, fields, false) != UserType(a, keyspace, hex, fields, false)
            <==> AtEnd(s, m, keyspace) || AnyReaches(s, m, FieldPiecesOf(fields))
    decreases |s|, 0, 2
  {
    var list := FieldPiecesOf(fields);
    PartsShow(s, m, extra, a, b, list);
    PieceTexts(s, m, extra, a, b, keyspace);
    HexSame(s, m, hex);
    HexSame(s, m + extra, hex);
    NameFollows(s, FirstEnd(s), keyspace, hex, fields);
    KeyspaceText(s, m, keyspace);
    KeyspaceText(s, m + extra, keyspace);
    UsersDiffer(keyspace.Text(b, false), keyspace.Text(a, false), hex.Text(b, false), hex.Text(a, false),
      FieldNames(fields), TypesOf(b, list, false), TypesOf(a, list, false));
  }

  /** The user type of the parts that were read. */
  function UserType(s: string, keyspace: Piece, hex: Piece, fields: seq<FieldPiece>, exact: bool): DataType
    requires keyspace.In(s) && hex.In(s) && forall k :: 0 <= k < |fields| ==> Within(s, fields[k].piece)
  {
    UserOf(keyspace.Text(s, exact), hex.Text(s, exact), FieldNames(fields), TypesOf(s, FieldPiecesOf(fields), exact))
  }

  lemma UsersDiffer(ks: string, ks': string, hex: string, hex': string, names: seq<string>,
                    types: seq<DataType>, types': seq<DataType>)
    requires |names| == |types| == |types'| && FromHex(hex) == FromHex(hex')
    requires UserOf(ks, hex, names, types) != Nil && UserOf(ks', hex', names, types') != Nil
    ensures UserOf(ks, hex, names, types) == UserOf(ks', hex', names, types') <==> ks == ks' && types == types'
  {
    if FieldsOf(names, types) == FieldsOf(names, types') {
      FieldsEqual(names, types, types');
    }
  }

  /**
   * Any text may follow a complete class name exactly when the name stands for no type, or no
   * keyspace slice reaches its end.
   */
  lemma SuffixIsIgnored(s: string, extra: string)
    requires Complete(s) && extra != ""
    ensures ParseOne(s + extra, false) == ParseOne(s, false) <==> ParseOne(s, true) == Nil || !Reaches(s, "")
  {
    SlicesAreHarmless(s, extra);
    SlicesAreHarmless(s, "");
    assert s + "" == s && "" + extra == extra;
    if ParseOne(s, true) != Nil {
      SuffixShows(s, "", extra);
    }
  }

  /** In a plain text there is no such keyspace. */
  lemma PlainNeverReaches(s: string)
    requires Complete(s) && Plain(s) && ParseOne(s, true) != Nil
    ensures !Reaches(s, "")
  {
    SlicesAreHarmless(s, "x");
    SlicesAreHarmless(s, "");
    assert s + "" == s;
    SuffixIsIgnored(s, "x");
  }
}
