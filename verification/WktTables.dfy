/** The scanner tables of src/wkt.cpp:18-119, and the table lookup of its main loop. */
module WktTables {
  function Actions(i: int): int {
    match i
    case 0 => 0 case 1 => 1 case 2 => 0 case 3 => 1 case 4 => 1 case 5 => 1
    case 6 => 2 case 7 => 1 case 8 => 5 case 9 => 1 case 10 => 6 case 11 => 1
    case 12 => 7 case 13 => 1 case 14 => 8 case 15 => 1 case 16 => 9 case 17 => 1
    case 18 => 10 case 19 => 1 case 20 => 11 case 21 => 1 case 22 => 12 case 23 => 1
    case 24 => 13 case 25 => 1 case 26 => 14 case 27 => 1 case 28 => 15 case 29 => 1
    case 30 => 16 case 31 => 1 case 32 => 17 case 33 => 1 case 34 => 18 case 35 => 2
    case 36 => 2 case 37 => 3 case 38 => 2 case 39 => 2 case 40 => 4
    case _ => 0
  }

  function KeyOffsets(i: int): int {
    match i
    case 0 => 0 case 1 => 2 case 2 => 6 case 3 => 8 case 4 => 9 case 5 => 10
    case 6 => 11 case 7 => 12 case 8 => 13 case 9 => 14 case 10 => 15 case 11 => 16
    case 12 => 17 case 13 => 18 case 14 => 19 case 15 => 21 case 16 => 22 case 17 => 23
    case 18 => 24 case 19 => 25 case 20 => 26 case 21 => 27 case 22 => 40 case 23 => 43
    case 24 => 47 case 25 => 49 case 26 => 54 case 27 => 56 case 28 => 57 case 29 => 58
    case _ => 0
  }

  function TransKeys(i: int): int {
    match i
    case 0 => 48 case 1 => 57 case 2 => 43 case 3 => 45 case 4 => 48 case 5 => 57
    case 6 => 48 case 7 => 57 case 8 => 80 case 9 => 84 case 10 => 89 case 11 => 78
    case 12 => 69 case 13 => 83 case 14 => 84 case 15 => 82 case 16 => 73 case 17 => 78
    case 18 => 71 case 19 => 73 case 20 => 76 case 21 => 78 case 22 => 84 case 23 => 89
    case 24 => 71 case 25 => 79 case 26 => 78 case 27 => 9 case 28 => 32 case 29 => 40
    case 30 => 41 case 31 => 44 case 32 => 46 case 33 => 69 case 34 => 76 case 35 => 80
    case 36 => 43 case 37 => 45 case 38 => 48 case 39 => 57 case 40 => 46 case 41 => 48
    case 42 => 57 case 43 => 69 case 44 => 101 case 45 => 48 case 46 => 57 case 47 => 48
    case 48 => 57 case 49 => 46 case 50 => 69 case 51 => 101 case 52 => 48 case 53 => 57
    case 54 => 48 case 55 => 57 case 56 => 77 case 57 => 73 case 58 => 79 case 59 => 0
    case _ => 0
  }

  function SingleLengths(i: int): int {
    match i
    case 0 => 0 case 1 => 2 case 2 => 0 case 3 => 1 case 4 => 1 case 5 => 1
    case 6 => 1 case 7 => 1 case 8 => 1 case 9 => 1 case 10 => 1 case 11 => 1
    case 12 => 1 case 13 => 1 case 14 => 2 case 15 => 1 case 16 => 1 case 17 => 1
    case 18 => 1 case 19 => 1 case 20 => 1 case 21 => 9 case 22 => 1 case 23 => 2
    case 24 => 0 case 25 => 3 case 26 => 0 case 27 => 1 case 28 => 1 case 29 => 1
    case _ => 0
  }

  function RangeLengths(i: int): int {
    match i
    case 0 => 1 case 1 => 1 case 2 => 1 case 3 => 0 case 4 => 0 case 5 => 0
    case 6 => 0 case 7 => 0 case 8 => 0 case 9 => 0 case 10 => 0 case 11 => 0
    case 12 => 0 case 13 => 0 case 14 => 0 case 15 => 0 case 16 => 0 case 17 => 0
    case 18 => 0 case 19 => 0 case 20 => 0 case 21 => 2 case 22 => 1 case 23 => 1
    case 24 => 1 case 25 => 1 case 26 => 1 case 27 => 0 case 28 => 0 case 29 => 0
    case _ => 0
  }

  function IndexOffsets(i: int): int {
    match i
    case 0 => 0 case 1 => 2 case 2 => 6 case 3 => 8 case 4 => 10 case 5 => 12
    case 6 => 14 case 7 => 16 case 8 => 18 case 9 => 20 case 10 => 22 case 11 => 24
    case 12 => 26 case 13 => 28 case 14 => 30 case 15 => 33 case 16 => 35 case 17 => 37
    case 18 => 39 case 19 => 41 case 20 => 43 case 21 => 45 case 22 => 57 case 23 => 60
    case 24 => 64 case 25 => 66 case 26 => 71 case 27 => 73 case 28 => 75 case 29 => 77
    case _ => 0
  }

  function TransTargs(i: int): int {
    match i
    case 0 => 23 case 1 => 21 case 2 => 2 case 3 => 2 case 4 => 24 case 5 => 21
    case 6 => 24 case 7 => 21 case 8 => 4 case 9 => 21 case 10 => 5 case 11 => 21
    case 12 => 21 case 13 => 21 case 14 => 7 case 15 => 21 case 16 => 8 case 17 => 21
    case 18 => 9 case 19 => 21 case 20 => 10 case 21 => 21 case 22 => 11 case 23 => 21
    case 24 => 12 case 25 => 21 case 26 => 13 case 27 => 21 case 28 => 21 case 29 => 21
    case 30 => 15 case 31 => 17 case 32 => 21 case 33 => 16 case 34 => 21 case 35 => 21
    case 36 => 21 case 37 => 18 case 38 => 21 case 39 => 19 case 40 => 21 case 41 => 20
    case 42 => 21 case 43 => 21 case 44 => 21 case 45 => 21 case 46 => 21 case 47 => 21
    case 48 => 21 case 49 => 21 case 50 => 26 case 51 => 27 case 52 => 28 case 53 => 29
    case 54 => 22 case 55 => 25 case 56 => 21 case 57 => 0 case 58 => 25 case 59 => 21
    case 60 => 1 case 61 => 1 case 62 => 23 case 63 => 21 case 64 => 24 case 65 => 21
    case 66 => 0 case 67 => 1 case 68 => 1 case 69 => 25 case 70 => 21 case 71 => 23
    case 72 => 21 case 73 => 3 case 74 => 21 case 75 => 6 case 76 => 21 case 77 => 14
    case 78 => 21 case 79 => 21 case 80 => 21 case 81 => 21 case 82 => 21 case 83 => 21
    case 84 => 21 case 85 => 21 case 86 => 21 case 87 => 21 case 88 => 21 case 89 => 21
    case 90 => 21 case 91 => 21 case 92 => 21 case 93 => 21 case 94 => 21 case 95 => 21
    case 96 => 21 case 97 => 21 case 98 => 21 case 99 => 21 case 100 => 21 case 101 => 21
    case 102 => 21 case 103 => 21 case 104 => 21 case 105 => 21 case 106 => 21 case 107 => 21
    case 108 => 0
    case _ => 0
  }

  function TransActions(i: int): int {
    match i
    case 0 => 5 case 1 => 33 case 2 => 0 case 3 => 0 case 4 => 0 case 5 => 29
    case 6 => 0 case 7 => 29 case 8 => 0 case 9 => 31 case 10 => 0 case 11 => 31
    case 12 => 13 case 13 => 31 case 14 => 0 case 15 => 31 case 16 => 0 case 17 => 31
    case 18 => 0 case 19 => 31 case 20 => 0 case 21 => 31 case 22 => 0 case 23 => 31
    case 24 => 0 case 25 => 31 case 26 => 0 case 27 => 31 case 28 => 9 case 29 => 31
    case 30 => 0 case 31 => 0 case 32 => 31 case 33 => 0 case 34 => 31 case 35 => 7
    case 36 => 31 case 37 => 0 case 38 => 31 case 39 => 0 case 40 => 31 case 41 => 0
    case 42 => 31 case 43 => 11 case 44 => 31 case 45 => 21 case 46 => 21 case 47 => 15
    case 48 => 17 case 49 => 19 case 50 => 0 case 51 => 5 case 52 => 5 case 53 => 5
    case 54 => 38 case 55 => 35 case 56 => 23 case 57 => 0 case 58 => 35 case 59 => 27
    case 60 => 0 case 61 => 0 case 62 => 5 case 63 => 25 case 64 => 0 case 65 => 25
    case 66 => 0 case 67 => 0 case 68 => 0 case 69 => 35 case 70 => 25 case 71 => 5
    case 72 => 27 case 73 => 0 case 74 => 27 case 75 => 0 case 76 => 27 case 77 => 0
    case 78 => 27 case 79 => 33 case 80 => 29 case 81 => 29 case 82 => 31 case 83 => 31
    case 84 => 31 case 85 => 31 case 86 => 31 case 87 => 31 case 88 => 31 case 89 => 31
    case 90 => 31 case 91 => 31 case 92 => 31 case 93 => 31 case 94 => 31 case 95 => 31
    case 96 => 31 case 97 => 31 case 98 => 31 case 99 => 31 case 100 => 27 case 101 => 25
    case 102 => 25 case 103 => 25 case 104 => 27 case 105 => 27 case 106 => 27 case 107 => 27
    case 108 => 0
    case _ => 0
  }

  function ToStateActions(i: int): int {
    match i
    case 0 => 0 case 1 => 0 case 2 => 0 case 3 => 0 case 4 => 0 case 5 => 0
    case 6 => 0 case 7 => 0 case 8 => 0 case 9 => 0 case 10 => 0 case 11 => 0
    case 12 => 0 case 13 => 0 case 14 => 0 case 15 => 0 case 16 => 0 case 17 => 0
    case 18 => 0 case 19 => 0 case 20 => 0 case 21 => 1 case 22 => 0 case 23 => 0
    case 24 => 0 case 25 => 0 case 26 => 0 case 27 => 0 case 28 => 0 case 29 => 0
    case _ => 0
  }

  function FromStateActions(i: int): int {
    match i
    case 0 => 0 case 1 => 0 case 2 => 0 case 3 => 0 case 4 => 0 case 5 => 0
    case 6 => 0 case 7 => 0 case 8 => 0 case 9 => 0 case 10 => 0 case 11 => 0
    case 12 => 0 case 13 => 0 case 14 => 0 case 15 => 0 case 16 => 0 case 17 => 0
    case 18 => 0 case 19 => 0 case 20 => 0 case 21 => 3 case 22 => 0 case 23 => 0
    case 24 => 0 case 25 => 0 case 26 => 0 case 27 => 0 case 28 => 0 case 29 => 0
    case _ => 0
  }

  function EofTrans(i: int): int {
    match i
    case 0 => 80 case 1 => 82 case 2 => 82 case 3 => 100 case 4 => 100 case 5 => 100
    case 6 => 100 case 7 => 100 case 8 => 100 case 9 => 100 case 10 => 100 case 11 => 100
    case 12 => 100 case 13 => 100 case 14 => 100 case 15 => 100 case 16 => 100 case 17 => 100
    case 18 => 100 case 19 => 100 case 20 => 100 case 21 => 0 case 22 => 108 case 23 => 104
    case 24 => 104 case 25 => 104 case 26 => 108 case 27 => 108 case 28 => 108 case 29 => 108
    case _ => 0
  }

  const WKT_START := 21

  // ---------- transition lookup ----------

  predicate IsState(cs: int) { 0 <= cs < 30 }

  /** The keys of state cs that stand for themselves. */
  function SingleKeys(cs: int): seq<int>
    requires IsState(cs)
  {
    seq(SingleLengths(cs), i requires 0 <= i => TransKeys(KeyOffsets(cs) + i))
  }

  /** The keys of state cs that come in pairs, as the ends of ranges. */
  function RangeKeys(cs: int): seq<int>
    requires IsState(cs)
  {
    seq(2 * RangeLengths(cs), i requires 0 <= i => TransKeys(KeyOffsets(cs) + SingleLengths(cs) + i))
  }

  predicate Ascending(keys: seq<int>) {
    forall i, j :: 0 <= i < j < |keys| ==> keys[i] < keys[j]
  }

  predicate Monotone(keys: seq<int>) {
    forall i, j :: 0 <= i < j < |keys| ==> keys[i] <= keys[j]
  }

  predicate Covers(keys: seq<int>, r: int, c: int) {
    0 <= r && 2 * r + 1 < |keys| && keys[2 * r] <= c <= keys[2 * r + 1]
  }

  /** Among transitions numbered from base on, the one for c: a single key, else a range, else the default. */
  ghost predicate Selects(ks: seq<int>, rs: seq<int>, base: int, c: int, t: int) {
    var k := t - base;
    var r := k - |ks|;
    || (0 <= k < |ks| && ks[k] == c)
    || (c !in ks && Covers(rs, r, c))
    || (c !in ks && (forall i :: !Covers(rs, i, c)) && 2 * r == |rs|)
  }

  /** The transition from cs on c. */
  ghost predicate IsTransition(cs: int, c: int, t: int)
    requires IsState(cs)
  {
    Selects(SingleKeys(cs), RangeKeys(cs), IndexOffsets(cs), c, t)
  }

  /** The binary search over single keys. */
  method SearchKeys(keys: seq<int>, c: int) returns (k: int)
    requires Ascending(keys)
    ensures if c in keys then 0 <= k < |keys| && keys[k] == c else k == -1
  {
    var lower, upper := 0, |keys| - 1;
    while lower <= upper
      invariant 0 <= lower <= |keys| && -1 <= upper < |keys|
      invariant forall i :: 0 <= i < lower ==> keys[i] < c
      invariant forall i :: upper < i < |keys| ==> c < keys[i]
      decreases upper - lower
    {
      var mid := lower + (upper - lower) / 2;
      if c < keys[mid] {
        upper := mid - 1;
      } else if c > keys[mid] {
        lower := mid + 1;
      } else {
        return mid;
      }
    }
    k := -1;
  }

  /** The binary search over n key ranges; lower and upper count pairs of keys. */
  method SearchRanges(keys: seq<int>, n: int, c: int) returns (r: int)
    requires |keys| == 2 * n && Monotone(keys)
    ensures r == -1 || (0 <= r < n && Covers(keys, r, c))
    ensures r == -1 ==> forall i :: !Covers(keys, i, c)
  {
    var lower, upper := 0, n - 1;
    while lower <= upper
      invariant 0 <= lower <= n && -1 <= upper < n
      invariant forall i :: 0 <= i < 2 * lower ==> keys[i] < c
      invariant forall i :: 2 * upper + 1 < i < |keys| ==> c < keys[i]
      decreases upper - lower
    {
      var mid := lower + (upper - lower) / 2;
      if c < keys[2 * mid] {
        upper := mid - 1;
      } else if c > keys[2 * mid + 1] {
        lower := mid + 1;
      } else {
        return mid;
      }
    }
    r := -1;
  }

  /** The transition lookup of the main loop. */
  method FindTransition(cs: int, c: int) returns (t: int)
    requires IsState(cs)
    ensures IsTransition(cs, c, t)
  {
    var ks, rs := SingleKeys(cs), RangeKeys(cs);
    TablesAscend(cs);
    t := IndexOffsets(cs);
    if |ks| > 0 {
      var k := SearchKeys(ks, c);
      if k >= 0 {
        return t + k;
      }
      t := t + |ks|;
    }
    var m := RangeLengths(cs);
    if m > 0 {
      var r := SearchRanges(rs, m, c);
      if r >= 0 {
        return t + r;
      }
      t := t + m;
    }
  }

  /** The key tables read state by state. */
  function Keys(cs: int): (seq<int>, seq<int>) {
    match cs
    case 0 => ([], [48, 57])
    case 1 => ([43, 45], [48, 57])
    case 2 => ([], [48, 57])
    case 3 => ([80], [])
    case 4 => ([84], [])
    case 5 => ([89], [])
    case 6 => ([78], [])
    case 7 => ([69], [])
    case 8 => ([83], [])
    case 9 => ([84], [])
    case 10 => ([82], [])
    case 11 => ([73], [])
    case 12 => ([78], [])
    case 13 => ([71], [])
    case 14 => ([73, 76], [])
    case 15 => ([78], [])
    case 16 => ([84], [])
    case 17 => ([89], [])
    case 18 => ([71], [])
    case 19 => ([79], [])
    case 20 => ([78], [])
    case 21 => ([9, 32, 40, 41, 44, 46, 69, 76, 80], [43, 45, 48, 57])
    case 22 => ([46], [48, 57])
    case 23 => ([69, 101], [48, 57])
    case 24 => ([], [48, 57])
    case 25 => ([46, 69, 101], [48, 57])
    case 26 => ([], [48, 57])
    case 27 => ([77], [])
    case 28 => ([73], [])
    case 29 => ([79], [])
    case _ => ([], [])
  }

  lemma KeysAre(cs: int)
    requires IsState(cs)
    ensures SingleKeys(cs) == Keys(cs).0 && RangeKeys(cs) == Keys(cs).1
  {
    SinglesAre(cs);
    RangesAre(cs);
  }

  lemma SinglesAre(cs: int)
    requires IsState(cs)
    ensures SingleKeys(cs) == Keys(cs).0
  {
    KeyCounts(cs);
    forall i | 0 <= i < SingleLengths(cs)
      ensures SingleKeys(cs)[i] == Keys(cs).0[i]
    {
      SingleKeyIs(cs, i);
    }
  }

  lemma RangesAre(cs: int)
    requires IsState(cs)
    ensures RangeKeys(cs) == Keys(cs).1
  {
    KeyCounts(cs);
    forall i | 0 <= i < 2 * RangeLengths(cs)
      ensures RangeKeys(cs)[i] == Keys(cs).1[i]
    {
      RangeKeyIs(cs, i);
    }
  }

  lemma KeyCounts(cs: int)
    requires IsState(cs)
    ensures SingleLengths(cs) == |Keys(cs).0| && 2 * RangeLengths(cs) == |Keys(cs).1|
  {
  }

  lemma SingleKeyIs(cs: int, i: int)
    requires IsState(cs) && 0 <= i < |Keys(cs).0|
    ensures TransKeys(KeyOffsets(cs) + i) == Keys(cs).0[i]
  {
    if cs < 15 {
      EarlySingleKeyIs(cs, i);
    } else {
      LateSingleKeyIs(cs, i);
    }
  }

  lemma EarlySingleKeyIs(cs: int, i: int)
    requires IsState(cs) && cs < 15 && 0 <= i < |Keys(cs).0|
    ensures TransKeys(KeyOffsets(cs) + i) == Keys(cs).0[i]
  {
  }

  lemma LateSingleKeyIs(cs: int, i: int)
    requires IsState(cs) && cs >= 15 && 0 <= i < |Keys(cs).0|
    ensures TransKeys(KeyOffsets(cs) + i) == Keys(cs).0[i]
  {
  }

  lemma RangeKeyIs(cs: int, i: int)
    requires IsState(cs) && 0 <= i < |Keys(cs).1|
    ensures TransKeys(KeyOffsets(cs) + SingleLengths(cs) + i) == Keys(cs).1[i]
  {
  }

  lemma TablesAscend(cs: int)
    requires IsState(cs)
    ensures Ascending(SingleKeys(cs)) && Monotone(RangeKeys(cs))
  {
    KeysAre(cs);
    KeysAscend(cs);
  }

  lemma KeysAscend(cs: int)
    ensures Ascending(Keys(cs).0) && Monotone(Keys(cs).1)
  {
  }
}
