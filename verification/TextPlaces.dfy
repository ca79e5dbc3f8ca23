/** A text standing inside a longer one. */
module TextPlaces {
  predicate Here(s: string, i: nat, p: string) {
    i + |p| <= |s| && s[i..i + |p|] == p
  }

  lemma HereSplit(s: string, i: nat, p: string, q: string)
    requires Here(s, i, p + q)
    ensures Here(s, i, p) && Here(s, i + |p|, q)
  {
    assert s[i..i + |p|] == (p + q)[..|p|] == p;
    assert s[i + |p|..i + |p| + |q|] == (p + q)[|p|..] == q;
  }

  lemma HereTail(s: string, i: nat, p: string, k: nat)
    requires Here(s, i, p) && k <= |p|
    ensures Here(s, i + k, p[k..])
  {
    assert s[i + k..i + |p|] == s[i..i + |p|][k..];
  }

  lemma HereAt(s: string, i: nat, p: string)
    requires Here(s, i, p) && p != ""
    ensures s[i] == p[0]
  {
    assert s[i..i + |p|][0] == s[i];
  }
}
