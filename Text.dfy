/** Text operations the diary script relies on: Python's `needle in haystack`
    substring test and Python's ordering of strings (code point by code point). */
module Text {

  /** `q in s` for Python strings: the query occurs somewhere in `s`.
      The empty query occurs in every string. */
  predicate Contains(s: string, q: string)
    decreases |s|
  {
    q <= s || (s != [] && Contains(s[1..], q))
  }

  /** The reference meaning of `Contains`: some suffix of `s` starts with `q`. */
  ghost predicate OccursAt(s: string, q: string, i: int)
  {
    0 <= i <= |s| && q <= s[i..]
  }

  lemma {:induction false} ContainsIff(s: string, q: string)
    ensures Contains(s, q) <==> exists i :: OccursAt(s, q, i)
    decreases |s|
  {
    if q <= s {
      assert OccursAt(s, q, 0);
    } else if s == [] {
      assert forall i :: OccursAt(s, q, i) ==> i == 0;
    } else {
      ContainsIff(s[1..], q);
      forall i | OccursAt(s[1..], q, i) ensures OccursAt(s, q, i + 1) {
        assert s[1..][i..] == s[i + 1..];
      }
      forall i | OccursAt(s, q, i) ensures OccursAt(s[1..], q, i - 1) {
        assert i != 0;
        assert s[1..][i - 1..] == s[i..];
      }
    }
  }

  /** Python's `a <= b` on strings: lexicographic by code point, a proper
      prefix coming first. */
  predicate LexLe(a: string, b: string)
    decreases |a|
  {
    if a == [] then true
    else if b == [] then false
    else if a[0] != b[0] then a[0] < b[0]
    else LexLe(a[1..], b[1..])
  }

  lemma {:induction false} LexLeTotal(a: string, b: string)
    ensures LexLe(a, b) || LexLe(b, a)
    decreases |a|
  {
    if a != [] && b != [] && a[0] == b[0] {
      LexLeTotal(a[1..], b[1..]);
    }
  }

  lemma {:induction false} LexLeTrans(a: string, b: string, c: string)
    requires LexLe(a, b) && LexLe(b, c)
    ensures LexLe(a, c)
    decreases |a|
  {
    if a != [] && b != [] && c != [] && a[0] == b[0] && b[0] == c[0] {
      LexLeTrans(a[1..], b[1..], c[1..]);
    }
  }
}
