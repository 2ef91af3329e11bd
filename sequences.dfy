/** Sequence helpers shared by the graph store and the path queries: the
    JavaScript `Array.prototype.indexOf` lookup, distinctness, and the
    first-occurrence deduplication that `[...new Set(xs)]` performs. */
module Sequences {

  /** No element occurs twice. */
  predicate Distinct<T(==)>(s: seq<T>)
  {
    forall a, b :: 0 <= a < b < |s| ==> s[a] != s[b]
  }

  /** `s.indexOf(x)`: the first position of `x` in `s`, or -1 when `x` is absent. */
  function IndexOf<T(==)>(s: seq<T>, x: T): (r: int)
    ensures -1 <= r < |s|
    ensures r == -1 <==> x !in s
    ensures 0 <= r ==> s[r] == x && x !in s[..r]
  {
    if |s| == 0 then -1
    else if s[0] == x then 0
    else
      var k := IndexOf(s[1..], x);
      if k == -1 then -1
      else
        assert s[..k + 1] == [s[0]] + s[1..][..k];
        k + 1
  }

  /** In a sequence without repetitions, looking an element up gives back its position. */
  lemma IndexOfDistinct<T>(s: seq<T>, i: nat)
    requires Distinct(s) && i < |s|
    ensures IndexOf(s, s[i]) == i
  {
  }

  /** Looking up an element of a prefix finds it inside that prefix. */
  lemma IndexOfPrefix<T>(s: seq<T>, m: nat, x: T)
    requires m <= |s| && x in s[..m]
    ensures IndexOf(s, x) == IndexOf(s[..m], x)
  {
    var r' := IndexOf(s[..m], x);
    assert s[..m][..r'] == s[..r'];
  }

  /** `[...new Set(s)]`: the elements of `s`, each kept at its first occurrence. */
  function Dedup<T(==)>(s: seq<T>): (r: seq<T>)
    ensures Distinct(r)
    ensures forall k :: 0 <= k < |r| ==> r[k] in s
    ensures forall k :: 0 <= k < |s| ==> s[k] in r
    ensures |r| <= |s|
  {
    if |s| == 0 then []
    else
      var d := Dedup(s[..|s| - 1]);
      var x := s[|s| - 1];
      assert s == s[..|s| - 1] + [x];
      if x in d then d else d + [x]
  }

  /** Deduplication keeps the order of first occurrences: earlier in the
      result means first seen earlier in the input. */
  lemma {:induction false} DedupOrder<T>(s: seq<T>)
    ensures forall a, b :: 0 <= a < b < |Dedup(s)| ==> IndexOf(s, Dedup(s)[a]) < IndexOf(s, Dedup(s)[b])
  {
    if |s| > 0 {
      var init := s[..|s| - 1];
      var x := s[|s| - 1];
      var d := Dedup(init);
      DedupOrder(init);
      assert init == s[..|s| - 1];
      forall y | y in d
        ensures IndexOf(s, y) == IndexOf(init, y)
      {
        IndexOfPrefix(s, |s| - 1, y);
      }
      if x !in d {
        assert Dedup(s) == d + [x];
        assert IndexOf(s, x) == |s| - 1 by {
          assert x !in init;
          assert s[..|s| - 1] == init;
        }
        forall a, b | 0 <= a < b < |Dedup(s)|
          ensures IndexOf(s, Dedup(s)[a]) < IndexOf(s, Dedup(s)[b])
        {
          if b < |d| {
            assert Dedup(s)[a] == d[a] && Dedup(s)[b] == d[b];
          } else {
            assert Dedup(s)[a] == d[a] && d[a] in d;
          }
        }
      }
    }
  }
}
