/** The path enumeration of `Grafo.encontrarTodosCaminhos` as a specification
    over a snapshot of the adjacency matrix.

    Vertices are the indices `0 .. n-1` of the name list; `w[u][v] != 0`
    means that `u` and `v` are joined by an edge. `Explore` and
    `ExploreFrom` follow the recursive depth-first search step for step:
    the current path `cur` is the search buffer (its elements are exactly the
    vertices marked visited), a path whose last vertex is the destination is
    recorded and not extended, and otherwise the neighbours are tried in
    index order. The lemmas below characterise the result independently of
    the search: exactly the simple paths from origin to destination, in
    lexicographic order, none twice. */
module Paths {
  import opened Sequences

  /** A square matrix of edge weights. */
  predicate IsMatrix(w: seq<seq<int>>)
  {
    forall i :: 0 <= i < |w| ==> |w[i]| == |w|
  }

  /** Every element of `p` is a vertex of an `n`-vertex graph. */
  predicate InRange(p: seq<nat>, n: nat)
  {
    forall k :: 0 <= k < |p| ==> p[k] < n
  }

  function Last<T>(p: seq<T>): T
    requires |p| > 0
  {
    p[|p| - 1]
  }

  /** Every consecutive pair of `p` is joined by a nonzero matrix entry. */
  predicate IsWalk(w: seq<seq<int>>, p: seq<nat>)
    requires IsMatrix(w)
  {
    InRange(p, |w|) && forall k :: 0 <= k < |p| - 1 ==> w[p[k]][p[k + 1]] != 0
  }

  /** `p` is a simple path from `o` to `d`: a walk that repeats no vertex. */
  predicate IsSimplePath(w: seq<seq<int>>, p: seq<nat>, o: nat, d: int)
    requires IsMatrix(w)
  {
    |p| > 0 && p[0] == o && Last(p) == d && IsWalk(w, p) && Distinct(p)
  }

  /** The vertices not on `cur`: the ones the search may still visit. */
  function Unvisited(n: nat, cur: seq<nat>): set<nat>
  {
    set v: nat | v < n && v !in cur
  }

  lemma UnvisitedShrinks(n: nat, cur: seq<nat>, i: nat)
    requires i < n && i !in cur
    ensures Unvisited(n, cur + [i]) < Unvisited(n, cur)
  {
    assert i in Unvisited(n, cur);
  }

  /** `dfs(atual)` with the search buffer `cur` (whose last element is `atual`):
      the paths it records, in the order it records them. */
  function Explore(w: seq<seq<int>>, d: int, cur: seq<nat>): seq<seq<nat>>
    requires IsMatrix(w) && |cur| > 0 && InRange(cur, |w|)
    decreases Unvisited(|w|, cur), 1, 0
  {
    if Last(cur) == d then [cur] else ExploreFrom(w, d, cur, 0)
  }

  /** The neighbour loop of `dfs` from index `i` on: each unvisited neighbour
      `i` of the current vertex is searched in turn. */
  function ExploreFrom(w: seq<seq<int>>, d: int, cur: seq<nat>, i: nat): seq<seq<nat>>
    requires IsMatrix(w) && |cur| > 0 && InRange(cur, |w|) && i <= |w|
    decreases Unvisited(|w|, cur), 0, |w| - i
  {
    if i == |w| then []
    else if w[Last(cur)][i] != 0 && i !in cur then
      UnvisitedShrinks(|w|, cur, i);
      Explore(w, d, cur + [i]) + ExploreFrom(w, d, cur, i + 1)
    else ExploreFrom(w, d, cur, i + 1)
  }

  /** What every path recorded from the buffer `cur` looks like: `cur`
      followed by fresh, pairwise distinct vertices along edges, ending at
      `d`. */
  predicate Extends(w: seq<seq<int>>, d: int, cur: seq<nat>, p: seq<nat>)
    requires IsMatrix(w) && |cur| > 0
  {
    |cur| <= |p| && p[..|cur|] == cur && Last(p) == d && InRange(p, |w|)
    && (forall k :: |cur| - 1 <= k < |p| - 1 ==> w[p[k]][p[k + 1]] != 0)
    && (forall a, b :: 0 <= a < b < |p| && |cur| <= b ==> p[a] != p[b])
  }

  /** Soundness of the search: every recorded path extends the buffer. */
  lemma {:induction false} ExploreSound(w: seq<seq<int>>, d: int, cur: seq<nat>)
    requires IsMatrix(w) && |cur| > 0 && InRange(cur, |w|)
    ensures forall p :: p in Explore(w, d, cur) ==> Extends(w, d, cur, p)
    decreases Unvisited(|w|, cur), 1, 0
  {
    if Last(cur) != d {
      ExploreFromSound(w, d, cur, 0);
    }
  }

  lemma {:induction false} ExploreFromSound(w: seq<seq<int>>, d: int, cur: seq<nat>, i: nat)
    requires IsMatrix(w) && |cur| > 0 && InRange(cur, |w|) && i <= |w|
    ensures forall p :: p in ExploreFrom(w, d, cur, i) ==>
      Extends(w, d, cur, p) && |cur| < |p| && i <= p[|cur|]
    decreases Unvisited(|w|, cur), 0, |w| - i
  {
    if i < |w| {
      ExploreFromSound(w, d, cur, i + 1);
      if w[Last(cur)][i] != 0 && i !in cur {
        var next := cur + [i];
        UnvisitedShrinks(|w|, cur, i);
        ExploreSound(w, d, next);
        forall p | p in Explore(w, d, next)
          ensures Extends(w, d, cur, p) && |cur| < |p| && i <= p[|cur|]
        {
          assert p[..|next|] == next;
          assert p[..|cur|] == next[..|cur|] == cur;
          assert p[|cur|] == next[|cur|] == i;
          forall a, b | 0 <= a < b < |p| && |cur| <= b
            ensures p[a] != p[b]
          {
            if b == |cur| {
              assert p[a] == cur[a];
            }
          }
        }
      }
    }
  }

  /** Completeness of the search: every path that extends the buffer is recorded. */
  lemma {:induction false} ExploreComplete(w: seq<seq<int>>, d: int, cur: seq<nat>, p: seq<nat>)
    requires IsMatrix(w) && |cur| > 0 && InRange(cur, |w|)
    requires |cur| <= |p| && p[..|cur|] == cur
    requires IsWalk(w, p) && Distinct(p) && Last(p) == d
    ensures p in Explore(w, d, cur)
    decreases Unvisited(|w|, cur)
  {
    if Last(cur) == d {
      assert p[|cur| - 1] == cur[|cur| - 1] == p[|p| - 1];
      assert p == cur;
    } else {
      var j := p[|cur|];
      assert w[Last(cur)][j] != 0 by {
        assert p[|cur| - 1] == cur[|cur| - 1];
      }
      assert j !in cur by {
        forall a | 0 <= a < |cur| ensures cur[a] != j {
          assert cur[a] == p[a];
        }
      }
      var next := cur + [j];
      assert p[..|next|] == next;
      UnvisitedShrinks(|w|, cur, j);
      ExploreComplete(w, d, next, p);
      ExploreFromContains(w, d, cur, 0, j);
    }
  }

  /** The neighbour loop from `i` includes the whole search below every
      unvisited neighbour `j >= i`. */
  lemma {:induction false} ExploreFromContains(w: seq<seq<int>>, d: int, cur: seq<nat>, i: nat, j: nat)
    requires IsMatrix(w) && |cur| > 0 && InRange(cur, |w|)
    requires i <= j < |w| && w[Last(cur)][j] != 0 && j !in cur
    ensures forall p :: p in Explore(w, d, cur + [j]) ==> p in ExploreFrom(w, d, cur, i)
    decreases j - i
  {
    if i < j {
      ExploreFromContains(w, d, cur, i + 1, j);
    }
  }

  /** `a` comes strictly before `b` in lexicographic order of vertex indices. */
  predicate LexLess(a: seq<nat>, b: seq<nat>)
  {
    exists k :: 0 <= k < |a| && k < |b| && a[..k] == b[..k] && a[k] < b[k]
  }

  /** Strictly increasing in lexicographic order. */
  predicate Sorted(ps: seq<seq<nat>>)
  {
    forall x, y :: 0 <= x < y < |ps| ==> LexLess(ps[x], ps[y])
  }

  lemma SortedDistinct(ps: seq<seq<nat>>)
    requires Sorted(ps)
    ensures Distinct(ps)
  {
    forall x, y | 0 <= x < y < |ps|
      ensures ps[x] != ps[y]
    {
      assert LexLess(ps[x], ps[y]);
    }
  }

  lemma SortedConcat(xs: seq<seq<nat>>, ys: seq<seq<nat>>)
    requires Sorted(xs) && Sorted(ys)
    requires forall a, b :: a in xs && b in ys ==> LexLess(a, b)
    ensures Sorted(xs + ys)
  {
    var zs := xs + ys;
    forall x, y | 0 <= x < y < |zs|
      ensures LexLess(zs[x], zs[y])
    {
      if y < |xs| {
        assert zs[x] == xs[x] && zs[y] == xs[y];
      } else if x >= |xs| {
        assert zs[x] == ys[x - |xs|] && zs[y] == ys[y - |xs|];
      } else {
        assert zs[x] in xs && zs[y] in ys;
      }
    }
  }

  /** The search records its paths in lexicographic order. */
  lemma {:induction false} ExploreSorted(w: seq<seq<int>>, d: int, cur: seq<nat>)
    requires IsMatrix(w) && |cur| > 0 && InRange(cur, |w|)
    ensures Sorted(Explore(w, d, cur))
    decreases Unvisited(|w|, cur), 1, 0
  {
    if Last(cur) != d {
      ExploreFromSorted(w, d, cur, 0);
    }
  }

  lemma {:induction false} ExploreFromSorted(w: seq<seq<int>>, d: int, cur: seq<nat>, i: nat)
    requires IsMatrix(w) && |cur| > 0 && InRange(cur, |w|) && i <= |w|
    ensures Sorted(ExploreFrom(w, d, cur, i))
    decreases Unvisited(|w|, cur), 0, |w| - i
  {
    if i < |w| {
      ExploreFromSorted(w, d, cur, i + 1);
      if w[Last(cur)][i] != 0 && i !in cur {
        var next := cur + [i];
        var xs, ys := Explore(w, d, next), ExploreFrom(w, d, cur, i + 1);
        UnvisitedShrinks(|w|, cur, i);
        ExploreSorted(w, d, next);
        BranchBefore(w, d, cur, i);
        SortedConcat(xs, ys);
      }
    }
  }

  /** Everything found below the neighbour `i` comes before everything the
      loop finds from `i + 1` on. */
  lemma BranchBefore(w: seq<seq<int>>, d: int, cur: seq<nat>, i: nat)
    requires IsMatrix(w) && |cur| > 0 && InRange(cur, |w|) && i < |w|
    requires w[Last(cur)][i] != 0 && i !in cur
    ensures forall a, b :: a in Explore(w, d, cur + [i]) && b in ExploreFrom(w, d, cur, i + 1) ==> LexLess(a, b)
  {
    var next := cur + [i];
    ExploreSound(w, d, next);
    ExploreFromSound(w, d, cur, i + 1);
    forall a, b | a in Explore(w, d, next) && b in ExploreFrom(w, d, cur, i + 1)
      ensures LexLess(a, b)
    {
      var k := |cur|;
      assert a[..|next|] == next;
      assert a[..k] == next[..k] == cur;
      assert a[k] == next[k] == i;
    }
  }

  /** `encontrarTodosCaminhos` at the level of vertex indices: the search
      started from the one-vertex buffer `[o]` records exactly the simple
      paths from `o` to `d`, in lexicographic order, each once. */
  lemma {:induction false} EnumerationCorrect(w: seq<seq<int>>, o: nat, d: int)
    requires IsMatrix(w) && o < |w|
    ensures forall p :: p in Explore(w, d, [o]) <==> IsSimplePath(w, p, o, d)
    ensures Sorted(Explore(w, d, [o])) && Distinct(Explore(w, d, [o]))
  {
    var ps := Explore(w, d, [o]);
    ExploreSound(w, d, [o]);
    forall p | p in ps
      ensures IsSimplePath(w, p, o, d)
    {
      assert p[..1] == [o];
    }
    forall p | IsSimplePath(w, p, o, d)
      ensures p in ps
    {
      assert p[..1] == [o];
      ExploreComplete(w, d, [o], p);
    }
    ExploreSorted(w, d, [o]);
    SortedDistinct(ps);
  }
}
