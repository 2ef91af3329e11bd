/** The search result as the graph store returns it: paths of vertex NAMES.
    The search buffer holds names and every recorded path is a copy of it;
    the name of vertex `i` is `nomes[i]`, and an edge between two names is
    read through `nomes.indexOf`. */
module NamedPaths {
  import opened Sequences
  import opened Paths

  /** The names of the vertices on an index path. */
  function Nomear(nomes: seq<string>, p: seq<nat>): (r: seq<string>)
    requires InRange(p, |nomes|)
    ensures |r| == |p| && forall k :: 0 <= k < |p| ==> r[k] == nomes[p[k]]
  {
    seq(|p|, k requires 0 <= k < |p| => nomes[p[k]])
  }

  predicate AllInRange(ps: seq<seq<nat>>, n: nat)
  {
    forall k :: 0 <= k < |ps| ==> InRange(ps[k], n)
  }

  /** Each index path of `ps`, by name. */
  function NomearTodos(nomes: seq<string>, ps: seq<seq<nat>>): (r: seq<seq<string>>)
    requires AllInRange(ps, |nomes|)
    ensures |r| == |ps| && forall k :: 0 <= k < |ps| ==> r[k] == Nomear(nomes, ps[k])
  {
    seq(|ps|, k requires 0 <= k < |ps| => Nomear(nomes, ps[k]))
  }

  /** Naming distributes over concatenation of path lists. */
  lemma NomearTodosConcat(nomes: seq<string>, xs: seq<seq<nat>>, ys: seq<seq<nat>>)
    requires AllInRange(xs, |nomes|) && AllInRange(ys, |nomes|)
    ensures AllInRange(xs + ys, |nomes|)
    ensures NomearTodos(nomes, xs + ys) == NomearTodos(nomes, xs) + NomearTodos(nomes, ys)
  {
    assert forall k :: 0 <= k < |xs + ys| ==> (xs + ys)[k] == if k < |xs| then xs[k] else ys[k - |xs|];
  }

  /** Every vertex of the path is a known name. */
  predicate Conhecidos(nomes: seq<string>, caminho: seq<string>)
  {
    forall k :: 0 <= k < |caminho| ==> caminho[k] in nomes
  }

  /** Weight-matrix entry between two named vertices, found by `indexOf`. */
  function Entre(nomes: seq<string>, w: seq<seq<int>>, a: string, b: string): int
    requires IsMatrix(w) && |w| == |nomes| && a in nomes && b in nomes
  {
    w[IndexOf(nomes, a)][IndexOf(nomes, b)]
  }

  /** A simple path of names from `origem` to `destino`: known names, none
      repeated, a nonzero matrix entry between every consecutive pair. */
  predicate CaminhoSimples(nomes: seq<string>, w: seq<seq<int>>, p: seq<string>, origem: string, destino: string)
    requires IsMatrix(w) && |w| == |nomes|
  {
    && |p| > 0 && p[0] == origem && Last(p) == destino
    && Conhecidos(nomes, p)
    && Distinct(p)
    && (forall k :: 0 <= k < |p| - 1 ==> Entre(nomes, w, p[k], p[k + 1]) != 0)
  }

  lemma ExploreInRange(w: seq<seq<int>>, d: int, cur: seq<nat>)
    requires IsMatrix(w) && |cur| > 0 && InRange(cur, |w|)
    ensures AllInRange(Explore(w, d, cur), |w|)
  {
    var ps := Explore(w, d, cur);
    ExploreSound(w, d, cur);
    forall k | 0 <= k < |ps|
      ensures InRange(ps[k], |w|)
    {
      assert ps[k] in ps;
    }
  }

  lemma ExploreFromInRange(w: seq<seq<int>>, d: int, cur: seq<nat>, i: nat)
    requires IsMatrix(w) && |cur| > 0 && InRange(cur, |w|) && i <= |w|
    ensures AllInRange(ExploreFrom(w, d, cur, i), |w|)
  {
    var ps := ExploreFrom(w, d, cur, i);
    ExploreFromSound(w, d, cur, i);
    forall k | 0 <= k < |ps|
      ensures InRange(ps[k], |w|)
    {
      assert ps[k] in ps;
    }
  }

  /** What `dfs` records, by name, when called with the buffer `cur`. */
  function Registrados(nomes: seq<string>, w: seq<seq<int>>, d: int, cur: seq<nat>): seq<seq<string>>
    requires IsMatrix(w) && |w| == |nomes| && |cur| > 0 && InRange(cur, |w|)
  {
    ExploreInRange(w, d, cur);
    NomearTodos(nomes, Explore(w, d, cur))
  }

  /** What the neighbour loop of `dfs` records, by name, from index `i` on. */
  function RegistradosDesde(nomes: seq<string>, w: seq<seq<int>>, d: int, cur: seq<nat>, i: nat): seq<seq<string>>
    requires IsMatrix(w) && |w| == |nomes| && |cur| > 0 && InRange(cur, |w|) && i <= |w|
  {
    ExploreFromInRange(w, d, cur, i);
    NomearTodos(nomes, ExploreFrom(w, d, cur, i))
  }

  /** One call of `dfs`, by name: record the buffer at the destination,
      otherwise run the neighbour loop. */
  lemma RegistradosUnfold(nomes: seq<string>, w: seq<seq<int>>, d: int, cur: seq<nat>)
    requires IsMatrix(w) && |w| == |nomes| && |cur| > 0 && InRange(cur, |w|)
    ensures Registrados(nomes, w, d, cur)
      == if Last(cur) == d then [Nomear(nomes, cur)] else RegistradosDesde(nomes, w, d, cur, 0)
  {
  }

  /** One turn of the neighbour loop, by name. */
  lemma RegistradosDesdeStep(nomes: seq<string>, w: seq<seq<int>>, d: int, cur: seq<nat>, i: nat)
    requires IsMatrix(w) && |w| == |nomes| && |cur| > 0 && InRange(cur, |w|) && i < |w|
    ensures w[Last(cur)][i] != 0 && i !in cur ==>
      InRange(cur + [i], |w|)
      && RegistradosDesde(nomes, w, d, cur, i)
         == Registrados(nomes, w, d, cur + [i]) + RegistradosDesde(nomes, w, d, cur, i + 1)
    ensures !(w[Last(cur)][i] != 0 && i !in cur) ==>
      RegistradosDesde(nomes, w, d, cur, i) == RegistradosDesde(nomes, w, d, cur, i + 1)
    ensures i + 1 == |w| ==> RegistradosDesde(nomes, w, d, cur, i + 1) == []
  {
    ExploreFromInRange(w, d, cur, i + 1);
    if w[Last(cur)][i] != 0 && i !in cur {
      ExploreInRange(w, d, cur + [i]);
      NomearTodosConcat(nomes, Explore(w, d, cur + [i]), ExploreFrom(w, d, cur, i + 1));
    }
  }

  /** One turn of the neighbour loop as it changes the list of recorded
      paths: from `antes` to `depois`. */
  lemma RegistradosDesdePasso(nomes: seq<string>, w: seq<seq<int>>, d: int, cur: seq<nat>, i: nat,
                              antes: seq<seq<string>>, depois: seq<seq<string>>)
    requires IsMatrix(w) && |w| == |nomes| && |cur| > 0 && InRange(cur, |w|) && i < |w|
    requires w[Last(cur)][i] != 0 && i !in cur ==>
      InRange(cur + [i], |w|) && depois == antes + Registrados(nomes, w, d, cur + [i])
    requires !(w[Last(cur)][i] != 0 && i !in cur) ==> depois == antes
    ensures depois + RegistradosDesde(nomes, w, d, cur, i + 1) == antes + RegistradosDesde(nomes, w, d, cur, i)
  {
    RegistradosDesdeStep(nomes, w, d, cur, i);
  }

  /** The search from `origem` towards `destino` (absent: index -1), by name. */
  function Caminhos(nomes: seq<string>, w: seq<seq<int>>, origem: string, destino: string): seq<seq<string>>
    requires IsMatrix(w) && |w| == |nomes| && origem in nomes
  {
    Registrados(nomes, w, IndexOf(nomes, destino), [IndexOf(nomes, origem)])
  }

  /** With distinct names, naming loses nothing: the index path is recovered
      by looking each name up. */
  lemma NomearInjective(nomes: seq<string>, p: seq<nat>, q: seq<nat>)
    requires Distinct(nomes) && InRange(p, |nomes|) && InRange(q, |nomes|)
    requires Nomear(nomes, p) == Nomear(nomes, q)
    ensures p == q
  {
    assert |p| == |q|;
    forall k | 0 <= k < |p|
      ensures p[k] == q[k]
    {
      assert nomes[p[k]] == Nomear(nomes, p)[k] == Nomear(nomes, q)[k] == nomes[q[k]];
    }
  }

  /** A recorded index path, by name, is a simple path of names. */
  lemma NamedSound(nomes: seq<string>, w: seq<seq<int>>, q: seq<nat>, origem: string, destino: string)
    requires IsMatrix(w) && |w| == |nomes| && Distinct(nomes) && origem in nomes
    requires IsSimplePath(w, q, IndexOf(nomes, origem), IndexOf(nomes, destino))
    ensures CaminhoSimples(nomes, w, Nomear(nomes, q), origem, destino)
  {
    var p := Nomear(nomes, q);
    forall a, b | 0 <= a < b < |p|
      ensures p[a] != p[b]
    {
      assert q[a] != q[b];
    }
    forall k | 0 <= k < |p| - 1
      ensures Entre(nomes, w, p[k], p[k + 1]) != 0
    {
      IndexOfDistinct(nomes, q[k]);
      IndexOfDistinct(nomes, q[k + 1]);
      assert Entre(nomes, w, p[k], p[k + 1]) == w[q[k]][q[k + 1]];
    }
    IndexOfDistinct(nomes, q[0]);
    IndexOfDistinct(nomes, Last(q));
  }

  /** `p.map(x => nomes.indexOf(x))`: the index path of a path of known names. */
  function Indices(nomes: seq<string>, p: seq<string>): (q: seq<nat>)
    requires Conhecidos(nomes, p)
    ensures |q| == |p| && InRange(q, |nomes|)
    ensures forall k :: 0 <= k < |p| ==> q[k] == IndexOf(nomes, p[k]) && nomes[q[k]] == p[k]
  {
    seq(|p|, k requires 0 <= k < |p| => IndexOf(nomes, p[k]) as nat)
  }

  /** A simple path of names is the naming of a simple index path. */
  lemma NamedComplete(nomes: seq<string>, w: seq<seq<int>>, p: seq<string>, origem: string, destino: string)
      returns (q: seq<nat>)
    requires IsMatrix(w) && |w| == |nomes| && Distinct(nomes)
    requires CaminhoSimples(nomes, w, p, origem, destino)
    ensures InRange(q, |nomes|) && Nomear(nomes, q) == p
    ensures IsSimplePath(w, q, IndexOf(nomes, origem), IndexOf(nomes, destino))
  {
    q := Indices(nomes, p);
    assert Nomear(nomes, q) == p;
    forall a, b | 0 <= a < b < |q|
      ensures q[a] != q[b]
    {
      assert p[a] != p[b];
    }
    forall k | 0 <= k < |q| - 1
      ensures w[q[k]][q[k + 1]] != 0
    {
      assert Entre(nomes, w, p[k], p[k + 1]) != 0;
    }
    assert Last(q) == IndexOf(nomes, Last(p));
  }

  /** `encontrarTodosCaminhos` by name: exactly the simple paths of names
      from `origem` to `destino`, none twice, in lexicographic order of the
      vertex indices. */
  lemma {:induction false} CaminhosCorrect(nomes: seq<string>, w: seq<seq<int>>, origem: string, destino: string)
    requires IsMatrix(w) && |w| == |nomes| && Distinct(nomes) && origem in nomes
    ensures forall p :: p in Caminhos(nomes, w, origem, destino) <==> CaminhoSimples(nomes, w, p, origem, destino)
    ensures Distinct(Caminhos(nomes, w, origem, destino))
    ensures exists ps :: Sorted(ps) && AllInRange(ps, |nomes|) && Caminhos(nomes, w, origem, destino) == NomearTodos(nomes, ps)
  {
    var o, d := IndexOf(nomes, origem), IndexOf(nomes, destino);
    var ps := Explore(w, d, [o]);
    var r := Caminhos(nomes, w, origem, destino);
    EnumerationCorrect(w, o, d);
    ExploreInRange(w, d, [o]);
    assert r == NomearTodos(nomes, ps);
    assert Sorted(ps) && AllInRange(ps, |nomes|);
    forall p | p in r
      ensures CaminhoSimples(nomes, w, p, origem, destino)
    {
      var x :| 0 <= x < |r| && r[x] == p;
      assert ps[x] in ps;
      NamedSound(nomes, w, ps[x], origem, destino);
    }
    forall p | CaminhoSimples(nomes, w, p, origem, destino)
      ensures p in r
    {
      var q := NamedComplete(nomes, w, p, origem, destino);
      var x :| 0 <= x < |ps| && ps[x] == q;
      assert r[x] == p;
    }
    forall a, b | 0 <= a < b < |r|
      ensures r[a] != r[b]
    {
      if r[a] == r[b] {
        NomearInjective(nomes, ps[a], ps[b]);
      }
    }
  }
}
