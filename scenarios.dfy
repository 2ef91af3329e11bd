/** Concrete graphs worked through the specification functions: the paths
    the search records, their weights and the extreme choices come out as
    fixed values. */
module Scenarios {
  import opened Sequences
  import opened Paths
  import opened NamedPaths
  import opened PathWeights
  import opened GraphStore

  /** A-B with weight 4 and B-C with weight 6. */
  const Linha: seq<seq<int>> := [[0, 4, 0], [4, 0, 6], [0, 6, 0]]

  /** The triangle A, B, C with weight 1 on every edge. */
  const Triangulo: seq<seq<int>> := [[0, 1, 1], [1, 0, 1], [1, 1, 0]]

  /** On both graphs, the search below A, B towards C records A, B, C only. */
  lemma RamoAB(w: seq<seq<int>>)
    requires w == Linha || w == Triangulo
    ensures Explore(w, 2, [0, 1]) == [[0, 1, 2]]
  {
    assert [0, 1] + [2] == [0, 1, 2];
    assert Explore(w, 2, [0, 1, 2]) == [[0, 1, 2]];
    assert ExploreFrom(w, 2, [0, 1], 3) == [];
    assert ExploreFrom(w, 2, [0, 1], 2) == Explore(w, 2, [0, 1, 2]) + ExploreFrom(w, 2, [0, 1], 3);
    assert ExploreFrom(w, 2, [0, 1], 0) == ExploreFrom(w, 2, [0, 1], 1) == ExploreFrom(w, 2, [0, 1], 2);
  }

  /** On the line, the search from A towards C records A, B, C only. */
  lemma LinhaBusca()
    ensures Explore(Linha, 2, [0]) == [[0, 1, 2]]
  {
    var w := Linha;
    assert [0] + [1] == [0, 1];
    RamoAB(w);
    assert ExploreFrom(w, 2, [0], 2) == ExploreFrom(w, 2, [0], 3) == [];
    assert ExploreFrom(w, 2, [0], 1) == Explore(w, 2, [0, 1]) + ExploreFrom(w, 2, [0], 2);
    assert Explore(w, 2, [0]) == ExploreFrom(w, 2, [0], 0) == ExploreFrom(w, 2, [0], 1);
  }

  /** On the line, the only path from A to C is A, B, C, weighing 10. */
  lemma LinhaCaminhos()
    ensures Caminhos(["A", "B", "C"], Linha, "A", "C") == [["A", "B", "C"]]
    ensures PesoCaminho(["A", "B", "C"], Linha, ["A", "B", "C"]) == 10
  {
    var nomes := ["A", "B", "C"];
    assert IndexOf(nomes, "A") == 0 && IndexOf(nomes, "C") == 2;
    LinhaBusca();
    assert Nomear(nomes, [0, 1, 2]) == ["A", "B", "C"];
  }

  /** On the triangle, the search from A towards C finds A, B, C first
      (neighbours are tried in index order) and then A, C. */
  lemma TrianguloBusca()
    ensures Explore(Triangulo, 2, [0]) == [[0, 1, 2], [0, 2]]
  {
    var w := Triangulo;
    assert [0] + [1] == [0, 1] && [0] + [2] == [0, 2];
    RamoAB(w);
    assert Explore(w, 2, [0, 2]) == [[0, 2]];
    assert ExploreFrom(w, 2, [0], 3) == [];
    assert ExploreFrom(w, 2, [0], 2) == Explore(w, 2, [0, 2]) + ExploreFrom(w, 2, [0], 3);
    assert ExploreFrom(w, 2, [0], 1) == Explore(w, 2, [0, 1]) + ExploreFrom(w, 2, [0], 2);
    assert Explore(w, 2, [0]) == ExploreFrom(w, 2, [0], 0) == ExploreFrom(w, 2, [0], 1);
  }

  /** On the triangle, the paths from A to C are A, B, C and then A, C. */
  lemma TrianguloCaminhos()
    ensures Caminhos(["A", "B", "C"], Triangulo, "A", "C") == [["A", "B", "C"], ["A", "C"]]
  {
    var nomes := ["A", "B", "C"];
    assert IndexOf(nomes, "A") == 0 && IndexOf(nomes, "C") == 2;
    TrianguloBusca();
    assert Nomear(nomes, [0, 1, 2]) == ["A", "B", "C"] && Nomear(nomes, [0, 2]) == ["A", "C"];
  }

  /** The two triangle paths weigh 2 and 1, so the cheapest is A, C and the
      costliest A, B, C. */
  lemma TrianguloExtremos()
    ensures Avaliar(["A", "B", "C"], Triangulo, [["A", "B", "C"], ["A", "C"]])
      == Encontrados([["A", "B", "C"], ["A", "C"]], [2, 1], ["A", "C"], ["A", "B", "C"])
  {
    var nomes, w := ["A", "B", "C"], Triangulo;
    var caminhos := [["A", "B", "C"], ["A", "C"]];
    assert PesoCaminho(nomes, w, caminhos[0]) == 2 && PesoCaminho(nomes, w, caminhos[1]) == 1;
    var ws := seq(|caminhos|, k requires 0 <= k < |caminhos| => PesoCaminho(nomes, w, caminhos[k]));
    assert ws == [2, 1];
    assert Min(ws) == 1 && Max(ws) == 2;
    assert IndexOf(ws, 1) == 1 && IndexOf(ws, 2) == 0;
  }

  /** A search from a vertex to itself records the one-vertex path, which
      weighs 0. */
  lemma MesmoVertice()
    ensures Caminhos(["A", "B"], [[0, 3], [3, 0]], "A", "A") == [["A"]]
    ensures PesoCaminho(["A", "B"], [[0, 3], [3, 0]], ["A"]) == 0
  {
    assert IndexOf(["A", "B"], "A") == 0;
    assert Explore([[0, 3], [3, 0]], 0, [0]) == [[0]];
    assert Nomear(["A", "B"], [0]) == ["A"];
  }

  /** The bulk description `X: Y`, where Y is never declared itself: the
      vertices are X then Y, and the pair is declared. */
  lemma SoVizinho()
    ensures Dedup(Mencionados([Entrada("X", ["Y"])])) == ["X", "Y"]
    ensures Declarado([Entrada("X", ["Y"])], "X", "Y") && Declarado([Entrada("X", ["Y"])], "Y", "X")
  {
    assert Mencionados([Entrada("X", ["Y"])]) == ["X", "Y"];
    assert Dedup(["X", "Y"][..1]) == ["X"];
  }

  /** Adding "A" twice: the first call succeeds, the second is refused and
      the graph keeps one vertex. */
  method NomeRepetido() returns (primeiro: bool, segundo: bool, total: nat)
    ensures primeiro && !segundo && total == 1
  {
    var g := new Grafo();
    primeiro := g.AdicionarVertice("A", 0.0, 0.0);
    segundo := g.AdicionarVertice("A", 5.0, 5.0);
    total := |g.nomes|;
  }

  /** A self-loop on "A" with weight 3 is ignored: the graph keeps its
      invariants and every weight, in both matrices, stays 0. */
  method LacoIgnorado() returns (g: Grafo)
    ensures g.Valid() && g.nomes == ["A"]
    ensures forall i, j :: 0 <= i < Ordem && 0 <= j < Ordem ==> g.matriz[i, j] == 0 && g.pesos[i, j] == 0
  {
    g := new Grafo();
    var ok := g.AdicionarVertice("A", 0.0, 0.0);
    assert IndexOf(g.nomes, "A") == 0;
    g.AdicionarAresta("A", "A", 3);
  }

  /** The triangle built through the graph's own operations: three vertices
      and three edges of weight 1. */
  method ConstruirTriangulo() returns (g: Grafo)
    ensures g.Valid() && g.nomes == ["A", "B", "C"]
    ensures forall i, j :: 0 <= i < 3 && 0 <= j < 3 ==> g.matriz[i, j] == Triangulo[i][j]
  {
    g := new Grafo();
    var a := g.AdicionarVertice("A", 0.0, 0.0);
    var b := g.AdicionarVertice("B", 1.0, 0.0);
    var c := g.AdicionarVertice("C", 0.0, 1.0);
    assert g.nomes == ["A", "B", "C"];
    assert IndexOf(g.nomes, "A") == 0 && IndexOf(g.nomes, "B") == 1 && IndexOf(g.nomes, "C") == 2;
    g.AdicionarAresta("A", "B");
    g.AdicionarAresta("A", "C");
    g.AdicionarAresta("B", "C");
  }

  /** The query from A to C on the triangle built through the graph's own
      operations. */
  method TrianguloPeloGrafo() returns (r: Consulta)
    ensures r == Encontrados([["A", "B", "C"], ["A", "C"]], [2, 1], ["A", "C"], ["A", "B", "C"])
  {
    var g := ConstruirTriangulo();
    MatrizTriangulo(g);
    CaminhoAC();
    r := g.ConsultarCaminhos("A", "C");
    assert CaminhoSimples(g.nomes, g.Adjacencia(), ["A", "C"], "A", "C");
    TrianguloCaminhos();
    SomasTriangulo();
    ConsultaTriangulo(r);
  }

  /** A, C is a simple path of the triangle. */
  lemma CaminhoAC()
    ensures CaminhoSimples(["A", "B", "C"], Triangulo, ["A", "C"], "A", "C")
  {
    assert IndexOf(["A", "B", "C"], "A") == 0 && IndexOf(["A", "B", "C"], "C") == 2;
  }

  /** The two triangle paths sum to 2 and 1. */
  lemma SomasTriangulo()
    ensures SomaArestas(["A", "B", "C"], Triangulo, ["A", "B", "C"]) == 2
    ensures SomaArestas(["A", "B", "C"], Triangulo, ["A", "C"]) == 1
  {
    var nomes := ["A", "B", "C"];
    assert IndexOf(nomes, "A") == 0 && IndexOf(nomes, "B") == 1 && IndexOf(nomes, "C") == 2;
    assert ["A", "B", "C"][1..] == ["B", "C"];
    assert ["B", "C"][1..] == ["C"] && ["A", "C"][1..] == ["C"];
  }

  /** A valid three-vertex graph whose populated block is the triangle's
      reads as the triangle in both matrices. */
  lemma MatrizTriangulo(g: Grafo)
    requires g.Valid() && |g.nomes| == 3
    requires forall i, j :: 0 <= i < 3 && 0 <= j < 3 ==> g.matriz[i, j] == Triangulo[i][j]
    ensures g.Adjacencia() == Triangulo && g.Pesos() == Triangulo
  {
    var w, p := g.Adjacencia(), g.Pesos();
    assert w[0] == Triangulo[0] && w[1] == Triangulo[1] && w[2] == Triangulo[2];
    assert p[0] == Triangulo[0] && p[1] == Triangulo[1] && p[2] == Triangulo[2];
  }

  /** The outcome the query contract allows on the triangle is the one
      `Avaliar` computes. */
  lemma ConsultaTriangulo(r: Consulta)
    requires r.Encontrados? && r.caminhos == [["A", "B", "C"], ["A", "C"]] && |r.pesos| == 2
    requires r.pesos[0] == 2 && r.pesos[1] == 1
    requires exists k: nat :: PrimeiroMinimo(r.pesos, k) && r.maisCurto == r.caminhos[k]
    requires exists k: nat :: PrimeiroMaximo(r.pesos, k) && r.maisLongo == r.caminhos[k]
    ensures r == Encontrados([["A", "B", "C"], ["A", "C"]], [2, 1], ["A", "C"], ["A", "B", "C"])
  {
    var k: nat :| PrimeiroMinimo(r.pesos, k) && r.maisCurto == r.caminhos[k];
    var m: nat :| PrimeiroMaximo(r.pesos, m) && r.maisLongo == r.caminhos[m];
    assert k == 1 && m == 0;
    assert r.pesos == [2, 1];
  }
}
