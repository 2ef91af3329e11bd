/** The pure part of the path query: the weight of each found path (a
    `reduce` over its consecutive pairs, looking both names up with
    `indexOf` in the weight matrix) and the choice of the cheapest and the
    costliest path (`Math.min`/`Math.max` of the weights, then the first
    index holding that value). */
module PathWeights {
  import opened Sequences
  import opened Paths
  import opened NamedPaths

  /** The `reduce` callback applied to the pairs from index `i` on, with the
      running `total`. */
  function Acumular(nomes: seq<string>, pesos: seq<seq<int>>, caminho: seq<string>, i: nat, total: int): int
    requires IsMatrix(pesos) && |pesos| == |nomes| && Conhecidos(nomes, caminho)
    decreases |caminho| - i
  {
    if i + 1 >= |caminho| then total
    else Acumular(nomes, pesos, caminho, i + 1, total + Entre(nomes, pesos, caminho[i], caminho[i + 1]))
  }

  /** `caminho.slice(0, -1).reduce(..., 0)`: the weight of one path. */
  function PesoCaminho(nomes: seq<string>, pesos: seq<seq<int>>, caminho: seq<string>): int
    requires IsMatrix(pesos) && |pesos| == |nomes| && Conhecidos(nomes, caminho)
  {
    Acumular(nomes, pesos, caminho, 0, 0)
  }

  /** Reference definition: the sum of the edge weights along the path,
      first edge first. */
  function SomaArestas(nomes: seq<string>, pesos: seq<seq<int>>, caminho: seq<string>): int
    requires IsMatrix(pesos) && |pesos| == |nomes| && Conhecidos(nomes, caminho)
  {
    if |caminho| < 2 then 0
    else Entre(nomes, pesos, caminho[0], caminho[1]) + SomaArestas(nomes, pesos, caminho[1..])
  }

  lemma {:induction false} AcumularIsSum(nomes: seq<string>, pesos: seq<seq<int>>, caminho: seq<string>, i: nat, total: int)
    requires IsMatrix(pesos) && |pesos| == |nomes| && Conhecidos(nomes, caminho) && i <= |caminho|
    ensures Acumular(nomes, pesos, caminho, i, total) == total + SomaArestas(nomes, pesos, caminho[i..])
    decreases |caminho| - i
  {
    if i + 1 < |caminho| {
      AcumularIsSum(nomes, pesos, caminho, i + 1, total + Entre(nomes, pesos, caminho[i], caminho[i + 1]));
      assert caminho[i..][1..] == caminho[i + 1..];
    }
  }

  /** The handler's reduce computes the sum of the edge weights along the
      path; a one-vertex path weighs 0. */
  lemma PesoCaminhoIsSum(nomes: seq<string>, pesos: seq<seq<int>>, caminho: seq<string>)
    requires IsMatrix(pesos) && |pesos| == |nomes| && Conhecidos(nomes, caminho)
    ensures PesoCaminho(nomes, pesos, caminho) == SomaArestas(nomes, pesos, caminho)
    ensures |caminho| <= 1 ==> PesoCaminho(nomes, pesos, caminho) == 0
  {
    AcumularIsSum(nomes, pesos, caminho, 0, 0);
    assert caminho[0..] == caminho;
  }

  /** Extending a path by one vertex adds the weight of the new edge. */
  lemma {:induction false} PesoCaminhoSnoc(nomes: seq<string>, pesos: seq<seq<int>>, caminho: seq<string>, v: string)
    requires IsMatrix(pesos) && |pesos| == |nomes| && Conhecidos(nomes, caminho) && |caminho| > 0 && v in nomes
    ensures Conhecidos(nomes, caminho + [v])
    ensures PesoCaminho(nomes, pesos, caminho + [v])
      == PesoCaminho(nomes, pesos, caminho) + Entre(nomes, pesos, Last(caminho), v)
  {
    SomaSnoc(nomes, pesos, caminho, v);
    PesoCaminhoIsSum(nomes, pesos, caminho);
    PesoCaminhoIsSum(nomes, pesos, caminho + [v]);
  }

  lemma {:induction false} SomaSnoc(nomes: seq<string>, pesos: seq<seq<int>>, caminho: seq<string>, v: string)
    requires IsMatrix(pesos) && |pesos| == |nomes| && Conhecidos(nomes, caminho) && |caminho| > 0 && v in nomes
    ensures Conhecidos(nomes, caminho + [v])
    ensures SomaArestas(nomes, pesos, caminho + [v])
      == SomaArestas(nomes, pesos, caminho) + Entre(nomes, pesos, Last(caminho), v)
  {
    if |caminho| > 1 {
      assert (caminho + [v])[1..] == caminho[1..] + [v];
      SomaSnoc(nomes, pesos, caminho[1..], v);
    }
  }

  /** With positive integer edge weights, a path weighs at least its number
      of edges. */
  lemma {:induction false} PesoCaminhoPositive(nomes: seq<string>, pesos: seq<seq<int>>, caminho: seq<string>)
    requires IsMatrix(pesos) && |pesos| == |nomes| && Conhecidos(nomes, caminho)
    requires forall k :: 0 <= k < |caminho| - 1 ==> Entre(nomes, pesos, caminho[k], caminho[k + 1]) > 0
    ensures PesoCaminho(nomes, pesos, caminho) >= |caminho| - 1
  {
    SomaPositive(nomes, pesos, caminho);
    PesoCaminhoIsSum(nomes, pesos, caminho);
  }

  lemma {:induction false} SomaPositive(nomes: seq<string>, pesos: seq<seq<int>>, caminho: seq<string>)
    requires IsMatrix(pesos) && |pesos| == |nomes| && Conhecidos(nomes, caminho)
    requires forall k :: 0 <= k < |caminho| - 1 ==> Entre(nomes, pesos, caminho[k], caminho[k + 1]) > 0
    ensures SomaArestas(nomes, pesos, caminho) >= |caminho| - 1
  {
    if |caminho| >= 2 {
      var tail := caminho[1..];
      assert forall k :: 0 <= k < |tail| ==> tail[k] == caminho[k + 1];
      SomaPositive(nomes, pesos, tail);
    }
  }

  /** `Math.min(...ws)`. */
  function Min(ws: seq<int>): (m: int)
    requires |ws| > 0
    ensures m in ws
    ensures forall k :: 0 <= k < |ws| ==> m <= ws[k]
  {
    if |ws| == 1 then ws[0]
    else
      var r := Min(ws[1..]);
      assert forall k :: 1 <= k < |ws| ==> ws[k] == ws[1..][k - 1];
      if ws[0] <= r then ws[0] else r
  }

  /** `Math.max(...ws)`. */
  function Max(ws: seq<int>): (m: int)
    requires |ws| > 0
    ensures m in ws
    ensures forall k :: 0 <= k < |ws| ==> ws[k] <= m
  {
    if |ws| == 1 then ws[0]
    else
      var r := Max(ws[1..]);
      assert forall k :: 1 <= k < |ws| ==> ws[k] == ws[1..][k - 1];
      if ws[0] >= r then ws[0] else r
  }

  /** `k` is the first index at which `ws` reaches its minimum. */
  predicate PrimeiroMinimo(ws: seq<int>, k: nat)
  {
    k < |ws| && (forall j :: 0 <= j < |ws| ==> ws[k] <= ws[j]) && (forall j :: 0 <= j < k ==> ws[k] < ws[j])
  }

  /** `k` is the first index at which `ws` reaches its maximum. */
  predicate PrimeiroMaximo(ws: seq<int>, k: nat)
  {
    k < |ws| && (forall j :: 0 <= j < |ws| ==> ws[j] <= ws[k]) && (forall j :: 0 <= j < k ==> ws[j] < ws[k])
  }

  /** `pesos.indexOf(Math.min(...pesos))`: where the cheapest path sits. */
  function IndiceMaisCurto(ws: seq<int>): (k: nat)
    requires |ws| > 0
    ensures PrimeiroMinimo(ws, k)
  {
    IndexOf(ws, Min(ws)) as nat
  }

  /** `pesos.indexOf(Math.max(...pesos))`: where the costliest path sits. */
  function IndiceMaisLongo(ws: seq<int>): (k: nat)
    requires |ws| > 0
    ensures PrimeiroMaximo(ws, k)
  {
    IndexOf(ws, Max(ws)) as nat
  }
}
