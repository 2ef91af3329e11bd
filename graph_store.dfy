/** The `Grafo` class: an undirected weighted graph of at most 50 named
    vertices, kept as two 50×50 matrices (`matriz`, read by the path search,
    and `pesos`, read when weighing paths) that every edge write updates
    together, plus the recursive search for all simple paths between two
    names and the path query that weighs the paths it finds. */
module GraphStore {
  import opened Sequences
  import opened Paths
  import opened NamedPaths
  import opened PathWeights

  /** `this.ordem`: the side of both matrices, hence the vertex capacity. */
  const Ordem: nat := 50

  /** Where a vertex is drawn; it plays no part in any graph result. */
  datatype Ponto = Ponto(x: real, y: real)

  /** One entry of the bulk description: a vertex name and the names of the
      vertices it is connected to. */
  datatype Entrada = Entrada(nome: string, arestas: seq<string>)

  /** Outcome of the path query between two names. */
  datatype Consulta =
    | VerticesInvalidos
    | NenhumCaminho
    | Encontrados(caminhos: seq<seq<string>>, pesos: seq<int>, maisCurto: seq<string>, maisLongo: seq<string>)

  /** The top-left `n`×`n` block of a matrix, as values. */
  function Bloco(a: array2<int>, n: nat): (w: seq<seq<int>>)
    reads a
    requires n <= a.Length0 && n <= a.Length1
    ensures IsMatrix(w) && |w| == n
    ensures forall i, j :: 0 <= i < n && 0 <= j < n ==> w[i][j] == a[i, j]
  {
    seq(n, i requires 0 <= i < n reads a => seq(n, j requires 0 <= j < n reads a => a[i, j]))
  }

  /** `(i, j)` is one of the two orientations of the pair `{u, v}`. */
  predicate Par<T(==)>(u: T, v: T, i: T, j: T)
  {
    (i == u && j == v) || (i == v && j == u)
  }

  /** `dados.flatMap(d => [d.nome, ...d.arestas])`: every name the bulk
      description mentions, in order. */
  function Mencionados(dados: seq<Entrada>): seq<string>
  {
    if |dados| == 0 then [] else [dados[0].nome] + dados[0].arestas + Mencionados(dados[1..])
  }

  /** The entry declares a connection between `a` and `b`, in either direction. */
  predicate Liga(e: Entrada, a: string, b: string)
  {
    (e.nome == a && b in e.arestas) || (e.nome == b && a in e.arestas)
  }

  /** Some entry of `dados` declares a connection between `a` and `b`. */
  predicate Declarado(dados: seq<Entrada>, a: string, b: string)
  {
    |dados| > 0 && (Declarado(dados[..|dados| - 1], a, b) || Liga(Last(dados), a, b))
  }

  class Grafo {
    var nomes: seq<string>
    var coordenadas: seq<Ponto>
    var matriz: array2<int>
    var pesos: array2<int>

    /** The graph invariants: both matrices are 50×50 and distinct; names are
        unique and at most 50, one position per name; `matriz` and `pesos`
        hold the same symmetric weights, with nothing on the diagonal and
        nothing outside the rows and columns of existing vertices. */
    ghost predicate Valid()
      reads this, matriz, pesos
    {
      && matriz.Length0 == Ordem && matriz.Length1 == Ordem
      && pesos.Length0 == Ordem && pesos.Length1 == Ordem
      && matriz != pesos
      && |nomes| <= Ordem && |coordenadas| == |nomes| && Distinct(nomes)
      && (forall i, j :: 0 <= i < Ordem && 0 <= j < Ordem ==>
            && pesos[i, j] == matriz[i, j]
            && matriz[j, i] == matriz[i, j]
            && (i == j || |nomes| <= i || |nomes| <= j ==> matriz[i, j] == 0))
    }

    /** The adjacency matrix over the existing vertices. */
    function Adjacencia(): (w: seq<seq<int>>)
      reads this, matriz, pesos
      requires Valid()
      ensures IsMatrix(w) && |w| == |nomes|
    {
      Bloco(matriz, |nomes|)
    }

    /** The weight matrix over the existing vertices. */
    function Pesos(): (w: seq<seq<int>>)
      reads this, matriz, pesos
      requires Valid()
      ensures IsMatrix(w) && |w| == |nomes|
    {
      Bloco(pesos, |nomes|)
    }

    /** An empty graph with zeroed 50×50 matrices. */
    constructor ()
      ensures Valid() && nomes == [] && coordenadas == [] && fresh(matriz) && fresh(pesos)
      ensures forall i, j :: 0 <= i < Ordem && 0 <= j < Ordem ==> matriz[i, j] == 0
    {
      nomes := [];
      coordenadas := [];
      matriz := new int[Ordem, Ordem]((i, j) => 0);
      pesos := new int[Ordem, Ordem]((i, j) => 0);
    }

    /** `adicionarVertice`: refuses an empty name, a name already present and
        a full graph; otherwise appends the name and its position. */
    method AdicionarVertice(nome: string, x: real, y: real) returns (ok: bool)
      requires Valid()
      modifies this`nomes, this`coordenadas
      ensures Valid()
      ensures ok <==> nome != "" && nome !in old(nomes) && |old(nomes)| < Ordem
      ensures nomes == (if ok then old(nomes) + [nome] else old(nomes))
      ensures coordenadas == (if ok then old(coordenadas) + [Ponto(x, y)] else old(coordenadas))
    {
      if nome == "" || nome in nomes || |nomes| >= Ordem {
        return false;
      }
      nomes := nomes + [nome];
      coordenadas := coordenadas + [Ponto(x, y)];
      return true;
    }

    /** `AdicionarAresta`: between two distinct known names, writes `peso` in
        both directions of both matrices, overwriting any earlier weight;
        an unknown name or a self-loop leaves everything as it was. */
    method AdicionarAresta(origem: string, destino: string, peso: int := 1)
      requires Valid()
      modifies matriz, pesos
      ensures Valid()
      ensures var io, id := IndexOf(nomes, origem), IndexOf(nomes, destino);
        forall i, j :: 0 <= i < Ordem && 0 <= j < Ordem ==>
          matriz[i, j] == if io != -1 && id != -1 && io != id && Par(io, id, i, j) then peso else old(matriz[i, j])
    {
      var iOrigem := IndexOf(nomes, origem);
      var iDestino := IndexOf(nomes, destino);
      if iOrigem == -1 || iDestino == -1 || iOrigem == iDestino {
        return;
      }
      matriz[iOrigem, iDestino] := peso;
      matriz[iDestino, iOrigem] := peso;
      pesos[iOrigem, iDestino] := peso;
      pesos[iDestino, iOrigem] := peso;
    }

    /** `encontrarTodosCaminhos`: every simple path of names from `origem` to
        `destino` along nonzero entries of `matriz`, each once, in
        lexicographic order of vertex indices. */
    method EncontrarTodosCaminhos(origem: string, destino: string) returns (caminhos: seq<seq<string>>)
      requires Valid() && origem in nomes
      ensures caminhos == Caminhos(nomes, Adjacencia(), origem, destino)
      ensures forall p :: p in caminhos <==> CaminhoSimples(nomes, Adjacencia(), p, origem, destino)
      ensures Distinct(caminhos)
      ensures exists ps :: Sorted(ps) && AllInRange(ps, |nomes|) && caminhos == NomearTodos(nomes, ps)
      ensures origem == destino ==> caminhos == [[origem]]
      ensures destino !in nomes ==> caminhos == []
    {
      var busca := new Busca(this, destino);
      busca.Dfs(origem);
      caminhos := busca.caminhos;
      assert busca.nomes == nomes && busca.w == Adjacencia() && busca.d == IndexOf(nomes, destino);
      assert [] + [IndexOf(nomes, origem)] == [IndexOf(nomes, origem)];
      assert caminhos == Registrados(nomes, Adjacencia(), IndexOf(nomes, destino), [IndexOf(nomes, origem)]);
      CaminhosCorrect(nomes, Adjacencia(), origem, destino);
      if origem == destino {
        var o := IndexOf(nomes, origem);
        RegistradosUnfold(nomes, Adjacencia(), o, [o]);
        assert Nomear(nomes, [o]) == [origem];
      }
      if caminhos != [] {
        assert caminhos[0] in caminhos;
      }
    }

    /** `criarGrafoManual`: the vertex set becomes every name the description
        mentions, deduplicated in first-seen order, placed by `posicao`
        (vertex `k` of `n`); both matrices are replaced by zeroed ones and
        each declared pair of distinct names gets weight 1 both ways. */
    method CriarGrafoManual(dados: seq<Entrada>, posicao: (nat, nat) -> Ponto)
      requires |Dedup(Mencionados(dados))| <= Ordem
      modifies this
      ensures Valid() && fresh(matriz) && fresh(pesos)
      ensures nomes == Dedup(Mencionados(dados))
      ensures forall e :: 0 <= e < |dados| ==> dados[e].nome in nomes
      ensures forall e, m :: 0 <= e < |dados| && 0 <= m < |dados[e].arestas| ==> dados[e].arestas[m] in nomes
      ensures |coordenadas| == |nomes| && forall k :: 0 <= k < |nomes| ==> coordenadas[k] == posicao(k, |nomes|)
      ensures MatrizDe(dados)
    {
      var nomesUnicos := Dedup(Mencionados(dados));
      nomes := nomesUnicos;
      coordenadas := [];
      matriz := new int[Ordem, Ordem]((i, j) => 0);
      pesos := new int[Ordem, Ordem]((i, j) => 0);
      PosicionarVertices(posicao);
      assert Valid();
      assert MatrizDe([]);
      TodosMencionados(dados);
      LigarEntradas(dados);
    }

    /** The `nomesUnicos.forEach` loop: appends the position of vertex `k`
        of `n` for every name, in order. */
    method PosicionarVertices(posicao: (nat, nat) -> Ponto)
      requires coordenadas == []
      modifies this`coordenadas
      ensures |coordenadas| == |nomes| && forall k :: 0 <= k < |nomes| ==> coordenadas[k] == posicao(k, |nomes|)
    {
      var n := |nomes|;
      var k := 0;
      while k < n
        invariant 0 <= k <= n
        invariant |coordenadas| == k && forall t :: 0 <= t < k ==> coordenadas[t] == posicao(t, n)
      {
        coordenadas := coordenadas + [posicao(k, n)];
        k := k + 1;
      }
    }

    /** The `dados.forEach` loop: the entries are joined in order, and after
        the first `e` of them the matrix holds exactly their pairs. */
    method LigarEntradas(dados: seq<Entrada>)
      requires Valid() && MatrizDe([])
      requires forall e :: 0 <= e < |dados| ==> dados[e].nome in nomes
      requires forall e, m :: 0 <= e < |dados| && 0 <= m < |dados[e].arestas| ==> dados[e].arestas[m] in nomes
      modifies matriz, pesos
      ensures Valid() && MatrizDe(dados)
    {
      assert dados[..0] == [];
      var e := 0;
      while e < |dados|
        invariant 0 <= e <= |dados|
        invariant Valid() && MatrizDe(dados[..e])
      {
        assert dados[..e + 1] == dados[..e] + [dados[e]];
        LigarEntrada(dados[..e], dados[e]);
        e := e + 1;
      }
      assert dados[..|dados|] == dados;
    }

    /** The body of the `dados.forEach` callback for one entry: joins its
        name to each of its neighbours, in order. */
    method LigarEntrada(ghost feitas: seq<Entrada>, vertice: Entrada)
      requires Valid() && MatrizDe(feitas)
      requires vertice.nome in nomes && forall m :: 0 <= m < |vertice.arestas| ==> vertice.arestas[m] in nomes
      modifies matriz, pesos
      ensures Valid() && MatrizDe(feitas + [vertice])
    {
      var origemIndex := IndexOf(nomes, vertice.nome);
      var m := 0;
      while m < |vertice.arestas|
        invariant 0 <= m <= |vertice.arestas|
        invariant Valid() && MatrizCom(feitas, vertice.nome, vertice.arestas[..m])
      {
        var destinoIndex := IndexOf(nomes, vertice.arestas[m]);
        if origemIndex != -1 && destinoIndex != -1 {
          LigarVizinho(feitas, vertice.nome, vertice.arestas, m, origemIndex, destinoIndex);
        }
        m := m + 1;
      }
      assert vertice.arestas[..|vertice.arestas|] == vertice.arestas;
      forall i, j | 0 <= i < Ordem && 0 <= j < Ordem
        ensures matriz[i, j] == if i < |nomes| && j < |nomes| && i != j && Declarado(feitas + [vertice], nomes[i], nomes[j]) then 1 else 0
      {
        EsperadoFim(nomes, feitas, vertice, i, j);
      }
    }

    /** The `AdicionarAresta` call for the neighbour `bs[m]` of `a`, whose
        indices are `o` and `t`. */
    method LigarVizinho(ghost feitas: seq<Entrada>, a: string, bs: seq<string>, m: nat, o: nat, t: nat)
      requires m < |bs| && Valid() && MatrizCom(feitas, a, bs[..m])
      requires o < |nomes| && t < |nomes| && nomes[o] == a && nomes[t] == bs[m]
      modifies matriz, pesos
      ensures Valid() && MatrizCom(feitas, a, bs[..m + 1])
    {
      IndexOfDistinct(nomes, o);
      IndexOfDistinct(nomes, t);
      label Antes:
      AdicionarAresta(nomes[o], nomes[t]);
      forall i, j | 0 <= i < Ordem && 0 <= j < Ordem
        ensures matriz[i, j] == Esperado(nomes, feitas, a, bs[..m + 1], i, j)
      {
        EsperadoPasso(nomes, feitas, a, bs, m, o, t, i, j);
        assert old@Antes(matriz[i, j]) == Esperado(nomes, feitas, a, bs[..m], i, j);
      }
    }

    /** The matrix holds weight 1 exactly on the pairs `dados` declares. */
    ghost predicate MatrizDe(dados: seq<Entrada>)
      reads this, matriz
      requires matriz.Length0 == Ordem && matriz.Length1 == Ordem
    {
      forall i, j :: 0 <= i < Ordem && 0 <= j < Ordem ==>
        matriz[i, j] == if i < |nomes| && j < |nomes| && i != j && Declarado(dados, nomes[i], nomes[j]) then 1 else 0
    }

    /** As `MatrizDe`, with the first neighbours `bs` of a further entry for `a`. */
    ghost predicate MatrizCom(dados: seq<Entrada>, a: string, bs: seq<string>)
      reads this, matriz
      requires matriz.Length0 == Ordem && matriz.Length1 == Ordem
    {
      forall i, j :: 0 <= i < Ordem && 0 <= j < Ordem ==> matriz[i, j] == Esperado(nomes, dados, a, bs, i, j)
    }

    /** The query handler: rejects unknown names, reports an empty search,
        otherwise weighs every path and picks the first cheapest and the
        first costliest. */
    method ConsultarCaminhos(origem: string, destino: string) returns (r: Consulta)
      requires Valid()
      ensures r.VerticesInvalidos? <==> origem !in nomes || destino !in nomes
      ensures r.NenhumCaminho? <==>
        origem in nomes && destino in nomes && forall p :: !CaminhoSimples(nomes, Adjacencia(), p, origem, destino)
      ensures r.Encontrados? ==>
        && origem in nomes
        && r.caminhos == Caminhos(nomes, Adjacencia(), origem, destino)
        && |r.caminhos| > 0 && |r.pesos| == |r.caminhos|
        && (forall k :: 0 <= k < |r.caminhos| ==>
              Conhecidos(nomes, r.caminhos[k]) && r.pesos[k] == SomaArestas(nomes, Pesos(), r.caminhos[k]))
        && (exists k: nat :: PrimeiroMinimo(r.pesos, k) && r.maisCurto == r.caminhos[k])
        && (exists k: nat :: PrimeiroMaximo(r.pesos, k) && r.maisLongo == r.caminhos[k])
    {
      if origem !in nomes || destino !in nomes {
        return VerticesInvalidos;
      }
      var caminhos := EncontrarTodosCaminhos(origem, destino);
      if |caminhos| == 0 {
        return NenhumCaminho;
      }
      assert CaminhoSimples(nomes, Adjacencia(), caminhos[0], origem, destino) by {
        assert caminhos[0] in caminhos;
      }
      forall k | 0 <= k < |caminhos|
        ensures Conhecidos(nomes, caminhos[k])
      {
        assert caminhos[k] in caminhos;
      }
      r := Avaliar(nomes, Pesos(), caminhos);
    }
  }

  /** The state the recursive `dfs` closure of `encontrarTodosCaminhos`
      shares: the graph it reads, the destination, the `visitado` flags, the
      `caminhoAtual` buffer and the list of recorded paths. The ghost
      constants name what the search sees of the graph (the names, the
      adjacency block, the destination's index) and the ghost `trilha`
      holds the indices of the names in the buffer. */
  class Busca {
    const grafo: Grafo
    const destino: string
    const visitado: array<bool>
    ghost const nomes: seq<string>
    ghost const w: seq<seq<int>>
    ghost const d: int
    var caminhoAtual: seq<string>
    var caminhos: seq<seq<string>>
    ghost var trilha: seq<nat>

    /** The graph still holds the names and adjacency the search was
        started on. */
    ghost predicate Fiel()
      reads grafo, grafo.matriz
    {
      && grafo.nomes == nomes && Distinct(nomes) && d == IndexOf(nomes, destino)
      && |nomes| <= grafo.matriz.Length0 && |nomes| <= grafo.matriz.Length1
      && IsMatrix(w) && |w| == |nomes|
      && forall i, j :: 0 <= i < |nomes| && 0 <= j < |nomes| ==> grafo.matriz[i, j] == w[i][j]
    }

    /** The buffer names exactly the vertices on `trilha`, and those are
        exactly the ones flagged as visited. */
    ghost predicate Valid()
      reads this, visitado
    {
      && visitado.Length == |nomes| && IsMatrix(w) && |w| == |nomes|
      && InRange(trilha, |nomes|)
      && caminhoAtual == Nomear(nomes, trilha)
      && visitado[..] == Marcas(|nomes|, trilha)
    }

    /** The closure's variables as `encontrarTodosCaminhos` creates them:
        no path found, nothing visited, an empty buffer. */
    constructor (g: Grafo, destino: string)
      requires g.Valid()
      ensures Valid() && Fiel() && fresh(visitado)
      ensures grafo == g && this.destino == destino
      ensures nomes == g.nomes && w == g.Adjacencia() && d == IndexOf(g.nomes, destino)
      ensures caminhos == [] && caminhoAtual == [] && trilha == []
    {
      grafo := g;
      this.destino := destino;
      nomes := g.nomes;
      w := g.Adjacencia();
      d := IndexOf(g.nomes, destino);
      visitado := new bool[|g.nomes|](_ => false);
      caminhoAtual := [];
      caminhos := [];
      trilha := [];
    }

    /** `dfs(atual)`: marks `atual`, pushes it, records the buffer at the
        destination or else searches the neighbours, then pops and unmarks,
        so that buffer and flags are as before the call. */
    method Dfs(atual: string)
      requires Valid() && Fiel() && atual in nomes && IndexOf(nomes, atual) !in trilha
      modifies this, visitado
      decreases Unvisited(|nomes|, trilha), 0
      ensures Valid()
      ensures caminhoAtual == old(caminhoAtual) && trilha == old(trilha) && visitado[..] == old(visitado[..])
      ensures caminhos == old(caminhos) + Registrados(nomes, w, d, old(trilha) + [IndexOf(nomes, atual)])
    {
      var iAtual := IndexOf(grafo.nomes, atual);
      MarcasEmpilha(|nomes|, trilha, iAtual);
      visitado[iAtual] := true;
      caminhoAtual := caminhoAtual + [atual];
      trilha := trilha + [iAtual];
      ghost var cur := trilha;
      assert caminhoAtual == Nomear(nomes, cur);
      RegistradosUnfold(nomes, w, d, cur);

      if atual == destino {
        assert Last(cur) == d;
        caminhos := caminhos + [caminhoAtual];
      } else {
        assert Last(cur) != d;
        UnvisitedShrinks(|nomes|, old(trilha), iAtual);
        Vizinhos(iAtual);
      }
      assert caminhos == old(caminhos) + Registrados(nomes, w, d, cur);

      caminhoAtual := caminhoAtual[..|caminhoAtual| - 1];
      trilha := trilha[..|trilha| - 1];
      MarcasDesempilha(|nomes|, trilha, iAtual);
      visitado[iAtual] := false;
    }

    /** The neighbour loop of `dfs`: for `i = 0 .. n-1`, searches from every
        vertex `i` joined to the current one and not visited. */
    method Vizinhos(iAtual: nat)
      requires Valid() && Fiel() && |trilha| > 0 && Last(trilha) == iAtual && iAtual != d
      modifies this, visitado
      decreases Unvisited(|nomes|, trilha), 2
      ensures Valid()
      ensures caminhoAtual == old(caminhoAtual) && trilha == old(trilha)
      ensures caminhos == old(caminhos) + RegistradosDesde(nomes, w, d, trilha, 0)
    {
      var i := 0;
      while i < |grafo.nomes|
        invariant 0 <= i <= |nomes|
        invariant Valid()
        invariant caminhoAtual == old(caminhoAtual) && trilha == old(trilha)
        invariant caminhos + RegistradosDesde(nomes, w, d, trilha, i)
          == old(caminhos) + RegistradosDesde(nomes, w, d, trilha, 0)
      {
        ghost var antes := caminhos;
        Visitar(iAtual, i);
        assert caminhos + RegistradosDesde(nomes, w, d, trilha, i + 1)
          == antes + RegistradosDesde(nomes, w, d, trilha, i);
        i := i + 1;
      }
      RegistradosDesdeStep(nomes, w, d, trilha, |nomes| - 1);
    }

    /** One turn of the neighbour loop: `dfs(this.nomes[i])` when `i` is
        joined to the current vertex and not visited. */
    method Visitar(iAtual: nat, i: nat)
      requires Valid() && Fiel() && |trilha| > 0 && Last(trilha) == iAtual && i < |nomes|
      modifies this, visitado
      decreases Unvisited(|nomes|, trilha), 1
      ensures Valid()
      ensures caminhoAtual == old(caminhoAtual) && trilha == old(trilha)
      ensures caminhos + RegistradosDesde(nomes, w, d, trilha, i + 1)
        == old(caminhos) + RegistradosDesde(nomes, w, d, trilha, i)
    {
      ghost var antes := caminhos;
      var aresta, marcado := grafo.matriz[iAtual, i], visitado[i];
      assert aresta == w[Last(trilha)][i];
      assert marcado == visitado[..][i] == Marcas(|nomes|, trilha)[i];
      if aresta != 0 && !marcado {
        var vizinho := grafo.nomes[i];
        IndexOfDistinct(nomes, i);
        assert IndexOf(nomes, vizinho) == i;
        Dfs(vizinho);
      }
      RegistradosDesdePasso(nomes, w, d, trilha, i, antes, caminhos);
    }
  }

  /** The `visitado` flags of an `n`-vertex search whose buffer holds the
      vertices `t`. */
  function Marcas(n: nat, t: seq<nat>): (m: seq<bool>)
    ensures |m| == n && forall v :: 0 <= v < n ==> (m[v] <==> v in t)
  {
    seq(n, v requires 0 <= v < n => v in t)
  }

  /** Pushing `i` raises its flag. */
  lemma MarcasEmpilha(n: nat, t: seq<nat>, i: nat)
    requires i < n
    ensures Marcas(n, t + [i]) == Marcas(n, t)[i := true]
  {
  }

  /** Popping `i` again lowers its flag and nothing else. */
  lemma MarcasDesempilha(n: nat, t: seq<nat>, i: nat)
    requires i < n && i !in t
    ensures Marcas(n, t) == Marcas(n, t + [i])[i := false]
  {
  }

  /** The rest of the query handler over a non-empty list of found paths:
      `caminhos.map` of the weight `reduce`, then `indexOf` of `Math.min`
      and of `Math.max` of the weights. */
  function Avaliar(nomes: seq<string>, pesos: seq<seq<int>>, caminhos: seq<seq<string>>): (r: Consulta)
    requires IsMatrix(pesos) && |pesos| == |nomes| && |caminhos| > 0
    requires forall k :: 0 <= k < |caminhos| ==> Conhecidos(nomes, caminhos[k])
    ensures r.Encontrados? && r.caminhos == caminhos && |r.pesos| == |caminhos|
    ensures forall k :: 0 <= k < |caminhos| ==> r.pesos[k] == SomaArestas(nomes, pesos, caminhos[k])
    ensures exists k: nat :: PrimeiroMinimo(r.pesos, k) && r.maisCurto == caminhos[k]
    ensures exists k: nat :: PrimeiroMaximo(r.pesos, k) && r.maisLongo == caminhos[k]
  {
    var ws := seq(|caminhos|, k requires 0 <= k < |caminhos| => PesoCaminho(nomes, pesos, caminhos[k]));
    PesosAreSums(nomes, pesos, caminhos, ws);
    var curto, longo := IndiceMaisCurto(ws), IndiceMaisLongo(ws);
    Encontrados(caminhos, ws, caminhos[curto], caminhos[longo])
  }

  lemma PesosAreSums(nomes: seq<string>, pesos: seq<seq<int>>, caminhos: seq<seq<string>>, ws: seq<int>)
    requires IsMatrix(pesos) && |pesos| == |nomes|
    requires forall k :: 0 <= k < |caminhos| ==> Conhecidos(nomes, caminhos[k])
    requires |ws| == |caminhos| && forall k :: 0 <= k < |caminhos| ==> ws[k] == PesoCaminho(nomes, pesos, caminhos[k])
    ensures forall k :: 0 <= k < |caminhos| ==> ws[k] == SomaArestas(nomes, pesos, caminhos[k])
  {
    forall k | 0 <= k < |caminhos|
      ensures ws[k] == SomaArestas(nomes, pesos, caminhos[k])
    {
      PesoCaminhoIsSum(nomes, pesos, caminhos[k]);
    }
  }

  /** Both names of every entry appear among the mentioned names. */
  lemma {:induction false} MencionadosContains(dados: seq<Entrada>, e: nat)
    requires e < |dados|
    ensures dados[e].nome in Mencionados(dados) && dados[e].nome in Dedup(Mencionados(dados))
    ensures forall m :: 0 <= m < |dados[e].arestas| ==>
      dados[e].arestas[m] in Mencionados(dados) && dados[e].arestas[m] in Dedup(Mencionados(dados))
  {
    if e > 0 {
      MencionadosContains(dados[1..], e - 1);
    }
    var s := Mencionados(dados);
    forall x | x in s
      ensures x in Dedup(s)
    {
      var k :| 0 <= k < |s| && s[k] == x;
    }
  }

  /** Every declared name and every neighbour name is a vertex of the
      deduplicated list. */
  lemma TodosMencionados(dados: seq<Entrada>)
    ensures forall e :: 0 <= e < |dados| ==> dados[e].nome in Dedup(Mencionados(dados))
    ensures forall e, m :: 0 <= e < |dados| && 0 <= m < |dados[e].arestas| ==> dados[e].arestas[m] in Dedup(Mencionados(dados))
  {
    forall e | 0 <= e < |dados|
      ensures dados[e].nome in Dedup(Mencionados(dados))
      ensures forall m :: 0 <= m < |dados[e].arestas| ==> dados[e].arestas[m] in Dedup(Mencionados(dados))
    {
      MencionadosContains(dados, e);
    }
  }

  /** One more neighbour `bs[m]` adds exactly the pair `{a, bs[m]}`. */
  lemma LigaMais(a: string, bs: seq<string>, m: nat)
    requires m < |bs|
    ensures forall x, y :: Liga(Entrada(a, bs[..m + 1]), x, y) <==> Liga(Entrada(a, bs[..m]), x, y) || Par(a, bs[m], x, y)
  {
    assert bs[..m + 1] == bs[..m] + [bs[m]];
  }

  /** The entry `(i, j)` of an `nomes`-vertex matrix once the entries
      `dados` and the neighbours `bs` of a further entry for `a` are joined. */
  function Esperado(nomes: seq<string>, dados: seq<Entrada>, a: string, bs: seq<string>, i: nat, j: nat): int
  {
    if i < |nomes| && j < |nomes| && i != j
       && (Declarado(dados, nomes[i], nomes[j]) || Liga(Entrada(a, bs), nomes[i], nomes[j]))
    then 1 else 0
  }

  /** One more neighbour `bs[m]` of `a` sets exactly the entries of the pair
      of their indices `{o, t}` to 1, unless it is `a` itself. */
  lemma EsperadoPasso(nomes: seq<string>, dados: seq<Entrada>, a: string, bs: seq<string>, m: nat, o: nat, t: nat, i: nat, j: nat)
    requires Distinct(nomes) && m < |bs| && o < |nomes| && t < |nomes| && nomes[o] == a && nomes[t] == bs[m]
    ensures Esperado(nomes, dados, a, bs[..m + 1], i, j)
      == if o != t && Par(o, t, i, j) then 1 else Esperado(nomes, dados, a, bs[..m], i, j)
  {
    LigaMais(a, bs, m);
  }

  /** Once all neighbours of a further entry are joined, the entries are
      those of the longer description. */
  lemma EsperadoFim(nomes: seq<string>, dados: seq<Entrada>, e: Entrada, i: nat, j: nat)
    ensures Esperado(nomes, dados, e.nome, e.arestas, i, j)
      == if i < |nomes| && j < |nomes| && i != j && Declarado(dados + [e], nomes[i], nomes[j]) then 1 else 0
  {
    assert (dados + [e])[..|dados|] == dados;
  }

  /** Every entry is a list element, so `Declarado` is the existence of a
      declaring entry. */
  lemma {:induction false} DeclaradoExists(dados: seq<Entrada>, a: string, b: string)
    ensures Declarado(dados, a, b) <==> exists e :: e in dados && Liga(e, a, b)
  {
    if |dados| > 0 {
      var init := dados[..|dados| - 1];
      DeclaradoExists(init, a, b);
      assert dados == init + [Last(dados)];
      if e :| e in dados && Liga(e, a, b) {
        if e != Last(dados) {
          assert e in init;
        }
      }
    }
  }
}
