# Grafo: a verified model of the graph editor's core

The editor keeps one undirected weighted graph, `Grafo`. It holds at most 50
named vertices. Each vertex has a drawing position. Edges live in two 50×50
matrices: `matriz` is read by the path search and `pesos` is read when paths
are weighed. Every edge write updates both matrices in both directions.

The graph has four operations:

- `adicionarVertice` appends one name and its position;
- `AdicionarAresta` sets a symmetric weight;
- `criarGrafoManual` rebuilds the graph from a list of entries, each `{nome, arestas}`;
- `encontrarTodosCaminhos` runs a recursive depth-first search and records every simple path between two names.

The "find paths" handler checks both names, calls the search, and weighs each
path by summing `pesos` over its consecutive pairs. It then picks the first
cheapest path and the first costliest path.

The Dafny project has five modules and one module of worked examples:

- `Sequences` (`sequences.dfy`): `indexOf`, duplicate-free sequences, and `[...new Set(s)]` as `Dedup`.
- `Paths` (`paths.dfy`): the search as a pure function over vertex indices, `Explore`/`ExploreFrom`. Its proved properties: it is sound and complete for simple paths, and it returns paths in lexicographic order.
- `NamedPaths` (`named_paths.dfy`): the same search over vertex names, as `encontrarTodosCaminhos` returns it.
- `PathWeights` (`path_weights.dfy`): the weight `reduce`, `Math.min`/`Math.max`, and the first index of the extreme value.
- `GraphStore` (`graph_store.dfy`): two classes.
  - `Grafo` has the fields `nomes`, `coordenadas`, `matriz` and `pesos`. The matrices are `array2<int>`. Its methods update those fields in place.
  - `Busca` holds what the `dfs` closure shares: the `visitado` array, the `caminhoAtual` buffer and the list of recorded paths.
  - `Grafo.ConsultarCaminhos` is the logic of the query handler.
- `Scenarios` (`scenarios.dfy`): concrete graphs with their search results, weights and extreme choices.

`Grafo.Valid()` holds the graph invariants that every state-changing method preserves:

- names are unique and there are at most 50;
- there is one position per name;
- `matriz` equals `pesos` and is symmetric;
- the diagonal is zero;
- nothing is stored outside the rows and columns of existing vertices.

## Model

| member | source | states |
|---|---|---|
| Sequences.IndexOf | script.js:59-60 | the result is -1 exactly when the element is absent; otherwise it is the first position holding the element |
| Sequences.IndexOfDistinct | script.js:179-183 | in a list without repetitions, looking up the element at position i gives back i, so `nomes[indexOf(x)]` round-trips |
| Sequences.IndexOfPrefix | script.js:148-150 | an element found in a prefix has the same first position in the whole list |
| Sequences.Dedup | script.js:148-150 | the deduplicated list has no repetitions, holds exactly the elements of the input, and is no longer than it |
| Sequences.DedupOrder | script.js:148-150 | the deduplicated list keeps the elements in the order of their first occurrence in the input |
| Paths.UnvisitedShrinks | script.js:117 | marking an unvisited vertex strictly shrinks the set of vertices the search may still enter, so the recursion terminates |
| Paths.ExploreSound | script.js:115-136 | every path the search records from a buffer extends that buffer with fresh, pairwise distinct vertices, each joined to the one before by a nonzero entry from the buffer's last vertex on, and ends at the destination (`EnumerationCorrect` states the whole-path property) |
| Paths.ExploreFromSound | script.js:126-130 | every path the neighbour loop records from index i extends the buffer through a neighbour numbered at least i |
| Paths.ExploreComplete | script.js:115-136 | every simple walk to the destination that extends the buffer is recorded by the search |
| Paths.ExploreFromContains | script.js:126-129 | the neighbour loop from i records everything the recursive call records for each unvisited neighbour j ≥ i |
| Paths.SortedDistinct | script.js:126-130 | a list in strictly increasing lexicographic order has no repetitions |
| Paths.SortedConcat | script.js:126-130 | two sorted lists, each element of the first before each of the second, concatenate to a sorted list |
| Paths.ExploreSorted | script.js:115-136 | the search records its paths in strictly increasing lexicographic order of vertex indices |
| Paths.ExploreFromSorted | script.js:126-130 | the neighbour loop records its paths in strictly increasing lexicographic order |
| Paths.BranchBefore | script.js:126-129 | everything found below neighbour i comes before everything found below the later neighbours |
| Paths.Explore | script.js:115-136 | definition of one `dfs` call over vertex indices, no contract; its properties are in `ExploreSound`, `ExploreComplete`, `ExploreSorted` and `EnumerationCorrect` |
| Paths.ExploreFrom | script.js:126-130 | definition of the neighbour loop from index i, no contract; its properties are in `ExploreFromSound`, `ExploreFromContains`, `ExploreFromSorted` and `BranchBefore` |
| Paths.EnumerationCorrect | script.js:109-140 | over indices, a path is returned if and only if it is a simple path from the origin to the destination along nonzero entries; the result is sorted and has no repetitions |
| NamedPaths.Nomear | script.js:118 | definition of the name buffer (its ensures spells out the naming position by position); `Busca.Valid`, kept by every `Busca.Dfs` call, ties it to `caminhoAtual`, and `NomearInjective` shows that with unique names it loses nothing |
| NamedPaths.NomearTodos | script.js:122 | definition: each recorded index path, by name; `NomearTodosConcat`, `NamedSound` and `NamedComplete` state what naming preserves |
| NamedPaths.NomearTodosConcat | script.js:126-130 | naming a list of paths distributes over concatenation, so the records of successive neighbours append |
| NamedPaths.ExploreInRange | script.js:126-128 | every recorded index path stays inside the graph's vertices |
| NamedPaths.ExploreFromInRange | script.js:126-128 | every index path the neighbour loop records stays inside the graph's vertices |
| NamedPaths.Registrados | script.js:115-136 | definition of what one `dfs` call records, by name, no contract; `Busca.Dfs` is proved to append exactly this, and `RegistradosUnfold` unfolds it |
| NamedPaths.RegistradosDesde | script.js:126-130 | definition of what the neighbour loop records from index i, by name, no contract; `Busca.Vizinhos` is proved to append exactly this, and `RegistradosDesdeStep` unfolds it |
| NamedPaths.Caminhos | script.js:109-140 | definition of the search from origem towards destino, by name, no contract; `CaminhosCorrect` characterises it and `Grafo.EncontrarTodosCaminhos` is proved to return it |
| NamedPaths.Entre | script.js:379-381 | definition of `pesos[indexOf(a)][indexOf(b)]`, no contract; used by `SomaArestas` and `CaminhoSimples` |
| NamedPaths.RegistradosUnfold | script.js:115-136 | one `dfs` call records the buffer when its last vertex is the destination, and otherwise records what the neighbour loop records |
| NamedPaths.RegistradosDesdeStep | script.js:126-130 | one turn of the neighbour loop records the recursive call's paths for an unvisited neighbour and nothing otherwise; past the last index nothing more is recorded |
| NamedPaths.RegistradosDesdePasso | script.js:127-129 | the recorded list after a turn, followed by what the rest of the loop records, equals the list before that turn followed by what the loop records from that turn on |
| NamedPaths.NomearInjective | script.js:116 | with unique names, two index paths with the same names are equal |
| NamedPaths.NamedSound | script.js:115-131 | a simple index path, named, is a simple path of names from origem to destino |
| NamedPaths.Indices | script.js:379-380 | mapping names to `indexOf` gives in-range indices that name back the same path |
| NamedPaths.NamedComplete | script.js:115-131 | every simple path of names is the naming of a simple index path between the indices of origem and destino |
| NamedPaths.CaminhosCorrect | script.js:109-140 | a path of names is returned if and only if it starts at origem, ends at destino, repeats no name and joins each consecutive pair by a nonzero entry; each appears once, in lexicographic order of indices |
| PathWeights.Acumular | script.js:378-382 | definition of the `reduce` callback run from pair i with a running total, no contract; `AcumularIsSum` states what it computes |
| PathWeights.PesoCaminho | script.js:377-383 | definition of one path's weight as the handler computes it, no contract; `PesoCaminhoIsSum`, `PesoCaminhoSnoc` and `PesoCaminhoPositive` state its properties |
| PathWeights.AcumularIsSum | script.js:378-382 | the reduce from pair i with running total t yields t plus the edge weights of the rest of the path |
| PathWeights.PesoCaminhoIsSum | script.js:377-383 | a path's weight is the sum of `pesos` over its consecutive pairs; a one-vertex path weighs 0 |
| PathWeights.PesoCaminhoSnoc | script.js:378-382 | extending a path by one vertex adds exactly the weight of the new edge |
| PathWeights.SomaSnoc | script.js:378-382 | the reference sum of a path extended by one vertex adds the weight of the new edge |
| PathWeights.PesoCaminhoPositive | script.js:377-383 | with positive weights on its edges, a path weighs at least its number of edges |
| PathWeights.SomaPositive | script.js:377-383 | with positive weights on its edges, the reference sum is at least the number of edges |
| PathWeights.Min | script.js:386 | the minimum is one of the weights and no weight is below it |
| PathWeights.Max | script.js:387 | the maximum is one of the weights and no weight is above it |
| PathWeights.IndiceMaisCurto | script.js:386-388 | the chosen index holds a minimal weight and every earlier index holds a strictly larger one |
| PathWeights.IndiceMaisLongo | script.js:387-389 | the chosen index holds a maximal weight and every earlier index holds a strictly smaller one |
| GraphStore.Bloco | script.js:127 | definition of the value view of the populated block of a matrix; `Busca.Fiel`, required by every `Busca.Dfs` call, states that the search reads exactly this view |
| GraphStore.Grafo.Adjacencia | script.js:127 | the adjacency seen by the search is a square matrix with one row per vertex |
| GraphStore.Grafo.Pesos | script.js:381 | the weights seen by the handler form a square matrix with one row per vertex |
| GraphStore.Grafo.constructor | script.js:11-30 | a new graph has no names, no positions, fresh all-zero 50×50 matrices, and satisfies the graph invariants |
| GraphStore.Grafo.AdicionarVertice | script.js:39-50 | it succeeds exactly when the name is non-empty, new and the graph has fewer than 50 vertices; on success the name and position are appended, otherwise nothing changes; the invariants are kept |
| GraphStore.Grafo.AdicionarAresta | script.js:58-70 | between two distinct known names both orientations of the pair get the weight in both matrices, overwriting the old one, and no other entry changes; unknown names and self-loops change nothing; the invariants are kept |
| GraphStore.Grafo.EncontrarTodosCaminhos | script.js:109-140 | the result is exactly the simple name paths from origem to destino, each once and in lexicographic index order; it is `[[origem]]` when origem equals destino and empty when destino is unknown |
| GraphStore.Grafo.CriarGrafoManual | script.js:146-188 | the names become the first-seen deduplication of every declared and neighbour name; every such name is a vertex; vertex k of n is placed at `posicao(k, n)`; the fresh matrices hold 1 exactly on the declared pairs of distinct names and 0 elsewhere; the invariants hold |
| GraphStore.Grafo.PosicionarVertices | script.js:167-173 | one position per name, the k-th being the placement of vertex k of n |
| GraphStore.Grafo.LigarEntradas | script.js:176-187 | after joining the entries in order, the matrix holds 1 exactly on the pairs they declare; the invariants hold |
| GraphStore.Grafo.LigarEntrada | script.js:176-186 | joining one more entry to all its neighbours yields exactly the pairs of the longer description |
| GraphStore.Grafo.LigarVizinho | script.js:179-185 | joining one more neighbour adds exactly the pair of its indices, unless it is the entry's own name |
| GraphStore.Grafo.ConsultarCaminhos | script.js:359-389 | an unknown name gives the invalid-vertices outcome, and only then; no path gives the no-path outcome, and only then; otherwise the outcome holds the search result, each path's edge-weight sum, and the first cheapest and first costliest paths |
| GraphStore.Busca.constructor | script.js:110-112 | the search starts with no recorded path, an empty buffer and no vertex visited, on the graph's names and adjacency |
| GraphStore.Busca.Dfs | script.js:115-136 | a call appends to the recorded paths exactly what the search from the buffer extended by `atual` records, and leaves the buffer and the `visitado` flags as they were |
| GraphStore.Busca.Vizinhos | script.js:126-130 | the neighbour loop appends exactly what the search records through the unvisited neighbours, in index order |
| GraphStore.Busca.Visitar | script.js:127-129 | one turn recurses into neighbour i exactly when the edge is nonzero and i is unvisited, and appends what that call records |
| GraphStore.Marcas | script.js:111-135 | definition of the `visitado` flags for a given buffer; `Busca.Valid` keeps the flags equal to it through every `Busca.Dfs` call, and `MarcasEmpilha`/`MarcasDesempilha` state that a push raises and a pop lowers exactly one flag |
| GraphStore.MarcasEmpilha | script.js:117 | pushing a vertex raises its flag only |
| GraphStore.MarcasDesempilha | script.js:135 | popping the last vertex lowers its flag only, restoring the flags from before the push |
| GraphStore.Avaliar | script.js:377-389 | over a non-empty list of paths, each weight is the path's edge-weight sum, and the cheapest and costliest paths sit at the first index of the minimal and the maximal weight |
| GraphStore.PesosAreSums | script.js:377-383 | the mapped reduce gives each path's edge-weight sum |
| GraphStore.Mencionados | script.js:149 | definition of the `flatMap` of every entry's name and neighbours, no contract; `MencionadosContains` and `TodosMencionados` state what it holds |
| GraphStore.MencionadosContains | script.js:149 | an entry's name and its neighbours are among the mentioned names and among the deduplicated vertices |
| GraphStore.TodosMencionados | script.js:148-150 | every declared name and every neighbour name becomes a vertex, including a name that only appears as a neighbour |
| GraphStore.LigaMais | script.js:178-185 | one more neighbour adds exactly its pair with the entry's name to the declared connections |
| GraphStore.EsperadoPasso | script.js:179-185 | the expected matrix after one more neighbour differs only on the pair of its indices, and only when it is a different vertex |
| GraphStore.EsperadoFim | script.js:176-187 | after all neighbours of one more entry, the expected matrix is that of the longer description |
| GraphStore.DeclaradoExists | script.js:176-187 | a pair is declared exactly when some entry names one end and lists the other as a neighbour |
| Scenarios.RamoAB | script.js:115-136 | on the line and on the triangle, the search below A, B towards C records A, B, C only |
| Scenarios.LinhaBusca | script.js:115-136 | on the line A-B-C, the index search from A towards C records 0, 1, 2 only |
| Scenarios.LinhaCaminhos | script.js:109-140 | on the line with weights 4 and 6, the only path from A to C is A, B, C, which weighs 10 |
| Scenarios.TrianguloBusca | script.js:126-130 | on the triangle, the search from A towards C records 0, 1, 2 and then 0, 2, in neighbour-index order |
| Scenarios.TrianguloCaminhos | script.js:109-140 | on the triangle, the paths from A to C are A, B, C and then A, C |
| Scenarios.TrianguloExtremos | script.js:377-389 | on the triangle the two paths weigh 2 and 1; A, C is the cheapest and A, B, C the costliest |
| Scenarios.MesmoVertice | script.js:121-122 | a search from a vertex to itself records only the one-vertex path, which weighs 0 |
| Scenarios.SoVizinho | script.js:148-150 | for the description `X: Y`, the vertices are X and then Y, and X-Y is declared in both directions |
| Scenarios.NomeRepetido | script.js:41-49 | adding "A" twice succeeds once, is refused once, and leaves one vertex |
| Scenarios.LacoIgnorado | script.js:63 | after adding A and a self-loop on A with weight 3, the graph keeps its invariants, A is its only vertex, and every entry of both `matriz` and `pesos`, hence every weight involving A, is 0 |
| Scenarios.ConstruirTriangulo | script.js:39-70 | three `adicionarVertice` calls and three `AdicionarAresta` calls of weight 1 give a valid graph on A, B, C whose populated matrix block is the triangle |
| Scenarios.MatrizTriangulo | script.js:127 | a valid three-vertex graph whose populated block holds the triangle's entries reads as the triangle in both `matriz` and `pesos` |
| Scenarios.CaminhoAC | script.js:121-128 | A, C is a simple path of the triangle, so the query cannot report that no path exists |
| Scenarios.SomasTriangulo | script.js:377-383 | on the triangle, the edge sums of A, B, C and of A, C are 2 and 1 |
| Scenarios.ConsultaTriangulo | script.js:386-389 | with weights 2 and 1, the first-cheapest and first-costliest choices the query contract allows are A, C and A, B, C |
| Scenarios.TrianguloPeloGrafo | script.js:359-389 | the query from A to C on the triangle built through the graph's own methods finds A, B, C and A, C, weighing 2 and 1, with A, C the cheapest and A, B, C the costliest |

## Left out

- Canvas drawing: `desenharVertice`, `redesenharTudo` and every `ctx` call (script.js:192-296). This is rendering only.
- `gerarMatrizAdjacencia` (script.js:75-101). It only builds an HTML table and writes it to the page.
- Event handlers, `prompt`/`alert`, and the mouse hit-test with `Math.sqrt` (script.js:302-351, 354-434), as well as the `alert` inside `adicionarVertice` (script.js:42), whose refusal is modelled by the `false` result. These are input and output. The logic of the path query (script.js:364-389) is kept as `Grafo.ConsultarCaminhos`.
- The text of the query result (script.js:391 on) and its display.
- The highlighting of the chosen paths, which the source keeps in the globals `caminhoMaisCurto`/`caminhoMaisLongo`. The model returns them in the `Encontrados` outcome instead.
- The hard-coded example loader (script.js:437-469) is not modelled. Its direct writes of `grafo.nomes`, `grafo.coordenadas` and fresh matrices on an existing graph (script.js:438-455) bypass `adicionarVertice` and have no counterpart in the model; only the `AdicionarAresta` calls it then makes (script.js:457-464) are modelled.
- Floating-point arithmetic.
  - Weights are `int`. `parseFloat` input (script.js:324) is not modelled, and neither is `NaN` in `Math.min`/`Math.max`.
  - Weights need not be positive: the graph stores whatever weight it is given. `PathWeights.PesoCaminhoPositive` states what positive weights add.
- GraphStore.Grafo.CriarGrafoManual: the circle layout (script.js:163-173) uses `Math.cos`/`Math.sin` and the canvas size. The model stands it for a parameter `posicao(k, n)`, which gives the position of vertex k of n.
- GraphStore.Grafo.CriarGrafoManual: it requires at most 50 distinct names. What the source does with more is not modelled:
  - when the first declared pair whose first index is 50 or more is joined, `this.matriz[i_origem]` is `undefined` and script.js:66 throws a TypeError;
  - when only the second index is 50 or more, script.js:66 grows row `i_origem` by one entry and script.js:67 then throws;
  - in both cases the call stops partway, after `nomes` and `coordenadas` have already been replaced;
  - when no declared pair reaches index 50 (say 51 entries with no neighbours), the call finishes with more than 50 names, and the search then reads `matriz[i][50]`, which is `undefined`; since `undefined !== 0` (script.js:127), it follows an edge that does not exist and can record a path through it.
- GraphStore.Grafo.EncontrarTodosCaminhos: it requires `origem` to be a vertex. The only caller checks this first (script.js:364). With an unknown `origem`, the source behaves as follows, and none of it is modelled:
  - it records `[[origem]]` when `origem === destino`;
  - it returns `[]` on an empty graph;
  - otherwise it fails reading `matriz[-1]`.
- GraphStore.Grafo.AdicionarVertice: JavaScript's `!nome` also rejects `null` and `undefined`. Only strings are modelled, so the only rejected name of this kind is the empty string.
- Aliasing of `nomes` with the local `nomesUnicos` in `criarGrafoManual`. Sequences are values in the model, so the alias is not captured.
- Recursion depth. The JavaScript call stack is not modelled; the depth is at most the number of vertices.
- GraphStore.Busca: the `dfs` closure becomes an object.
  - Its shared variables become fields.
  - A ghost `trilha` holds the indices of the buffered names.
  - The body of the neighbour loop becomes its own method, `Visitar`.
