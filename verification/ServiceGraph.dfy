/**
 * The service map (src/service_dependencies.cpp): loading its pages and resolving its edges.
 */
module ServiceGraph {
  import opened Strings
  import opened JsonTrees
  import opened TokenSets

  datatype EdgeStatistics = EdgeStatistics(
    requestCount: int,
    errorCount: int,
    faultCount: int,
    throttleCount: int,
    totalResponseTime: Double,
    hasStatistics: bool)

  datatype Edge = Edge(
    referenceId: Option<int>,
    aliasName: Bytes,
    aliasType: Bytes,
    edgeType: Bytes,
    statistics: EdgeStatistics,
    attributes: Bytes)

  datatype Service = Service(referenceId: Option<int>, name: Bytes, kind: Bytes, attributes: Bytes, edges: seq<Edge>)

  datatype EdgeRow = EdgeRow(
    sourceService: Bytes,
    targetService: Bytes,
    sourceType: Bytes,
    targetType: Bytes,
    edgeType: Bytes,
    statistics: EdgeStatistics,
    sourceAttributes: Bytes,
    targetAttributes: Bytes,
    edgeAttributes: Bytes)

  // ---------- resolving ----------

  /** The last loaded service with a reference id. */
  function LastWith(services: seq<Service>, id: int): Option<Service> {
    if services == [] then None
    else if services[|services| - 1].referenceId == Some(id) then Some(services[|services| - 1])
    else LastWith(services[..|services| - 1], id)
  }

  lemma {:induction false} LastWithMeaning(services: seq<Service>, id: int)
    ensures LastWith(services, id).None? <==> forall i | 0 <= i < |services| :: services[i].referenceId != Some(id)
    ensures LastWith(services, id).Some? ==>
              exists i | 0 <= i < |services| ::
                && LastWith(services, id) == Some(services[i]) && services[i].referenceId == Some(id)
                && forall j | i < j < |services| :: services[j].referenceId != Some(id)
  {
    if services == [] {
    } else {
      var n := |services| - 1;
      LastWithMeaning(services[..n], id);
      if services[n].referenceId != Some(id) && LastWith(services[..n], id).Some? {
        var i :| 0 <= i < n && LastWith(services[..n], id) == Some(services[..n][i]) && services[..n][i].referenceId == Some(id)
                 && forall j | i < j < n :: services[..n][j].referenceId != Some(id);
        assert services[i] == services[..n][i];
        forall j | i < j < |services| ensures services[j].referenceId != Some(id) {
          if j < n {
            assert services[j] == services[..n][j];
          }
        }
      } else {
        forall i | 0 <= i < n ensures services[i] == services[..n][i] {
        }
      }
    }
  }

  function Target(all: seq<Service>, edge: Edge): Option<Service> {
    if edge.referenceId.Some? then LastWith(all, edge.referenceId.value) else None
  }

  /** The row of one edge: its target by reference, or else by alias. */
  function RowFor(source: Service, edge: Edge, target: Option<Service>): EdgeRow {
    EdgeRow(
      source.name,
      if target.Some? then target.value.name else edge.aliasName,
      source.kind,
      if target.Some? then target.value.kind else edge.aliasType,
      edge.edgeType,
      edge.statistics,
      source.attributes,
      if target.Some? then target.value.attributes else [],
      edge.attributes)
  }

  function RowsOfEdges(all: seq<Service>, source: Service, edges: seq<Edge>): (r: seq<EdgeRow>)
    ensures |r| == |edges| && forall j | 0 <= j < |r| :: r[j] == RowFor(source, edges[j], Target(all, edges[j]))
  {
    seq(|edges|, j requires 0 <= j < |edges| => RowFor(source, edges[j], Target(all, edges[j])))
  }

  function RowsOf(all: seq<Service>, services: seq<Service>): seq<EdgeRow> {
    if services == [] then []
    else RowsOf(all, services[..|services| - 1]) + RowsOfEdges(all, services[|services| - 1], services[|services| - 1].edges)
  }

  /** The graph's rows: every edge of every service, resolved among all services. */
  function Resolve(services: seq<Service>): seq<EdgeRow> {
    RowsOf(services, services)
  }

  function EdgesBefore(services: seq<Service>, i: nat): nat
    requires i <= |services|
  {
    if i == 0 then 0 else EdgesBefore(services, i - 1) + |services[i - 1].edges|
  }

  lemma {:induction false} EdgesBeforePrefix(services: seq<Service>, n: nat, i: nat)
    requires i <= n <= |services|
    ensures EdgesBefore(services[..n], i) == EdgesBefore(services, i)
  {
    if i == 0 {
    } else {
      EdgesBeforePrefix(services, n, i - 1);
    }
  }

  lemma {:induction false} RowCount(all: seq<Service>, services: seq<Service>)
    ensures |RowsOf(all, services)| == EdgesBefore(services, |services|)
  {
    hide RowFor, Target;
    if services == [] {
    } else {
      var n := |services| - 1;
      RowCount(all, services[..n]);
      EdgesBeforePrefix(services, n, n);
    }
  }

  /** One row per edge, in service order and edge order. */
  lemma {:induction false} RowOfEdge(all: seq<Service>, services: seq<Service>, i: nat, j: nat)
    requires i < |services| && j < |services[i].edges|
    ensures |RowsOf(all, services)| == EdgesBefore(services, |services|)
    ensures EdgesBefore(services, i) + j < |RowsOf(all, services)|
    ensures RowsOf(all, services)[EdgesBefore(services, i) + j] ==
            RowFor(services[i], services[i].edges[j], Target(all, services[i].edges[j]))
  {
    hide RowFor, Target;
    var n := |services| - 1;
    RowCount(all, services);
    RowCount(all, services[..n]);
    EdgesBeforePrefix(services, n, n);
    EdgesBeforePrefix(services, n, i);
    if i >= n {
    } else {
      RowOfEdge(all, services[..n], i, j);
    }
  }

  /** The target columns are those of the last service with the edge's reference id, or else the edge's alias. */
  ghost predicate ShowsTarget(row: EdgeRow, all: seq<Service>, edge: Edge) {
    if edge.referenceId == None || forall m | 0 <= m < |all| :: all[m].referenceId != edge.referenceId then
      row.targetService == edge.aliasName && row.targetType == edge.aliasType && row.targetAttributes == []
    else
      exists m | 0 <= m < |all| ::
        && all[m].referenceId == edge.referenceId && (forall k | m < k < |all| :: all[k].referenceId != edge.referenceId)
        && row.targetService == all[m].name && row.targetType == all[m].kind && row.targetAttributes == all[m].attributes
  }

  /** Which service fills which column of an edge's row. */
  lemma EdgeRowShows(all: seq<Service>, services: seq<Service>, i: nat, j: nat)
    requires i < |services| && j < |services[i].edges|
    ensures EdgesBefore(services, i) + j < |RowsOf(all, services)|
    ensures var row, source, edge := RowsOf(all, services)[EdgesBefore(services, i) + j], services[i], services[i].edges[j];
            && row.sourceService == source.name && row.sourceType == source.kind && row.sourceAttributes == source.attributes
            && row.edgeType == edge.edgeType && row.statistics == edge.statistics && row.edgeAttributes == edge.attributes
            && ShowsTarget(row, all, edge)
  {
    hide RowsOf, EdgesBefore, LastWith;
    RowOfEdge(all, services, i, j);
    var edge := services[i].edges[j];
    if edge.referenceId.Some? {
      LastWithMeaning(all, edge.referenceId.value);
    }
  }

  /** The reference map holds the last service of each id. */
  ghost predicate Indexes(byReference: map<int, Service>, services: seq<Service>) {
    forall id :: LastWith(services, id) == if id in byReference then Some(byReference[id]) else None
  }

  lemma IndexOne(byReference: map<int, Service>, services: seq<Service>, s: Service)
    requires Indexes(byReference, services)
    ensures Indexes(if s.referenceId.Some? then byReference[s.referenceId.value := s] else byReference, services + [s])
  {
    assert (services + [s])[..|services|] == services;
  }

  lemma IndexNothing()
    ensures Indexes(map[], [])
  {
  }

  method IndexServices(services: seq<Service>) returns (byReference: map<int, Service>)
    ensures Indexes(byReference, services)
  {
    hide Indexes;
    byReference := map[];
    assert Indexes(map[], []) by { IndexNothing(); }
    for i := 0 to |services|
      invariant Indexes(byReference, services[..i])
    {
      IndexOne(byReference, services[..i], services[i]);
      assert services[..i + 1] == services[..i] + [services[i]];
      if services[i].referenceId.Some? {
        byReference := byReference[services[i].referenceId.value := services[i]];
      }
    }
    assert services[..|services|] == services;
  }

  lemma TargetFound(byReference: map<int, Service>, services: seq<Service>, edge: Edge)
    requires Indexes(byReference, services)
    ensures Target(services, edge) ==
            if edge.referenceId.Some? && edge.referenceId.value in byReference then Some(byReference[edge.referenceId.value]) else None
  {
  }

  method ResolveGraph(services: seq<Service>) returns (rows: seq<EdgeRow>)
    ensures rows == Resolve(services)
  {
    hide Indexes, RowFor;
    var byReference := IndexServices(services);
    rows := [];
    for i := 0 to |services|
      invariant rows == RowsOf(services, services[..i])
    {
      var source := services[i];
      for j := 0 to |source.edges|
        invariant rows == RowsOf(services, services[..i]) + RowsOfEdges(services, source, source.edges[..j])
      {
        var edge := source.edges[j];
        var target := None;
        if edge.referenceId.Some? && edge.referenceId.value in byReference {
          target := Some(byReference[edge.referenceId.value]);
        }
        assert target == Target(services, edge) by { TargetFound(byReference, services, edge); }
        assert RowsOfEdges(services, source, source.edges[..j + 1]) ==
               RowsOfEdges(services, source, source.edges[..j]) + [RowFor(source, edge, target)];
        rows := rows + [RowFor(source, edge, target)];
      }
      assert source.edges[..|source.edges|] == source.edges;
      assert services[..i + 1][..i] == services[..i];
    }
    assert services[..|services|] == services;
  }

  // ---------- loading ----------

  datatype GraphPage = GraphPage(services: seq<Service>, nextToken: Bytes)

  datatype LoadState = LoadState(services: seq<Service>, nextToken: Bytes, seenTokens: set<Bytes>, complete: bool)

  function Load(s: LoadState, page: GraphPage): LoadState {
    if page.nextToken == [] || page.nextToken in s.seenTokens then
      LoadState(s.services + page.services, s.nextToken, s.seenTokens, true)
    else
      LoadState(s.services + page.services, page.nextToken, s.seenTokens + {page.nextToken}, false)
  }

  function Loaded(pages: seq<GraphPage>, n: nat): LoadState
    requires n <= |pages|
  {
    if n == 0 then LoadState([], [], {}, false)
    else
      var s := Loaded(pages, n - 1);
      if s.complete then s else Load(s, pages[n - 1])
  }

  /** The tokens requested by the first n page requests; the first request has none. */
  function Requested(pages: seq<GraphPage>, n: nat): seq<Bytes>
    requires n <= |pages|
  {
    if n == 0 then [] else Requested(pages, n - 1) + if Loaded(pages, n - 1).complete then [] else [Loaded(pages, n - 1).nextToken]
  }

  function Concatenated(pages: seq<GraphPage>): seq<Service> {
    if pages == [] then [] else Concatenated(pages[..|pages| - 1]) + pages[|pages| - 1].services
  }

  predicate TokensFrom(pages: seq<GraphPage>, tokens: set<Bytes>) {
    forall i | 0 <= i < |pages| :: pages[i].nextToken == [] || pages[i].nextToken in tokens
  }

  /** While the graph loads, no token was requested twice and the next one was not requested yet. */
  ghost predicate LoadOk(s: LoadState, requested: seq<Bytes>, tokens: set<Bytes>) {
    && Distinct(requested) && Elements(requested) <= tokens + {[]}
    && [] !in s.seenTokens && s.seenTokens <= tokens
    && (!s.complete ==> s.nextToken !in requested && Elements(requested + [s.nextToken]) == s.seenTokens + {[]})
  }

  lemma LoadKeepsOk(s: LoadState, page: GraphPage, requested: seq<Bytes>, tokens: set<Bytes>)
    requires LoadOk(s, requested, tokens) && !s.complete
    requires page.nextToken == [] || page.nextToken in tokens
    ensures LoadOk(Load(s, page), requested + [s.nextToken], tokens)
  {
    hide Distinct, Elements;
    DistinctPush(requested, s.nextToken);
    var next := page.nextToken;
    if !(next == [] || next in s.seenTokens) {
      ElementsPush(requested + [s.nextToken], next);
      assert (s.seenTokens + {[]}) + {next} == (s.seenTokens + {next}) + {[]};
    }
  }

  lemma NothingLoaded(tokens: set<Bytes>)
    ensures LoadOk(LoadState([], [], {}, false), [], tokens)
  {
    NoElements();
    ElementsPush([], []);
  }

  lemma {:induction false} RunKeepsOk(pages: seq<GraphPage>, n: nat, tokens: set<Bytes>)
    requires n <= |pages| && TokensFrom(pages, tokens)
    ensures LoadOk(Loaded(pages, n), Requested(pages, n), tokens)
    ensures !Loaded(pages, n).complete ==> |Requested(pages, n)| == n
  {
    hide LoadOk, Load;
    if n == 0 {
      NothingLoaded(tokens);
    } else {
      RunKeepsOk(pages, n - 1, tokens);
      var s := Loaded(pages, n - 1);
      if s.complete {
        assert Requested(pages, n - 1) + [] == Requested(pages, n - 1);
      } else {
        LoadKeepsOk(s, pages[n - 1], Requested(pages, n - 1), tokens);
      }
    }
  }

  /**
   * For every server drawing its tokens from a finite set: no token is requested twice, and loading
   * is complete after at most one request more than there are tokens.
   */
  lemma LoadTerminates(pages: seq<GraphPage>, n: nat, tokens: set<Bytes>)
    requires n <= |pages| && TokensFrom(pages, tokens)
    ensures Distinct(Requested(pages, n)) && |Requested(pages, n)| <= |tokens| + 1
    ensures !Loaded(pages, n).complete ==> n <= |tokens|
  {
    hide Distinct, Elements;
    RunKeepsOk(pages, n, tokens);
    var s, requested := Loaded(pages, n), Requested(pages, n);
    AskedBound(requested, tokens);
    if !s.complete {
      DistinctPush(requested, s.nextToken);
      assert Elements(requested + [s.nextToken]) <= tokens + {[]};
      AskedBound(requested + [s.nextToken], tokens);
    }
  }

  lemma StaysComplete(pages: seq<GraphPage>, n: nat)
    requires n + 1 <= |pages| && !Loaded(pages, n + 1).complete
    ensures !Loaded(pages, n).complete
  {
    hide Load;
  }

  /** Until loading is complete, every page fetched adds its services at the end. */
  lemma {:induction false} LoadedIsConcatenation(pages: seq<GraphPage>, n: nat)
    requires n <= |pages| && (n > 0 ==> !Loaded(pages, n - 1).complete)
    ensures Loaded(pages, n).services == Concatenated(pages[..n])
  {
    if n == 0 {
    } else {
      if n > 1 {
        assert !Loaded(pages, n - 2).complete by { StaysComplete(pages, n - 2); }
      }
      LoadedIsConcatenation(pages, n - 1);
      assert pages[..n][..n - 1] == pages[..n - 1];
    }
  }

  lemma {:induction false} LoadedPrefix(a: seq<GraphPage>, b: seq<GraphPage>, n: nat)
    requires n <= |a| && n <= |b| && a[..n] == b[..n]
    ensures Loaded(a, n) == Loaded(b, n)
  {
    hide Load;
    if n == 0 {
    } else {
      assert a[..n - 1] == a[..n][..n - 1] && b[..n - 1] == b[..n][..n - 1];
      LoadedPrefix(a, b, n - 1);
      assert a[n - 1] == a[..n][n - 1] && b[n - 1] == b[..n][n - 1];
    }
  }

  /**
   * The loop that loads the graph and then resolves it. replies are the pages in the order the
   * server answers; None stands for a request or a response that throws.
   */
  method LoadGraph(replies: seq<Option<GraphPage>>, ghost tokens: set<Bytes>) returns (rows: Option<seq<EdgeRow>>, fetched: nat)
    requires |replies| > |tokens|
    requires forall i | 0 <= i < |replies| :: replies[i].Some? ==> replies[i].value.nextToken == [] || replies[i].value.nextToken in tokens
    ensures fetched <= |tokens| + 1 && fetched <= |replies| && forall i | 0 <= i < fetched :: replies[i].Some?
    ensures rows.Some? ==> rows == Some(Resolve(Concatenated(Pages(replies[..fetched]))))
    ensures rows.None? ==> fetched < |replies| && replies[fetched].None?
  {
    hide Resolve, Concatenated;
    var services: seq<Service>, nextToken: Bytes, seenTokens: set<Bytes>, complete := [], [], {}, false;
    fetched := 0;
    ghost var pages: seq<GraphPage> := [];
    while !complete
      invariant fetched <= |replies| && forall i | 0 <= i < fetched :: replies[i].Some?
      invariant pages == Pages(replies[..fetched]) && TokensFrom(pages, tokens)
      invariant LoadState(services, nextToken, seenTokens, complete) == Loaded(pages, fetched) && fetched <= |tokens| + 1
      invariant fetched > 0 ==> !Loaded(pages, fetched - 1).complete
      decreases |tokens| + 1 - fetched, !complete
    {
      LoadTerminates(pages, fetched, tokens);
      if replies[fetched].None? {
        return None, fetched;
      }
      var page := replies[fetched].value;
      ghost var more := Pages(replies[..fetched + 1]);
      assert more[..fetched] == pages[..fetched];
      LoadedPrefix(more, pages, fetched);
      services := services + page.services;
      if page.nextToken == [] || page.nextToken in seenTokens {
        complete := true;
      } else {
        seenTokens := seenTokens + {page.nextToken};
        nextToken := page.nextToken;
      }
      fetched := fetched + 1;
      pages := more;
    }
    LoadedIsConcatenation(pages, fetched);
    assert pages[..fetched] == pages;
    var resolved := ResolveGraph(services);
    return Some(resolved), fetched;
  }

  lemma {:induction false} ConcatenatedCons(page: GraphPage, pages: seq<GraphPage>)
    ensures Concatenated([page] + pages) == page.services + Concatenated(pages)
  {
    var all := [page] + pages;
    if pages == [] {
      assert all[..0] == [];
    } else {
      ConcatenatedCons(page, pages[..|pages| - 1]);
      assert all[..|all| - 1] == [page] + pages[..|pages| - 1];
    }
  }

  lemma {:induction false} ConcatenationSplits(front: seq<GraphPage>, a: GraphPage, b: GraphPage, back: seq<GraphPage>, token: Bytes)
    ensures Concatenated(front + [a, b] + back) ==
            Concatenated(front + [GraphPage(a.services + b.services, token)] + back)
  {
    if front == [] {
      var whole := GraphPage(a.services + b.services, token);
      ConcatenatedCons(a, [b] + back);
      ConcatenatedCons(b, back);
      ConcatenatedCons(whole, back);
      assert front + [a, b] + back == [a] + ([b] + back);
      assert front + [whole] + back == [whole] + back;
    } else {
      ConcatenationSplits(front[1..], a, b, back, token);
      var whole := GraphPage(a.services + b.services, token);
      ConcatenatedCons(front[0], front[1..] + [a, b] + back);
      ConcatenatedCons(front[0], front[1..] + [whole] + back);
      assert front + [a, b] + back == [front[0]] + (front[1..] + [a, b] + back);
      assert front + [whole] + back == [front[0]] + (front[1..] + [whole] + back);
    }
  }

  /** Every page was asked for: loading went on until the last one. */
  predicate AllAsked(pages: seq<GraphPage>) {
    pages != [] && !Loaded(pages, |pages| - 1).complete
  }

  /** The first n pages all name a next one, and never the same twice. */
  predicate TokensFresh(pages: seq<GraphPage>, n: nat)
    requires n <= |pages|
  {
    && (forall i | 0 <= i < n :: pages[i].nextToken != [])
    && forall i, j | 0 <= i < j < n :: pages[i].nextToken != pages[j].nextToken
  }

  function TokensOf(pages: seq<GraphPage>, n: nat): set<Bytes>
    requires n <= |pages|
  {
    set i | 0 <= i < n :: pages[i].nextToken
  }

  lemma LoadCompletes(s: LoadState, page: GraphPage)
    ensures Load(s, page).complete <==> page.nextToken == [] || page.nextToken in s.seenTokens
    ensures !Load(s, page).complete ==> Load(s, page).seenTokens == s.seenTokens + {page.nextToken}
  {
  }

  lemma FreshOneMore(pages: seq<GraphPage>, n: nat)
    requires 0 < n <= |pages|
    ensures TokensFresh(pages, n) <==>
            TokensFresh(pages, n - 1) && pages[n - 1].nextToken != [] && pages[n - 1].nextToken !in TokensOf(pages, n - 1)
    ensures TokensOf(pages, n) == TokensOf(pages, n - 1) + {pages[n - 1].nextToken}
  {
  }

  /** Loading goes on past n pages exactly when their tokens are fresh; it has then seen exactly these. */
  lemma {:induction false} LoadsWhileFresh(pages: seq<GraphPage>, n: nat)
    requires n <= |pages|
    ensures !Loaded(pages, n).complete <==> TokensFresh(pages, n)
    ensures !Loaded(pages, n).complete ==> Loaded(pages, n).seenTokens == TokensOf(pages, n)
  {
    if n == 0 {
    } else {
      LoadsWhileFresh(pages, n - 1);
      FreshOneMore(pages, n);
      LoadCompletes(Loaded(pages, n - 1), pages[n - 1]);
      hide Load, TokensFresh, TokensOf;
    }
  }

  /** Every page is asked for exactly when all of them but the last name a next one, never the same twice. */
  lemma AllAskedExactly(pages: seq<GraphPage>)
    ensures AllAsked(pages) <==> pages != [] && TokensFresh(pages, |pages| - 1)
  {
    if pages != [] {
      LoadsWhileFresh(pages, |pages| - 1);
    }
  }

  lemma LoadAppends(s: LoadState, page: GraphPage)
    ensures Load(s, page).services == s.services + page.services
  {
  }

  /** The services loaded are those of exactly the pages asked for, in order, whatever pages the server has left. */
  lemma {:induction false} LoadedExactly(pages: seq<GraphPage>, n: nat)
    requires n <= |pages|
    ensures |Requested(pages, n)| <= n
    ensures !Loaded(pages, n).complete ==> |Requested(pages, n)| == n
    ensures Loaded(pages, n).services == Concatenated(pages[..|Requested(pages, n)|])
  {
    hide Load;
    if n == 0 {
    } else {
      LoadedExactly(pages, n - 1);
      var s := Loaded(pages, n - 1);
      if s.complete {
        assert Requested(pages, n) == Requested(pages, n - 1);
      } else {
        LoadAppends(s, pages[n - 1]);
        assert pages[..n][..n - 1] == pages[..n - 1];
      }
    }
  }

  /** However the server cuts the same services into pages, the loader gets them all as long as no token comes twice. */
  lemma CutDoesNotMatter(pages: seq<GraphPage>, others: seq<GraphPage>)
    requires pages != [] && TokensFresh(pages, |pages| - 1)
    requires others != [] && TokensFresh(others, |others| - 1)
    requires Concatenated(pages) == Concatenated(others)
    ensures Loaded(pages, |pages|).services == Concatenated(pages) == Loaded(others, |others|).services
  {
    hide Loaded, Concatenated, TokensFresh;
    AllAskedExactly(pages);
    AllAskedExactly(others);
    LoadedIsConcatenation(pages, |pages|);
    LoadedIsConcatenation(others, |others|);
    assert pages[..|pages|] == pages && others[..|others|] == others;
  }

  /** Splitting one page in two behind a new token loads the same services, if the tokens were fresh before. */
  lemma SplitDoesNotMatter(front: seq<GraphPage>, a: GraphPage, b: GraphPage, back: seq<GraphPage>)
    requires var split := front + [a, b] + back; TokensFresh(split, |split| - 1)
    ensures var split, whole := front + [a, b] + back, front + [GraphPage(a.services + b.services, b.nextToken)] + back;
            TokensFresh(whole, |whole| - 1) && Loaded(split, |split|).services == Loaded(whole, |whole|).services
  {
    hide Loaded, Concatenated;
    var split, whole := front + [a, b] + back, front + [GraphPage(a.services + b.services, b.nextToken)] + back;
    forall i | 0 <= i < |whole| ensures whole[i].nextToken == split[if i < |front| then i else i + 1].nextToken {
    }
    assert TokensFresh(whole, |whole| - 1);
    ConcatenationSplits(front, a, b, back, b.nextToken);
    CutDoesNotMatter(split, whole);
  }

  /** The condition is needed: split behind a token that came before, the page loses its last part. */
  lemma RepeatedTokenStops(s1: seq<Service>, s2: seq<Service>, s3: seq<Service>, token: Bytes)
    requires token != []
    ensures Loaded([GraphPage(s1, token), GraphPage(s2, token), GraphPage(s3, [])], 3).services == s1 + s2
    ensures Loaded([GraphPage(s1, token), GraphPage(s2 + s3, [])], 2).services == s1 + s2 + s3
  {
    var split := [GraphPage(s1, token), GraphPage(s2, token), GraphPage(s3, [])];
    var whole := [GraphPage(s1, token), GraphPage(s2 + s3, [])];
    assert [] + s1 == s1;
    assert Loaded(split, 1) == LoadState(s1, token, {token}, false) == Loaded(whole, 1);
    assert Loaded(split, 2) == LoadState(s1 + s2, token, {token}, true);
    assert s1 + (s2 + s3) == s1 + s2 + s3;
  }
}
