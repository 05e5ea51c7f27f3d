/** The search runtime: which rankers run for a request, and how their lists become one answer. */
module SearchRuntime {
  import opened Wrappers
  import opened Lexicon
  import opened Analysis
  import opened Ranking
  import opened Vectors
  import opened Fusion
  import Bm25
  import TfIdf
  import Trigram

  /** The flat dense store: one row per chunk, all of the same non-zero length. */
  datatype FlatStore = FlatStore(dim: nat, rows: seq<Dense>)

  datatype Runtime = Runtime(bm25: Bm25.Index, tfidf: Option<TfIdf.Index>, trigram: Option<Trigram.Index>, dense: Option<FlatStore>)

  /** A query text as the tokenizer and the lower-casing deliver it. */
  datatype Query = Query(words: Tokens, blank: bool, chars: string)

  datatype Method = Auto | Bm25Only | TfIdfOnly | FlatVector | TrigramOnly | Hybrid

  datatype Request = Request(query: Query, topK: nat, kind: Method, queryVector: Option<Dense>)

  datatype SearchError = TfIdfUnavailable | TrigramUnavailable | VectorUnavailable | VectorNeedsQueryVector
    | DimensionMismatch | HybridUnavailable | HybridNeedsQueryVector

  /** The chunks the indexes were built from, and the order in which each index numbered its terms. */
  datatype Corpus = Corpus(docs: seq<Tokens>, texts: seq<string>, wordTerms: seq<string>, weightTerms: seq<string>, gramTerms: seq<string>)

  datatype Reals = Reals(ln: real -> real, sqrt: real -> real)

  ghost predicate IsReals(m: Reals) {
    IsLn(m.ln) && IsSqrt(m.sqrt)
  }

  ghost predicate IsStore(store: FlatStore, n: nat) {
    store.dim > 0 && |store.rows| == n && forall c :: 0 <= c < n ==> |store.rows[c]| == store.dim
  }

  /** Every index the runtime has was built from the same chunks. */
  ghost predicate Built(rt: Runtime, m: Reals, corpus: Corpus) {
    && IsReals(m) && |corpus.docs| == |corpus.texts|
    && Bm25.IsIndex(rt.bm25, corpus.docs, corpus.wordTerms)
    && (rt.tfidf.Some? ==> TfIdf.IsIndex(rt.tfidf.value, m.ln, m.sqrt, corpus.docs, corpus.weightTerms))
    && (rt.trigram.Some? ==> Trigram.IsIndex(rt.trigram.value, Trigram.AllSets(corpus.texts), corpus.gramTerms))
    && (rt.dense.Some? ==> IsStore(rt.dense.value, |corpus.docs|))
  }

  ghost predicate IsQuery(q: Query) {
    q.blank ==> q.words == []
  }

  // ---------------------------------------------------------------- the score tables, from the texts alone

  function Bm25Scores(m: Reals, corpus: Corpus, q: Query): map<nat, real> {
    Bm25.DirectScores(m.ln, corpus.docs, q.words)
  }

  function TfIdfScores(m: Reals, corpus: Corpus, q: Query): map<nat, real> {
    TfIdf.CosineScores(m.ln, m.sqrt, corpus.docs, corpus.weightTerms, q.words)
  }

  function TrigramScores(kept: set<string>, corpus: Corpus, q: Query): map<nat, real> {
    Trigram.JaccardScores(Trigram.AllSets(corpus.texts), kept, Trigram.ExtractTrigrams(q.chars))
  }

  function DenseScores(m: Reals, store: FlatStore, v: Dense): map<nat, real>
    requires forall c :: 0 <= c < |store.rows| ==> |store.rows[c]| == |v|
  {
    map c: nat | c < |store.rows| :: Dot(Queried(m, v), store.rows[c])
  }

  function Queried(m: Reals, v: Dense): (r: Dense)
    ensures |r| == |v|
  {
    TfIdf.Unit(m.sqrt, v)
  }

  predicate Fits(store: FlatStore, v: Option<Dense>) {
    v.Some? && |v.value| == store.dim
  }

  ghost function Bm25Table(m: Reals, corpus: Corpus, req: Request): Table {
    Table(Bm25Scores(m, corpus, req.query), false)
  }

  ghost function TfIdfTables(rt: Runtime, m: Reals, corpus: Corpus, req: Request): seq<Table> {
    if rt.tfidf.Some? then [Table(TfIdfScores(m, corpus, req.query), true)] else []
  }

  ghost function TrigramTables(rt: Runtime, corpus: Corpus, req: Request): seq<Table> {
    if rt.trigram.Some? then [Table(TrigramScores(rt.trigram.value.vocab.Keys, corpus, req.query), false)] else []
  }

  ghost function LexicalTables(rt: Runtime, m: Reals, corpus: Corpus, req: Request): seq<Table> {
    [Bm25Table(m, corpus, req)] + TfIdfTables(rt, m, corpus, req) + TrigramTables(rt, corpus, req)
  }

  /** One table for each ranker that takes part in fusion, in the order they run. Those that scan the chunks in order or
      sort by id break ties by id; those that read a hash map do not. */
  ghost function Tables(rt: Runtime, m: Reals, corpus: Corpus, req: Request): seq<Table>
    requires Built(rt, m, corpus)
  {
    LexicalTables(rt, m, corpus, req)
    + (if rt.dense.Some? && Fits(rt.dense.value, req.queryVector) then [Table(DenseScores(m, rt.dense.value, req.queryVector.value), true)] else [])
  }

  /** Each table with whether its ranker breaks ties by id: BM25 and trigram read a hash map, the other two do not. */
  lemma TablesAre(rt: Runtime, m: Reals, corpus: Corpus, req: Request)
    requires Built(rt, m, corpus) && rt.tfidf.Some? && rt.trigram.Some? && rt.dense.Some? && Fits(rt.dense.value, req.queryVector)
    ensures Tables(rt, m, corpus, req) ==
            [Table(Bm25Scores(m, corpus, req.query), false), Table(TfIdfScores(m, corpus, req.query), true),
             Table(TrigramScores(rt.trigram.value.vocab.Keys, corpus, req.query), false),
             Table(DenseScores(m, rt.dense.value, req.queryVector.value), true)]
  {}

  ghost predicate AreRanked(lists: seq<seq<Hit>>, tables: seq<Table>, k: nat) {
    |lists| == |tables| && forall i :: 0 <= i < |lists| ==> IsRanking(lists[i], tables[i], k)
  }

  // ---------------------------------------------------------------- what every answer is like

  /** At most k hits, all different, all of them chunks. */
  predicate GoodHits(hits: seq<Hit>, n: nat, k: nat) {
    |hits| <= k && DistinctIds(hits) && forall i :: 0 <= i < |hits| ==> hits[i].id < n
  }

  ghost predicate TablesWithin(tables: seq<Table>, n: nat) {
    forall i, c :: 0 <= i < |tables| && c in tables[i].scores ==> c < n
  }

  /** What a fused answer is: a single list as it stands, several lists by rank fusion. */
  ghost predicate IsFused(hits: seq<Hit>, lists: seq<seq<Hit>>, k: nat) {
    if |lists| == 1 then hits == lists[0] else IsFusion(hits, lists, k)
  }

  lemma TablesAreWithin(rt: Runtime, m: Reals, corpus: Corpus, req: Request)
    requires Built(rt, m, corpus)
    ensures TablesWithin(Tables(rt, m, corpus, req), |corpus.docs|) && |Tables(rt, m, corpus, req)| > 0
  {}

  lemma TopKIsGood(hits: seq<Hit>, scores: map<nat, real>, k: nat, before: (Hit, Hit) -> bool, n: nat)
    requires IsTopK(hits, scores, k, before) && forall c :: c in scores ==> c < n
    ensures GoodHits(hits, n, k)
  {}

  lemma {:induction false} FusedWithin(lists: seq<seq<Hit>>, n: nat)
    requires forall i, j :: 0 <= i < |lists| && 0 <= j < |lists[i]| ==> lists[i][j].id < n
    ensures forall c :: c in FusedIds(lists) ==> c < n
  {
    if lists != [] {
      FusedWithin(lists[..|lists| - 1], n);
    }
  }

  lemma FusedIsGood(hits: seq<Hit>, lists: seq<seq<Hit>>, tables: seq<Table>, n: nat, k: nat)
    requires AreRanked(lists, tables, k) && TablesWithin(tables, n) && |lists| > 0
    requires IsFused(hits, lists, k) || IsFusion(hits, lists, k)
    ensures GoodHits(hits, n, k)
  {
    forall i, j | 0 <= i < |lists| && 0 <= j < |lists[i]| ensures lists[i][j].id < n {
      assert lists[i][j].id in tables[i].scores;
    }
    FusedWithin(lists, n);
    if IsFusion(hits, lists, k) {
      TopKIsGood(hits, FusedScores(lists), k, ByScoreThenId, n);
    } else {
      TopKIsGood(hits, tables[0].scores, k, OrderOf(tables[0]), n);
    }
  }

  lemma FusedTablesAreGood(hits: seq<Hit>, lists: seq<seq<Hit>>, rt: Runtime, m: Reals, corpus: Corpus, req: Request)
    requires Built(rt, m, corpus) && AreRanked(lists, Tables(rt, m, corpus, req), req.topK)
    requires IsFused(hits, lists, req.topK) || IsFusion(hits, lists, req.topK)
    ensures GoodHits(hits, |corpus.docs|, req.topK)
  {
    TablesAreWithin(rt, m, corpus, req);
    FusedIsGood(hits, lists, Tables(rt, m, corpus, req), |corpus.docs|, req.topK);
  }

  // ---------------------------------------------------------------- the rankers

  method NormalizeCopy(m: Reals, v: Dense) returns (r: Dense)
    ensures r == Queried(m, v)
  {
    var norm := m.sqrt(Dot(v, v));
    r := v;
    if norm > 0.0 {
      for i := 0 to |v|
        invariant |r| == |v|
        invariant forall j :: 0 <= j < i ==> r[j] == Times(v[j], 1.0 / norm)
        invariant forall j :: i <= j < |v| ==> r[j] == v[j]
      {
        TfIdf.DividedIsScaled(v[i], norm);
        r := r[i := r[i] / norm];
      }
      forall j | 0 <= j < |v| ensures r[j] == Scale(v, 1.0 / norm)[j] {
        ScaleAt(v, 1.0 / norm, j);
      }
    }
  }

  lemma {:induction false} OccursOnce(hits: seq<Hit>, c: nat)
    requires c < |hits| && forall j :: 0 <= j < |hits| && j != c ==> hits[j] != hits[c]
    ensures multiset(hits)[hits[c]] == 1
  {
    var front, back := hits[..c], hits[c + 1..];
    assert hits == front + [hits[c]] + back;
    assert hits[c] !in front && hits[c] !in back;
    assert multiset(front)[hits[c]] == 0 && multiset(back)[hits[c]] == 0;
  }

  lemma AllEnumerated(hits: seq<Hit>, scores: map<nat, real>)
    requires forall c: nat :: c in scores <==> c < |hits|
    requires forall c :: 0 <= c < |hits| ==> hits[c] == Hit(c, scores[c])
    ensures Enumerates(hits, scores)
  {
    forall c | c in scores ensures multiset(hits)[Hit(c, scores[c])] == 1 {
      OccursOnce(hits, c);
    }
  }

  method SearchFlat(m: Reals, store: FlatStore, v: Dense, topK: nat) returns (r: seq<Hit>)
    requires IsStore(store, |store.rows|) && |v| == store.dim
    ensures IsTopK(r, DenseScores(m, store, v), topK, ByScoreThenId)
  {
    var query := NormalizeCopy(m, v);
    var hits := seq(|store.rows|, c requires 0 <= c < |store.rows| => Hit(c, Dot(query, store.rows[c])));
    AllEnumerated(hits, DenseScores(m, store, v));
    RankOrders();
    SortedPrefixIsTopK(hits, DenseScores(m, store, v), topK, ByScoreThenId);
    r := Truncate(SortHits(hits, ByScoreThenId), topK);
  }

  method RunBm25(rt: Runtime, m: Reals, req: Request, ghost corpus: Corpus) returns (r: seq<Hit>)
    requires Built(rt, m, corpus) && IsQuery(req.query)
    ensures IsTopK(r, Bm25Scores(m, corpus, req.query), req.topK, ByScore) && GoodHits(r, |corpus.docs|, req.topK)
  {
    r := Bm25.Search(m.ln, rt.bm25, req.query.words, req.query.blank, req.topK, corpus.docs, corpus.wordTerms);
    TopKIsGood(r, Bm25Scores(m, corpus, req.query), req.topK, ByScore, |corpus.docs|);
  }

  method RunTfIdf(rt: Runtime, m: Reals, req: Request, ghost corpus: Corpus) returns (r: Result<seq<Hit>, SearchError>)
    requires Built(rt, m, corpus) && IsQuery(req.query)
    ensures if rt.tfidf.Some? then r.Ok? && IsTopK(r.value, TfIdfScores(m, corpus, req.query), req.topK, ByScoreThenId)
            else r == Err(TfIdfUnavailable)
    ensures r.Ok? ==> GoodHits(r.value, |corpus.docs|, req.topK)
  {
    if rt.tfidf.None? {
      return Err(TfIdfUnavailable);
    }
    var hits := TfIdf.Search(m.ln, m.sqrt, rt.tfidf.value, req.query.words, req.query.blank, req.topK, corpus.docs, corpus.weightTerms);
    TopKIsGood(hits, TfIdfScores(m, corpus, req.query), req.topK, ByScoreThenId, |corpus.docs|);
    r := Ok(hits);
  }

  method RunTrigram(rt: Runtime, m: Reals, req: Request, ghost corpus: Corpus) returns (r: Result<seq<Hit>, SearchError>)
    requires Built(rt, m, corpus)
    ensures if rt.trigram.Some? then r.Ok? && IsTopK(r.value, TrigramScores(rt.trigram.value.vocab.Keys, corpus, req.query), req.topK, ByScore)
            else r == Err(TrigramUnavailable)
    ensures r.Ok? ==> GoodHits(r.value, |corpus.docs|, req.topK)
  {
    if rt.trigram.None? {
      return Err(TrigramUnavailable);
    }
    var hits := Trigram.Search(rt.trigram.value, req.query.chars, req.topK, Trigram.AllSets(corpus.texts), corpus.gramTerms);
    TopKIsGood(hits, TrigramScores(rt.trigram.value.vocab.Keys, corpus, req.query), req.topK, ByScore, |corpus.docs|);
    r := Ok(hits);
  }

  method RunDense(rt: Runtime, m: Reals, req: Request, ghost corpus: Corpus) returns (r: Result<seq<Hit>, SearchError>)
    requires Built(rt, m, corpus)
    ensures r.Ok? <==> rt.dense.Some? && Fits(rt.dense.value, req.queryVector)
    ensures r.Ok? ==> IsTopK(r.value, DenseScores(m, rt.dense.value, req.queryVector.value), req.topK, ByScoreThenId)
    ensures r.Ok? ==> GoodHits(r.value, |corpus.docs|, req.topK)
    ensures r.Err? ==> r.error == if req.queryVector.None? then VectorNeedsQueryVector else if rt.dense.None? then VectorUnavailable else DimensionMismatch
  {
    if req.queryVector.None? {
      return Err(VectorNeedsQueryVector);
    }
    if rt.dense.None? {
      return Err(VectorUnavailable);
    }
    if |req.queryVector.value| != rt.dense.value.dim {
      return Err(DimensionMismatch);
    }
    var hits := SearchFlat(m, rt.dense.value, req.queryVector.value, req.topK);
    TopKIsGood(hits, DenseScores(m, rt.dense.value, req.queryVector.value), req.topK, ByScoreThenId, |corpus.docs|);
    r := Ok(hits);
  }

  // ---------------------------------------------------------------- the methods of a request

  lemma RankedConcat(xs: seq<seq<Hit>>, xtables: seq<Table>, ys: seq<seq<Hit>>, ytables: seq<Table>, k: nat)
    requires AreRanked(xs, xtables, k) && AreRanked(ys, ytables, k)
    ensures AreRanked(xs + ys, xtables + ytables, k)
  {}

  /** The TF-IDF list, if the runtime has that index. */
  method TfIdfLists(rt: Runtime, m: Reals, req: Request, ghost corpus: Corpus) returns (lists: seq<seq<Hit>>)
    requires Built(rt, m, corpus) && IsQuery(req.query)
    ensures AreRanked(lists, TfIdfTables(rt, m, corpus, req), req.topK)
  {
    lists := [];
    if rt.tfidf.Some? {
      var list := RunTfIdf(rt, m, req, corpus);
      lists := [list.value];
    }
  }

  /** The trigram list, if the runtime has that index. */
  method TrigramLists(rt: Runtime, m: Reals, req: Request, ghost corpus: Corpus) returns (lists: seq<seq<Hit>>)
    requires Built(rt, m, corpus)
    ensures AreRanked(lists, TrigramTables(rt, corpus, req), req.topK)
  {
    lists := [];
    if rt.trigram.Some? {
      var list := RunTrigram(rt, m, req, corpus);
      lists := [list.value];
    }
  }

  /** The lexical rankers every fused method runs first. */
  method LexicalLists(rt: Runtime, m: Reals, req: Request, ghost corpus: Corpus) returns (lists: seq<seq<Hit>>)
    requires Built(rt, m, corpus) && IsQuery(req.query)
    ensures AreRanked(lists, LexicalTables(rt, m, corpus, req), req.topK)
  {
    var first := RunBm25(rt, m, req, corpus);
    var tfidf := TfIdfLists(rt, m, req, corpus);
    var trigram := TrigramLists(rt, m, req, corpus);
    lists := [first] + tfidf + trigram;
    RankedConcat([first], [Bm25Table(m, corpus, req)], tfidf, TfIdfTables(rt, m, corpus, req), req.topK);
    RankedConcat([first] + tfidf, [Bm25Table(m, corpus, req)] + TfIdfTables(rt, m, corpus, req), trigram, TrigramTables(rt, corpus, req), req.topK);
  }

  lemma DenseJoins(lists: seq<seq<Hit>>, list: seq<Hit>, rt: Runtime, m: Reals, corpus: Corpus, req: Request)
    requires Built(rt, m, corpus) && rt.dense.Some? && Fits(rt.dense.value, req.queryVector)
    requires AreRanked(lists, LexicalTables(rt, m, corpus, req), req.topK)
    requires IsTopK(list, DenseScores(m, rt.dense.value, req.queryVector.value), req.topK, ByScoreThenId)
    ensures AreRanked(lists + [list], Tables(rt, m, corpus, req), req.topK)
  {}

  method RunAuto(rt: Runtime, m: Reals, req: Request, ghost corpus: Corpus) returns (r: Result<seq<Hit>, SearchError>, ghost lists: seq<seq<Hit>>)
    requires Built(rt, m, corpus) && IsQuery(req.query)
    ensures r.Err? <==> rt.dense.Some? && req.queryVector.Some? && |req.queryVector.value| != rt.dense.value.dim
    ensures r.Ok? ==> AreRanked(lists, Tables(rt, m, corpus, req), req.topK) && IsFused(r.value, lists, req.topK)
    ensures r.Ok? ==> GoodHits(r.value, |corpus.docs|, req.topK)
    ensures r.Err? ==> r.error == DimensionMismatch
  {
    var ranked := LexicalLists(rt, m, req, corpus);
    lists := ranked;
    if rt.dense.Some? && req.queryVector.Some? {
      var list := RunDense(rt, m, req, corpus);
      if list.Err? {
        return Err(list.error), lists;
      }
      DenseJoins(ranked, list.value, rt, m, corpus, req);
      ranked := ranked + [list.value];
      lists := ranked;
    } else {
      assert Tables(rt, m, corpus, req) == LexicalTables(rt, m, corpus, req);
    }
    var hits;
    if |ranked| == 1 {
      hits := ranked[0];
    } else {
      hits := RrfFuse(ranked, req.topK);
    }
    FusedTablesAreGood(hits, lists, rt, m, corpus, req);
    r := Ok(hits);
  }

  predicate SupportsHybrid(rt: Runtime) {
    rt.tfidf.Some? || rt.trigram.Some? || rt.dense.Some?
  }

  method RunHybrid(rt: Runtime, m: Reals, req: Request, ghost corpus: Corpus) returns (r: Result<seq<Hit>, SearchError>, ghost lists: seq<seq<Hit>>)
    requires Built(rt, m, corpus) && IsQuery(req.query)
    ensures r.Ok? <==> (rt.tfidf.Some? || rt.trigram.Some? || rt.dense.Some?) && (rt.dense.Some? ==> Fits(rt.dense.value, req.queryVector))
    ensures r.Ok? ==> AreRanked(lists, Tables(rt, m, corpus, req), req.topK) && IsFusion(r.value, lists, req.topK)
    ensures r.Ok? ==> GoodHits(r.value, |corpus.docs|, req.topK)
    ensures r.Err? ==> r.error == if !SupportsHybrid(rt) then HybridUnavailable else if req.queryVector.None? then HybridNeedsQueryVector else DimensionMismatch
  {
    lists := [];
    if !SupportsHybrid(rt) {
      return Err(HybridUnavailable), lists;
    }
    if rt.dense.Some? && req.queryVector.None? {
      return Err(HybridNeedsQueryVector), lists;
    }
    var ranked := LexicalLists(rt, m, req, corpus);
    if rt.dense.Some? {
      var list := RunDense(rt, m, req, corpus);
      if list.Err? {
        return Err(list.error), lists;
      }
      DenseJoins(ranked, list.value, rt, m, corpus, req);
      ranked := ranked + [list.value];
    } else {
      assert Tables(rt, m, corpus, req) == LexicalTables(rt, m, corpus, req);
    }
    lists := ranked;
    var hits := RrfFuse(ranked, req.topK);
    FusedTablesAreGood(hits, lists, rt, m, corpus, req);
    r := Ok(hits);
  }

  /**
   What each method answers: a ranker on its own the best of its own table in its own order, Auto and
   Hybrid one such list for each ranker that takes part, fused.
   */
  ghost predicate IsAnswer(hits: seq<Hit>, rt: Runtime, m: Reals, corpus: Corpus, req: Request)
    requires Built(rt, m, corpus) && Answers(rt, req)
  {
    match req.kind
    case Auto => exists lists :: AreRanked(lists, Tables(rt, m, corpus, req), req.topK) && IsFused(hits, lists, req.topK)
    case Hybrid => exists lists :: AreRanked(lists, Tables(rt, m, corpus, req), req.topK) && IsFusion(hits, lists, req.topK)
    case Bm25Only => IsTopK(hits, Bm25Scores(m, corpus, req.query), req.topK, ByScore)
    case TfIdfOnly => IsTopK(hits, TfIdfScores(m, corpus, req.query), req.topK, ByScoreThenId)
    case TrigramOnly => IsTopK(hits, TrigramScores(rt.trigram.value.vocab.Keys, corpus, req.query), req.topK, ByScore)
    case FlatVector => IsTopK(hits, DenseScores(m, rt.dense.value, req.queryVector.value), req.topK, ByScoreThenId)
  }

  /** Which error a request gets that is not answered. */
  function ErrorOf(rt: Runtime, req: Request): SearchError
    requires !Answers(rt, req)
  {
    match req.kind
    case Auto => DimensionMismatch
    case TfIdfOnly => TfIdfUnavailable
    case TrigramOnly => TrigramUnavailable
    case Hybrid =>
      if !SupportsHybrid(rt) then HybridUnavailable else if req.queryVector.None? then HybridNeedsQueryVector else DimensionMismatch
    case FlatVector =>
      if req.queryVector.None? then VectorNeedsQueryVector else if rt.dense.None? then VectorUnavailable else DimensionMismatch
  }

  /** The dispatch on the requested method. Whatever it answers is at most topK distinct chunk ids. */
  method Search(rt: Runtime, m: Reals, req: Request, ghost corpus: Corpus) returns (r: Result<seq<Hit>, SearchError>)
    requires Built(rt, m, corpus) && IsQuery(req.query)
    ensures r.Ok? <==> Answers(rt, req)
    ensures r.Ok? ==> IsAnswer(r.value, rt, m, corpus, req)
    ensures r.Err? ==> r.error == ErrorOf(rt, req)
    ensures r.Ok? ==> GoodHits(r.value, |corpus.docs|, req.topK)
  {
    ghost var lists;
    match req.kind {
      case Auto => r, lists := RunAuto(rt, m, req, corpus);
      case Bm25Only =>
        var hits := RunBm25(rt, m, req, corpus);
        r := Ok(hits);
      case TfIdfOnly => r := RunTfIdf(rt, m, req, corpus);
      case TrigramOnly => r := RunTrigram(rt, m, req, corpus);
      case Hybrid => r, lists := RunHybrid(rt, m, req, corpus);
      case FlatVector => r := RunDense(rt, m, req, corpus);
    }
  }

  /** Which requests are answered at all; everything else is an error. */
  predicate Answers(rt: Runtime, req: Request) {
    match req.kind
    case Auto => rt.dense.None? || req.queryVector.None? || Fits(rt.dense.value, req.queryVector)
    case Bm25Only => true
    case TfIdfOnly => rt.tfidf.Some?
    case TrigramOnly => rt.trigram.Some?
    case Hybrid => SupportsHybrid(rt) && (rt.dense.Some? ==> Fits(rt.dense.value, req.queryVector))
    case FlatVector => rt.dense.Some? && Fits(rt.dense.value, req.queryVector)
  }
}
