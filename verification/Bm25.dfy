/** The BM25 index and search, against scores computed directly from the texts. Natural log is a parameter. */
module Bm25 {
  import opened Prefixes
  import opened Lexicon
  import opened Analysis
  import opened Ranking

  const K1: real := 1.5
  const B: real := 0.75

  datatype Posting = Posting(chunk: nat, tf: real)

  datatype Index = Index(docCount: nat, avgDocLen: real, vocab: map<string, nat>, postings: seq<seq<Posting>>, docLengths: seq<nat>)

  // ---------------------------------------------------------------- what the index holds

  function TotalLength(docs: seq<Tokens>): nat {
    if docs == [] then 0 else TotalLength(docs[..|docs| - 1]) + |docs[|docs| - 1]|
  }

  function AvgLength(docs: seq<Tokens>): real {
    if docs == [] then 0.0 else TotalLength(docs) as real / |docs| as real
  }

  /** The chunks that contain a term, in order, each once, with its exact count. */
  function PostingsOf(docs: seq<Tokens>, t: string): seq<Posting> {
    if docs == [] then []
    else
      var n := |docs| - 1;
      PostingsOf(docs[..n], t) + (if t in docs[n] then [Posting(n, Count(docs[n], t) as real)] else [])
  }

  ghost predicate IsIndex(ix: Index, docs: seq<Tokens>, terms: seq<string>) {
    && ix.docCount == |docs|
    && LengthsOf(ix.docLengths, docs)
    && ix.avgDocLen == AvgLength(docs)
    && IsVocab(ix.vocab, terms) && Covers(ix.vocab, docs)
    && ArePostings(ix.postings, terms, docs)
  }

  // ---------------------------------------------------------------- building it

  /** Adds one chunk's frequencies to the posting lists, in hash order. */
  method Post(postings0: seq<seq<Posting>>, tf: map<nat, nat>, ghost terms: seq<string>, ghost docs: seq<Tokens>, c: nat)
    returns (postings: seq<seq<Posting>>)
    requires c < |docs| && IsTf(tf, terms, docs[c]) && |postings0| == |terms|
    requires forall id :: 0 <= id < |terms| ==> postings0[id] == PostingsOf(docs[..c], terms[id])
    ensures |postings| == |terms|
    ensures forall id :: 0 <= id < |terms| ==> postings[id] == PostingsOf(docs[..c + 1], terms[id])
  {
    postings := postings0;
    assert docs[..c + 1][..c] == docs[..c];
    var left := tf.Keys;
    while left != {}
      invariant left <= tf.Keys && |postings| == |terms|
      invariant forall id :: 0 <= id < |terms| ==>
                  postings[id] == PostingsOf(docs[..if id in tf && id !in left then c + 1 else c], terms[id])
    {
      var id :| id in left;
      postings := postings[id := postings[id] + [Posting(c, tf[id] as real)]];
      left := left - {id};
    }
  }

  ghost predicate LengthsOf(docLengths: seq<nat>, docs: seq<Tokens>) {
    |docLengths| == |docs| && forall c :: 0 <= c < |docs| ==> docLengths[c] == |docs[c]|
  }

  lemma LengthsAppend(docLengths: seq<nat>, docs: seq<Tokens>, doc: Tokens)
    requires LengthsOf(docLengths, docs)
    ensures LengthsOf(docLengths + [|doc|], docs + [doc])
  {}

  /** First pass: number the terms, count them per chunk, record the lengths. */
  method CountAll(docs: seq<Tokens>)
    returns (vocab: map<string, nat>, docTfs: seq<map<nat, nat>>, docLengths: seq<nat>, ghost terms: seq<string>)
    ensures IsVocab(vocab, terms) && Covers(vocab, docs)
    ensures LengthsOf(docLengths, docs) && AreTfs(docTfs, terms, docs)
  {
    vocab, docTfs, docLengths, terms := map[], [], [], [];
    var next := 0;
    for i := 0 to |docs|
      invariant IsVocab(vocab, terms) && next == |terms| && Covers(vocab, docs[..i])
      invariant LengthsOf(docLengths, docs[..i]) && AreTfs(docTfs, terms, docs[..i])
    {
      TakeNext(docs, i);
      LengthsAppend(docLengths, docs[..i], docs[i]);
      docLengths := docLengths + [|docs[i]|];
      vocab, next, docTfs, terms := CountNext(docs[i], vocab, next, docTfs, terms, docs[..i]);
    }
    TakeAll(docs);
  }

  method Total(docLengths: seq<nat>, ghost docs: seq<Tokens>) returns (total: nat)
    requires LengthsOf(docLengths, docs)
    ensures total == TotalLength(docs)
  {
    total := 0;
    for i := 0 to |docLengths|
      invariant total == TotalLength(docs[..i])
    {
      assert docs[..i + 1][..i] == docs[..i];
      total := total + docLengths[i];
    }
    assert docs[..|docs|] == docs;
  }

  ghost predicate ArePostings(postings: seq<seq<Posting>>, terms: seq<string>, docs: seq<Tokens>) {
    |postings| == |terms| && forall id :: 0 <= id < |terms| ==> postings[id] == PostingsOf(docs, terms[id])
  }

  /** Second pass: one posting list per term, filled chunk by chunk. */
  method PostAll(docTfs: seq<map<nat, nat>>, size: nat, ghost terms: seq<string>, ghost docs: seq<Tokens>) returns (postings: seq<seq<Posting>>)
    requires AreTfs(docTfs, terms, docs) && size == |terms|
    ensures ArePostings(postings, terms, docs)
  {
    postings := seq(size, _ => []);
    for c := 0 to |docTfs|
      invariant ArePostings(postings, terms, docs[..c])
    {
      postings := Post(postings, docTfs[c], terms, docs, c);
    }
    assert docs[..|docs|] == docs;
  }

  method BuildIndex(docs: seq<Tokens>) returns (ix: Index, ghost terms: seq<string>)
    ensures IsIndex(ix, docs, terms)
    ensures Covers(ix.vocab, docs)
    ensures forall t :: t in ix.vocab ==> ix.vocab[t] < |ix.postings| && ix.postings[ix.vocab[t]] == PostingsOf(docs, t)
  {
    var vocab, docTfs, docLengths;
    vocab, docTfs, docLengths, terms := CountAll(docs);
    var total := Total(docLengths, docs);
    var avg := if |docs| == 0 then 0.0 else total as real / |docs| as real;
    VocabSize(vocab, terms);
    var postings := PostAll(docTfs, |vocab|, terms, docs);
    ix := Index(|docs|, avg, vocab, postings, docLengths);
  }

  // ---------------------------------------------------------------- scoring, directly

  function Idf(ln: real -> real, docs: seq<Tokens>, t: string): real {
    var n, df := |docs| as real, DocFreq(docs, t) as real;
    ln((n - df + 0.5) / (df + 0.5) + 1.0)
  }

  function Max(x: real, y: real): real {
    if x > y then x else y
  }

  /** The saturated, length-normalised frequency. */
  function TfNorm(tf: real, len: real, avg: real): real
    requires tf > 0.0 && len >= 0.0
  {
    (tf * (K1 + 1.0)) / (tf + K1 * (1.0 - B + B * len / Max(avg, 1.0)))
  }

  function TermScore(ln: real -> real, docs: seq<Tokens>, t: string, c: nat): real
    requires c < |docs|
  {
    CountPositive(docs[c], t);
    if t in docs[c] then Idf(ln, docs, t) * TfNorm(Count(docs[c], t) as real, |docs[c]| as real, AvgLength(docs)) else 0.0
  }

  function Score(ln: real -> real, docs: seq<Tokens>, query: Tokens, c: nat): real
    requires c < |docs|
  {
    if query == [] then 0.0 else Score(ln, docs, query[..|query| - 1], c) + TermScore(ln, docs, query[|query| - 1], c)
  }

  /** The direct scores of exactly the chunks that share a token with the query. */
  function DirectScores(ln: real -> real, docs: seq<Tokens>, query: Tokens): map<nat, real> {
    map c: nat | c < |docs| && Shares(docs[c], query) :: Score(ln, docs, query, c)
  }

  // ---------------------------------------------------------------- searching

  function ChunksOf(list: seq<Posting>): set<nat> {
    if list == [] then {} else ChunksOf(list[..|list| - 1]) + {list[|list| - 1].chunk}
  }

  function Having(docs: seq<Tokens>, t: string): set<nat> {
    set c: nat | c < |docs| && t in docs[c]
  }

  /** A posting list holds each chunk with the term once, with its exact count. */
  ghost predicate Posts(list: seq<Posting>, docs: seq<Tokens>, t: string) {
    && (forall j :: 0 <= j < |list| ==> list[j].chunk in Having(docs, t) && list[j].tf == Count(docs[list[j].chunk], t) as real)
    && (forall j :: 0 <= j < |list| ==> list[j].chunk !in ChunksOf(list[..j]))
    && ChunksOf(list) == Having(docs, t)
  }

  lemma {:induction false} PostingsOfPosts(docs: seq<Tokens>, t: string)
    ensures Posts(PostingsOf(docs, t), docs, t)
  {
    if docs != [] {
      var n := |docs| - 1;
      PostingsOfPosts(docs[..n], t);
      HavingNext(docs, t);
      if t in docs[n] {
        PostsAppend(PostingsOf(docs[..n], t), docs, t);
      } else {
        PostsSkip(PostingsOf(docs[..n], t), docs, t);
      }
    }
  }

  lemma HavingNext(docs: seq<Tokens>, t: string)
    requires docs != []
    ensures var n := |docs| - 1; Having(docs, t) == Having(docs[..n], t) + (if t in docs[n] then {n} else {})
  {}

  lemma PostsAppend(before: seq<Posting>, docs: seq<Tokens>, t: string)
    requires docs != [] && t in docs[|docs| - 1] && Posts(before, docs[..|docs| - 1], t)
    ensures var n := |docs| - 1; Posts(before + [Posting(n, Count(docs[n], t) as real)], docs, t)
  {
    var n := |docs| - 1;
    HavingNext(docs, t);
    var last := Posting(n, Count(docs[n], t) as real);
    OneMoreChunk(before, last);
    StillApart(before, last);
    forall j | 0 <= j < |before| ensures before[j].tf == Count(docs[before[j].chunk], t) as real {
      assert before[j].chunk in Having(docs[..n], t);
    }
  }

  lemma OneMoreChunk(list: seq<Posting>, last: Posting)
    ensures ChunksOf(list + [last]) == ChunksOf(list) + {last.chunk}
  {
    assert (list + [last])[..|list|] == list;
  }

  lemma StillApart(list: seq<Posting>, last: Posting)
    requires last.chunk !in ChunksOf(list) && forall j :: 0 <= j < |list| ==> list[j].chunk !in ChunksOf(list[..j])
    ensures forall j :: 0 <= j <= |list| ==> (list + [last])[j].chunk !in ChunksOf((list + [last])[..j])
  {
    forall j | 0 <= j <= |list| ensures (list + [last])[..j] == list[..j] {}
  }

  lemma PostsSkip(before: seq<Posting>, docs: seq<Tokens>, t: string)
    requires docs != [] && t !in docs[|docs| - 1] && Posts(before, docs[..|docs| - 1], t)
    ensures Posts(before, docs, t) && before + [] == before
  {}

  lemma {:induction false} PostingsCount(docs: seq<Tokens>, t: string)
    ensures |PostingsOf(docs, t)| == DocFreq(docs, t)
  {
    if docs != [] {
      PostingsCount(docs[..|docs| - 1], t);
    }
  }

  /** One query token into the score table. */
  method AddTerm(ln: real -> real, ix: Index, scores0: map<nat, real>, t: string, ghost docs: seq<Tokens>, ghost terms: seq<string>)
    returns (scores: map<nat, real>)
    requires IsIndex(ix, docs, terms) && t in ix.vocab
    ensures Added(scores, scores0, Having(docs, t), ln, docs, t)
  {
    var postings := ix.postings[ix.vocab[t]];
    assert postings == PostingsOf(docs, t);
    PostingsOfPosts(docs, t);
    PostingsCount(docs, t);
    var df := |postings| as real;
    var n := ix.docCount as real;
    var idf := ln((n - df + 0.5) / (df + 0.5) + 1.0);
    assert idf == Idf(ln, docs, t);
    scores := AddPostings(ln, ix, scores0, postings, idf, t, docs);
  }

  /** The table once the chunks in `done` got their score for the term. */
  ghost predicate Added(scores: map<nat, real>, scores0: map<nat, real>, done: set<nat>, ln: real -> real, docs: seq<Tokens>, t: string)
    requires forall c :: c in done ==> c < |docs|
  {
    && scores.Keys == scores0.Keys + done
    && forall c :: c in scores ==> scores[c] == Before(scores0, c) + (if c in done then TermScore(ln, docs, t, c) else 0.0)
  }

  function Before(scores: map<nat, real>, c: nat): real {
    if c in scores then scores[c] else 0.0
  }

  lemma AddedNext(scores: map<nat, real>, scores0: map<nat, real>, done: set<nat>, ln: real -> real, docs: seq<Tokens>, t: string, c: nat)
    requires (forall b :: b in done ==> b < |docs|) && c < |docs| && c !in done && Added(scores, scores0, done, ln, docs, t)
    ensures Added(scores[c := Before(scores, c) + TermScore(ln, docs, t, c)], scores0, done + {c}, ln, docs, t)
  {}

  method AddPostings(ln: real -> real, ix: Index, scores0: map<nat, real>, postings: seq<Posting>, idf: real, ghost t: string, ghost docs: seq<Tokens>)
    returns (scores: map<nat, real>)
    requires LengthsOf(ix.docLengths, docs) && ix.avgDocLen == AvgLength(docs)
    requires Posts(postings, docs, t) && idf == Idf(ln, docs, t)
    ensures Added(scores, scores0, Having(docs, t), ln, docs, t)
  {
    scores := scores0;
    PrefixesHave(postings, docs, t);
    for j := 0 to |postings|
      invariant Added(scores, scores0, ChunksOf(postings[..j]), ln, docs, t)
    {
      var p := postings[j];
      ChunksNext(postings, j);
      AddedNext(scores, scores0, ChunksOf(postings[..j]), ln, docs, t, p.chunk);
      var contribution := ScorePosting(ln, ix, idf, p, t, docs);
      scores := scores[p.chunk := Before(scores, p.chunk) + contribution];
    }
    TakeAll(postings);
  }

  lemma PrefixesHave(list: seq<Posting>, docs: seq<Tokens>, t: string)
    requires Posts(list, docs, t)
    ensures forall j, c :: 0 <= j <= |list| && c in ChunksOf(list[..j]) ==> c < |docs|
  {
    forall j | 0 <= j <= |list| ensures forall c :: c in ChunksOf(list[..j]) ==> c < |docs| {
      PrefixHas(list, docs, t, j);
    }
  }

  lemma {:induction false} PrefixHas(list: seq<Posting>, docs: seq<Tokens>, t: string, j: nat)
    requires Posts(list, docs, t) && j <= |list|
    ensures forall c :: c in ChunksOf(list[..j]) ==> c < |docs|
  {
    if j > 0 {
      PrefixHas(list, docs, t, j - 1);
      ChunksNext(list, j - 1);
    }
  }

  lemma ChunksNext(list: seq<Posting>, j: nat)
    requires j < |list|
    ensures ChunksOf(list[..j + 1]) == ChunksOf(list[..j]) + {list[j].chunk}
  {
    assert list[..j + 1][..j] == list[..j];
  }

  method ScorePosting(ln: real -> real, ix: Index, idf: real, p: Posting, ghost t: string, ghost docs: seq<Tokens>)
    returns (contribution: real)
    requires LengthsOf(ix.docLengths, docs) && ix.avgDocLen == AvgLength(docs) && idf == Idf(ln, docs, t)
    requires p.chunk in Having(docs, t) && p.tf == Count(docs[p.chunk], t) as real
    ensures contribution == TermScore(ln, docs, t, p.chunk)
  {
    CountPositive(docs[p.chunk], t);
    contribution := idf * TfNorm(p.tf, ix.docLengths[p.chunk] as real, ix.avgDocLen);
  }

  /** `blank` is the source's early test for a query of white space only, in which the tokenizer finds no words. */
  method Search(ln: real -> real, ix: Index, query: Tokens, blank: bool, topK: nat, ghost docs: seq<Tokens>, ghost terms: seq<string>)
    returns (r: seq<Hit>)
    requires IsIndex(ix, docs, terms) && (blank ==> query == [])
    ensures IsTopK(r, DirectScores(ln, docs, query), topK, ByScore)
  {
    if ix.docCount == 0 || blank {
      assert DirectScores(ln, docs, query) == map[];
      return [];
    }
    var scores: map<nat, real> := map[];
    for i := 0 to |query|
      invariant scores == DirectScores(ln, docs, query[..i])
    {
      ghost var before := scores;
      if query[i] in ix.vocab {
        scores := AddTerm(ln, ix, scores, query[i], docs, terms);
      }
      DirectScoresStep(ln, docs, query, i, before, scores, ix.vocab);
    }
    assert query[..|query|] == query;
    var hits := Collect(scores);
    RankOrders();
    SortedPrefixIsTopK(hits, scores, topK, ByScore);
    r := Truncate(SortHits(hits, ByScore), topK);
  }

  lemma {:induction false} UnsharedScoresZero(ln: real -> real, docs: seq<Tokens>, query: Tokens, c: nat)
    requires c < |docs| && !Shares(docs[c], query)
    ensures Score(ln, docs, query, c) == 0.0
  {
    if query != [] {
      var n := |query| - 1;
      assert !Shares(docs[c], query[..n]);
      UnsharedScoresZero(ln, docs, query[..n], c);
    }
  }

  lemma SharesStep(doc: Tokens, query: Tokens, i: nat)
    requires i < |query|
    ensures Shares(doc, query[..i + 1]) <==> Shares(doc, query[..i]) || query[i] in doc
  {}

  /** One more query token adds its term scores, and the chunks that have it. */
  lemma DirectScoresStep(ln: real -> real, docs: seq<Tokens>, query: Tokens, i: nat, before: map<nat, real>, after: map<nat, real>, vocab: map<string, nat>)
    requires i < |query| && Covers(vocab, docs) && before == DirectScores(ln, docs, query[..i])
    requires query[i] !in vocab ==> after == before
    requires query[i] in vocab ==> Added(after, before, Having(docs, query[i]), ln, docs, query[i])
    ensures after == DirectScores(ln, docs, query[..i + 1])
  {
    assert query[..i + 1][..i] == query[..i];
    forall c: nat | c < |docs|
      ensures c in after <==> Shares(docs[c], query[..i + 1])
      ensures c in after ==> after[c] == Score(ln, docs, query[..i + 1], c)
    {
      SharesStep(docs[c], query, i);
      if query[i] in docs[c] {
        InAllTokens(docs, c, query[i]);
      }
      if !Shares(docs[c], query[..i]) {
        UnsharedScoresZero(ln, docs, query[..i], c);
      }
    }
  }

  // ---------------------------------------------------------------- bounds and conservation

  /** The idf of the query tokens that occur in some chunk, summed. */
  function KnownIdf(ln: real -> real, docs: seq<Tokens>, query: Tokens): real {
    if query == [] then 0.0
    else
      var t := query[|query| - 1];
      KnownIdf(ln, docs, query[..|query| - 1]) + (if t in AllTokens(docs) then Idf(ln, docs, t) else 0.0)
  }

  lemma IdfPositive(ln: real -> real, docs: seq<Tokens>, t: string)
    requires IsLn(ln)
    ensures Idf(ln, docs, t) > 0.0
  {
    DocFreqBounds(docs, t);
    var n, df := |docs| as real, DocFreq(docs, t) as real;
    assert (n - df + 0.5) / (df + 0.5) > 0.0;
  }

  lemma TfNormBounds(tf: real, len: real, avg: real)
    requires tf > 0.0 && len >= 0.0
    ensures 0.0 < TfNorm(tf, len, avg) < K1 + 1.0
  {}

  /** One occurrence in a chunk of average length counts once; the norm is the tf scaled by how long its chunk is. */
  lemma TfNormExactly(tf: real, len: real, avg: real)
    requires tf > 0.0 && len >= 0.0
    ensures avg >= 1.0 ==> TfNorm(1.0, avg, avg) == 1.0
    ensures var a := if avg < 1.0 then 1.0 else avg;
            TfNorm(tf, len, avg) * (tf + (0.375 + 1.125 * (len / a))) == 2.5 * tf
  {
    var a := if avg < 1.0 then 1.0 else avg;
    assert Max(avg, 1.0) == a;
    PartOfQuotient(0.75, len, a);
    assert avg >= 1.0 ==> 0.75 * avg / avg == 0.75;
  }

  lemma PartOfQuotient(f: real, x: real, a: real)
    requires a > 0.0
    ensures f * x / a == f * (x / a)
  {}

  lemma ProductBounds(x: real, y: real, k: real)
    requires x > 0.0 && 0.0 < y < k
    ensures 0.0 < x * y < k * x
  {}

  lemma TermScoreOf(ln: real -> real, docs: seq<Tokens>, t: string, c: nat) returns (norm: real)
    requires c < |docs| && t in docs[c]
    ensures TermScore(ln, docs, t, c) == Idf(ln, docs, t) * norm && 0.0 < norm < K1 + 1.0
  {
    CountPositive(docs[c], t);
    norm := TfNorm(Count(docs[c], t) as real, |docs[c]| as real, AvgLength(docs));
    TfNormBounds(Count(docs[c], t) as real, |docs[c]| as real, AvgLength(docs));
  }

  lemma TermScoreBounds(ln: real -> real, docs: seq<Tokens>, t: string, c: nat)
    requires IsLn(ln) && c < |docs|
    ensures t in docs[c] ==> 0.0 < TermScore(ln, docs, t, c) < (K1 + 1.0) * Idf(ln, docs, t)
    ensures 0.0 <= TermScore(ln, docs, t, c) <= (K1 + 1.0) * Idf(ln, docs, t)
  {
    IdfPositive(ln, docs, t);
    if t in docs[c] {
      var norm := TermScoreOf(ln, docs, t, c);
      ProductBounds(Idf(ln, docs, t), norm, K1 + 1.0);
    } else {
      ProductBounds(Idf(ln, docs, t), K1 / 2.0, K1 + 1.0);
      assert TermScore(ln, docs, t, c) == 0.0;
    }
  }

  /** A hit scores above zero and below (K1 + 1) times the summed idf of the query tokens that occur anywhere. */
  lemma {:induction false} ScoreBounds(ln: real -> real, docs: seq<Tokens>, query: Tokens, c: nat)
    requires IsLn(ln) && c < |docs|
    ensures 0.0 <= Score(ln, docs, query, c) <= (K1 + 1.0) * KnownIdf(ln, docs, query)
    ensures Shares(docs[c], query) ==> 0.0 < Score(ln, docs, query, c) < (K1 + 1.0) * KnownIdf(ln, docs, query)
  {
    if query != [] {
      var n := |query| - 1;
      ScoreBounds(ln, docs, query[..n], c);
      TermScoreBounds(ln, docs, query[n], c);
      SharesStep(docs[c], query, n);
      assert query[..n + 1] == query;
      if query[n] in docs[c] {
        InAllTokens(docs, c, query[n]);
      }
    }
  }

  function PostedTotal(list: seq<Posting>): real {
    if list == [] then 0.0 else PostedTotal(list[..|list| - 1]) + list[|list| - 1].tf
  }

  function IndexTotal(postings: seq<seq<Posting>>): real {
    if postings == [] then 0.0 else IndexTotal(postings[..|postings| - 1]) + PostedTotal(postings[|postings| - 1])
  }

  /** The counts of one text over a list of terms. */
  function CountOver(doc: Tokens, terms: seq<string>): nat {
    if terms == [] then 0 else CountOver(doc, terms[..|terms| - 1]) + Count(doc, terms[|terms| - 1])
  }

  predicate NoTwice(terms: seq<string>) {
    forall i, j :: 0 <= i < j < |terms| ==> terms[i] != terms[j]
  }

  lemma {:induction false} CountOverToken(doc: Tokens, t: string, terms: seq<string>)
    requires NoTwice(terms)
    ensures CountOver(doc + [t], terms) == CountOver(doc, terms) + (if t in terms then 1 else 0)
  {
    if terms != [] {
      var n := |terms| - 1;
      CountOverToken(doc, t, terms[..n]);
      assert t in terms <==> t in terms[..n] || t == terms[n];
      assert t == terms[n] ==> t !in terms[..n];
    }
  }

  lemma {:induction false} CountOverNothing(terms: seq<string>)
    ensures CountOver([], terms) == 0
  {
    if terms != [] {
      CountOverNothing(terms[..|terms| - 1]);
    }
  }

  /** Every token of a text is counted under exactly one term. */
  lemma {:induction false} CountOverAll(doc: Tokens, terms: seq<string>)
    requires NoTwice(terms) && forall t :: t in doc ==> t in terms
    ensures CountOver(doc, terms) == |doc|
  {
    if doc == [] {
      CountOverNothing(terms);
    } else {
      var n := |doc| - 1;
      assert doc == doc[..n] + [doc[n]];
      CountOverAll(doc[..n], terms);
      CountOverToken(doc[..n], doc[n], terms);
    }
  }

  function AllPostings(docs: seq<Tokens>, terms: seq<string>): seq<seq<Posting>> {
    seq(|terms|, i requires 0 <= i < |terms| => PostingsOf(docs, terms[i]))
  }

  lemma OneTextPosted(docs: seq<Tokens>, t: string)
    requires docs != []
    ensures var n := |docs| - 1;
            PostedTotal(PostingsOf(docs, t)) == PostedTotal(PostingsOf(docs[..n], t)) + Count(docs[n], t) as real
  {
    var n := |docs| - 1;
    CountPositive(docs[n], t);
    var list := PostingsOf(docs, t);
    if t in docs[n] {
      assert list[..|list| - 1] == PostingsOf(docs[..n], t);
    } else {
      assert list == PostingsOf(docs[..n], t);
    }
  }

  lemma {:induction false} OneTextTotal(docs: seq<Tokens>, terms: seq<string>)
    requires docs != []
    ensures var n := |docs| - 1;
            IndexTotal(AllPostings(docs, terms)) == IndexTotal(AllPostings(docs[..n], terms)) + CountOver(docs[n], terms) as real
    decreases |terms|
  {
    if terms != [] {
      var n, m := |docs| - 1, |terms| - 1;
      OneTextTotal(docs, terms[..m]);
      OneTextPosted(docs, terms[m]);
      LastPostings(docs, terms);
      LastPostings(docs[..n], terms);
    }
  }

  lemma LastPostings(docs: seq<Tokens>, terms: seq<string>)
    requires terms != []
    ensures var m := |terms| - 1;
            IndexTotal(AllPostings(docs, terms)) == IndexTotal(AllPostings(docs, terms[..m])) + PostedTotal(PostingsOf(docs, terms[m]))
  {
    var m := |terms| - 1;
    assert AllPostings(docs, terms)[..m] == AllPostings(docs, terms[..m]);
  }

  lemma {:induction false} PostingsTotal(docs: seq<Tokens>, terms: seq<string>)
    requires NoTwice(terms) && forall c, t :: 0 <= c < |docs| && t in docs[c] ==> t in terms
    ensures IndexTotal(AllPostings(docs, terms)) == TotalLength(docs) as real
  {
    if docs == [] {
      NoPostings(terms);
    } else {
      var n := |docs| - 1;
      assert forall c :: 0 <= c < n ==> docs[..n][c] == docs[c];
      PostingsTotal(docs[..n], terms);
      OneTextTotal(docs, terms);
      CountOverAll(docs[n], terms);
    }
  }

  lemma {:induction false} NoPostings(terms: seq<string>)
    ensures IndexTotal(AllPostings([], terms)) == 0.0
  {
    if terms != [] {
      var m := |terms| - 1;
      NoPostings(terms[..m]);
      assert AllPostings([], terms)[..m] == AllPostings([], terms[..m]);
    }
  }

  /** The counts in the posting lists of a built index add up to the lengths of its texts. */
  lemma TokensConserved(ix: Index, docs: seq<Tokens>, terms: seq<string>)
    requires IsIndex(ix, docs, terms)
    ensures IndexTotal(ix.postings) == TotalLength(docs) as real
  {
    assert ix.postings == AllPostings(docs, terms);
    forall c, t | 0 <= c < |docs| && t in docs[c] ensures t in terms {
      InAllTokens(docs, c, t);
      assert terms[ix.vocab[t]] == t;
    }
    PostingsTotal(docs, terms);
  }
}
