/** The trigram index and search, against Jaccard similarity of trigram sets. Texts are sequences of lower-cased characters. */
module Trigram {
  import opened Prefixes
  import opened Lexicon
  import opened Ranking

  type Trigrams = set<string>

  datatype Index = Index(docCount: nat, vocab: map<string, nat>, postings: seq<seq<nat>>, counts: seq<nat>)

  function Window(chars: string, i: nat): string
    requires i + 3 <= |chars|
  {
    chars[i..i + 3]
  }

  function ExtractTrigrams(chars: string): Trigrams {
    if |chars| < 3 then {} else set i: nat | i <= |chars| - 3 :: Window(chars, i)
  }

  /** The trigrams of a text are its stretches of three characters. */
  lemma TrigramIff(chars: string, t: string)
    ensures t in ExtractTrigrams(chars) <==> |t| == 3 && exists front: string, back: string :: chars == front + t + back
  {
    if t in ExtractTrigrams(chars) {
      var i: nat :| i <= |chars| - 3 && t == Window(chars, i);
      assert chars == chars[..i] + t + chars[i + 3..];
    }
    if |t| == 3 && exists front: string, back: string :: chars == front + t + back {
      var front: string, back: string :| chars == front + t + back;
      assert t == Window(chars, |front|);
    }
  }

  function AllSets(texts: seq<string>): (sets: seq<Trigrams>)
    ensures |sets| == |texts| && forall c :: 0 <= c < |texts| ==> sets[c] == ExtractTrigrams(texts[c])
  {
    seq(|texts|, c requires 0 <= c < |texts| => ExtractTrigrams(texts[c]))
  }

  // ---------------------------------------------------------------- what the index holds

  /** How many chunks have the trigram. */
  function SetFreq(sets: seq<Trigrams>, t: string): nat {
    if sets == [] then 0 else SetFreq(sets[..|sets| - 1], t) + (if t in sets[|sets| - 1] then 1 else 0)
  }

  function Union(sets: seq<Trigrams>): Trigrams {
    if sets == [] then {} else Union(sets[..|sets| - 1]) + sets[|sets| - 1]
  }

  /** The trigrams common enough to be kept. */
  function Kept(sets: seq<Trigrams>, minDf: nat): Trigrams {
    set t | t in Union(sets) && SetFreq(sets, t) >= minDf
  }

  /** The chunks with the trigram, ascending. */
  function PostingsOf(sets: seq<Trigrams>, t: string): seq<nat> {
    if sets == [] then []
    else
      var n := |sets| - 1;
      PostingsOf(sets[..n], t) + (if t in sets[n] then [n] else [])
  }

  ghost predicate ArePostings(postings: seq<seq<nat>>, terms: seq<string>, sets: seq<Trigrams>) {
    |postings| == |terms| && forall id :: 0 <= id < |terms| ==> postings[id] == PostingsOf(sets, terms[id])
  }

  ghost predicate AreCounts(counts: seq<nat>, sets: seq<Trigrams>, kept: Trigrams) {
    |counts| == |sets| && forall c :: 0 <= c < |sets| ==> counts[c] == |sets[c] * kept|
  }

  ghost predicate IsIndex(ix: Index, sets: seq<Trigrams>, terms: seq<string>) {
    && ix.docCount == |sets|
    && IsVocab(ix.vocab, terms)
    && ArePostings(ix.postings, terms, sets)
    && AreCounts(ix.counts, sets, ix.vocab.Keys)
  }

  lemma {:induction false} InUnion(sets: seq<Trigrams>, t: string)
    ensures t in Union(sets) <==> SetFreq(sets, t) > 0
    ensures t in Union(sets) <==> exists c :: 0 <= c < |sets| && t in sets[c]
  {
    if sets != [] {
      var n := |sets| - 1;
      InUnion(sets[..n], t);
      if c :| 0 <= c < n && t in sets[..n][c] {
        assert t in sets[c];
      }
    }
  }

  /** With a minimum of at most one, every trigram is kept. */
  lemma EverythingKept(sets: seq<Trigrams>, minDf: nat)
    requires minDf <= 1
    ensures Kept(sets, minDf) == Union(sets)
    ensures forall c :: 0 <= c < |sets| ==> sets[c] * Kept(sets, minDf) == sets[c]
  {}

  // ---------------------------------------------------------------- building it

  ghost predicate AreFreqs(df: map<string, nat>, sets: seq<Trigrams>) {
    df.Keys == Union(sets) && forall t :: t in df ==> df[t] == SetFreq(sets, t)
  }

  /** One chunk into the document frequencies, in hash order. */
  method CountSet(s: Trigrams, df0: map<string, nat>, ghost sets: seq<Trigrams>) returns (df: map<string, nat>)
    requires AreFreqs(df0, sets)
    ensures AreFreqs(df, sets + [s])
  {
    df := df0;
    var left := s;
    while left != {}
      invariant left <= s && df.Keys == Union(sets) + (s - left)
      invariant forall t :: t in df ==> df[t] == SetFreq(sets, t) + (if t in s - left then 1 else 0)
    {
      var t :| t in left;
      InUnion(sets, t);
      df := df[t := (if t in df then df[t] else 0) + 1];
      left := left - {t};
    }
    assert (sets + [s])[..|sets|] == sets;
  }

  method CountAll(sets: seq<Trigrams>) returns (df: map<string, nat>)
    ensures AreFreqs(df, sets)
  {
    df := map[];
    for c := 0 to |sets|
      invariant AreFreqs(df, sets[..c])
    {
      TakeNext(sets, c);
      df := CountSet(sets[c], df, sets[..c]);
    }
    TakeAll(sets);
  }

  /** Numbers the trigrams that are common enough, in hash order. */
  method NumberKept(df: map<string, nat>, minDf: nat) returns (vocab: map<string, nat>, ghost terms: seq<string>)
    ensures IsVocab(vocab, terms)
    ensures vocab.Keys == set t | t in df && df[t] >= minDf
  {
    vocab, terms := map[], [];
    var nextId := 0;
    var left := df.Keys;
    while left != {}
      invariant left <= df.Keys && nextId == |terms| && IsVocab(vocab, terms)
      invariant vocab.Keys == set t | t in df && t !in left && df[t] >= minDf
    {
      var t :| t in left;
      if df[t] >= minDf {
        NumberToken(vocab, terms, t);
        terms := terms + [t];
        vocab := vocab[t := nextId];
        nextId := nextId + 1;
      }
      left := left - {t};
    }
  }

  lemma CountKept(done: Trigrams, kept: Trigrams, t: string)
    requires t !in done
    ensures |(done + {t}) * kept| == |done * kept| + (if t in kept then 1 else 0)
  {
    assert (done + {t}) * kept == done * kept + (if t in kept then {t} else {});
  }

  /** The lists while chunk |sets| is being posted, `done` being its trigrams already seen to. */
  ghost predicate PartlyPosted(postings: seq<seq<nat>>, terms: seq<string>, sets: seq<Trigrams>, done: Trigrams) {
    && |postings| == |terms|
    && forall id :: 0 <= id < |terms| ==> postings[id] == PostingsOf(sets, terms[id]) + (if terms[id] in done then [|sets|] else [])
  }

  lemma PostNext(postings: seq<seq<nat>>, vocab: map<string, nat>, terms: seq<string>, sets: seq<Trigrams>, done: Trigrams, t: string)
    requires IsVocab(vocab, terms) && PartlyPosted(postings, terms, sets, done) && t !in done
    ensures PartlyPosted(if t in vocab then postings[vocab[t] := postings[vocab[t]] + [|sets|]] else postings, terms, sets, done + {t})
  {}

  lemma AllPosted(postings: seq<seq<nat>>, terms: seq<string>, sets: seq<Trigrams>, s: Trigrams)
    requires PartlyPosted(postings, terms, sets, s)
    ensures ArePostings(postings, terms, sets + [s])
  {}

  lemma NonePosted(postings: seq<seq<nat>>, terms: seq<string>, sets: seq<Trigrams>)
    requires ArePostings(postings, terms, sets)
    ensures PartlyPosted(postings, terms, sets, {})
  {}

  lemma OneLess(all: Trigrams, left: Trigrams, t: string)
    requires t in left && left <= all
    ensures all - (left - {t}) == (all - left) + {t}
  {}

  /** One trigram of a chunk. */
  method PostTrigram(t: string, c: nat, postings0: seq<seq<nat>>, count0: nat, vocab: map<string, nat>,
                     ghost terms: seq<string>, ghost sets: seq<Trigrams>, ghost done: Trigrams)
    returns (postings: seq<seq<nat>>, count: nat)
    requires IsVocab(vocab, terms) && c == |sets| && t !in done
    requires PartlyPosted(postings0, terms, sets, done) && count0 == |done * vocab.Keys|
    ensures PartlyPosted(postings, terms, sets, done + {t}) && count == |(done + {t}) * vocab.Keys|
  {
    CountKept(done, vocab.Keys, t);
    PostNext(postings0, vocab, terms, sets, done, t);
    postings, count := postings0, count0;
    if t in vocab {
      postings := postings[vocab[t] := postings[vocab[t]] + [c]];
      count := count + 1;
    }
  }

  /** One chunk into the posting lists, in hash order, counting its kept trigrams. */
  method PostSet(s: Trigrams, c: nat, postings0: seq<seq<nat>>, vocab: map<string, nat>, ghost terms: seq<string>, ghost sets: seq<Trigrams>)
    returns (postings: seq<seq<nat>>, count: nat)
    requires IsVocab(vocab, terms) && c == |sets| && ArePostings(postings0, terms, sets)
    ensures ArePostings(postings, terms, sets + [s]) && count == |s * vocab.Keys|
  {
    postings, count := postings0, 0;
    var left := s;
    ghost var done: Trigrams := {};
    NonePosted(postings, terms, sets);
    while left != {}
      invariant left <= s && done == s - left
      invariant PartlyPosted(postings, terms, sets, done)
      invariant count == |done * vocab.Keys|
    {
      var t :| t in left;
      OneLess(s, left, t);
      postings, count := PostTrigram(t, c, postings, count, vocab, terms, sets, done);
      left, done := left - {t}, done + {t};
    }
    assert done == s;
    AllPosted(postings, terms, sets, s);
  }

  method PostAll(sets: seq<Trigrams>, vocab: map<string, nat>, ghost terms: seq<string>) returns (postings: seq<seq<nat>>, counts: seq<nat>)
    requires IsVocab(vocab, terms)
    ensures ArePostings(postings, terms, sets) && AreCounts(counts, sets, vocab.Keys)
  {
    VocabSize(vocab, terms);
    postings, counts := seq(|vocab|, _ => []), [];
    for c := 0 to |sets|
      invariant ArePostings(postings, terms, sets[..c]) && AreCounts(counts, sets[..c], vocab.Keys)
    {
      TakeNext(sets, c);
      var count;
      postings, count := PostSet(sets[c], c, postings, vocab, terms, sets[..c]);
      counts := counts + [count];
    }
    TakeAll(sets);
  }

  function InsertAscending(c: nat, list: seq<nat>): seq<nat> {
    if list == [] then [c] else if c <= list[0] then [c] + list else [list[0]] + InsertAscending(c, list[1..])
  }

  function SortAscending(list: seq<nat>): seq<nat> {
    if list == [] then [] else InsertAscending(list[0], SortAscending(list[1..]))
  }

  predicate Ascends(list: seq<nat>) {
    forall i, j :: 0 <= i < j < |list| ==> list[i] < list[j]
  }

  lemma {:induction false} SortKeepsAscending(list: seq<nat>)
    requires Ascends(list)
    ensures SortAscending(list) == list
  {
    if list != [] {
      SortKeepsAscending(list[1..]);
    }
  }

  lemma {:induction false} PostingsAscend(sets: seq<Trigrams>, t: string)
    ensures Ascends(PostingsOf(sets, t))
    ensures forall j :: 0 <= j < |PostingsOf(sets, t)| ==> PostingsOf(sets, t)[j] < |sets|
  {
    if sets != [] {
      PostingsAscend(sets[..|sets| - 1], t);
    }
  }

  method BuildIndex(texts: seq<string>, minDf: nat) returns (ix: Index, ghost terms: seq<string>)
    ensures IsIndex(ix, AllSets(texts), terms) && ix.vocab.Keys == Kept(AllSets(texts), minDf)
  {
    var sets := AllSets(texts);
    var df := CountAll(sets);
    var vocab;
    vocab, terms := NumberKept(df, minDf);
    var postings, counts := PostAll(sets, vocab, terms);
    for id := 0 to |postings|
      invariant ArePostings(postings, terms, sets)
    {
      PostingsAscend(sets, terms[id]);
      SortKeepsAscending(postings[id]);
      postings := postings[id := SortAscending(postings[id])];
    }
    ix := Index(|texts|, vocab, postings, counts);
  }

  // ---------------------------------------------------------------- searching

  function Jaccard(a: Trigrams, b: Trigrams): real
    requires a + b != {}
  {
    |a * b| as real / |a + b| as real
  }

  /** The direct scores of exactly the chunks that share a kept trigram with the query. */
  function JaccardScores(sets: seq<Trigrams>, kept: Trigrams, query: Trigrams): map<nat, real> {
    map c: nat | c < |sets| && query * (sets[c] * kept) != {} :: Jaccard(query, sets[c] * kept)
  }

  function Elements(list: seq<nat>): set<nat> {
    if list == [] then {} else Elements(list[..|list| - 1]) + {list[|list| - 1]}
  }

  lemma {:induction false} PostingsElements(sets: seq<Trigrams>, t: string)
    ensures Elements(PostingsOf(sets, t)) == set c | 0 <= c < |sets| && t in sets[c]
  {
    if sets != [] {
      var n := |sets| - 1;
      PostingsElements(sets[..n], t);
      var before, list := PostingsOf(sets[..n], t), PostingsOf(sets, t);
      if t in sets[n] {
        assert list[..|list| - 1] == before;
      } else {
        assert list == before;
      }
    }
  }

  function Met(found: map<nat, nat>, c: nat): nat {
    if c in found then found[c] else 0
  }

  /** One more for every chunk on the list. */
  method AddPostings(found0: map<nat, nat>, list: seq<nat>) returns (found: map<nat, nat>)
    requires Ascends(list)
    ensures forall c: nat :: Met(found, c) == Met(found0, c) + (if c in Elements(list) then 1 else 0)
    ensures found.Keys == found0.Keys + Elements(list)
  {
    found := found0;
    for j := 0 to |list|
      invariant forall c: nat :: Met(found, c) == Met(found0, c) + (if c in Elements(list[..j]) then 1 else 0)
      invariant found.Keys == found0.Keys + Elements(list[..j])
    {
      ElementsNext(list, j);
      found := found[list[j] := Met(found, list[j]) + 1];
    }
    TakeAll(list);
  }

  lemma ElementsNext(list: seq<nat>, j: nat)
    requires j < |list| && Ascends(list)
    ensures Elements(list[..j + 1]) == Elements(list[..j]) + {list[j]} && list[j] !in Elements(list[..j])
  {
    TakeNext(list, j);
    ElementsBelow(list[..j], list[j]);
  }

  lemma {:induction false} ElementsBelow(list: seq<nat>, bound: nat)
    requires forall i :: 0 <= i < |list| ==> list[i] < bound
    ensures forall c :: c in Elements(list) ==> c < bound
  {
    if list != [] {
      ElementsBelow(list[..|list| - 1], bound);
    }
  }

  /** The intersections counted so far, `done` being the query's trigrams already looked up. */
  ghost predicate AreMeets(found: map<nat, nat>, sets: seq<Trigrams>, kept: Trigrams, done: Trigrams) {
    && (forall c :: c in found ==> c < |sets| && found[c] == |done * (sets[c] * kept)| > 0)
    && (forall c: nat :: c < |sets| && c !in found ==> done * (sets[c] * kept) == {})
  }

  lemma MeetsNext(found0: map<nat, nat>, found: map<nat, nat>, sets: seq<Trigrams>, kept: Trigrams, done: Trigrams, t: string)
    requires AreMeets(found0, sets, kept, done) && t !in done
    requires t !in kept ==> found == found0
    requires t in kept ==> found.Keys == found0.Keys + set c | 0 <= c < |sets| && t in sets[c]
    requires t in kept ==> forall c: nat :: Met(found, c) == Met(found0, c) + (if c < |sets| && t in sets[c] then 1 else 0)
    ensures AreMeets(found, sets, kept, done + {t})
  {
    forall c: nat | c < |sets| ensures |(done + {t}) * (sets[c] * kept)| == Met(found, c) {
      MeetSize(done, sets[c], kept, t);
      assert |done * (sets[c] * kept)| == Met(found0, c);
    }
  }

  lemma MeetSize(done: Trigrams, s: Trigrams, kept: Trigrams, t: string)
    requires t !in done
    ensures |(done + {t}) * (s * kept)| == |done * (s * kept)| + (if t in kept && t in s then 1 else 0)
  {
    assert (done + {t}) * (s * kept) == done * (s * kept) + (if t in kept && t in s then {t} else {});
  }

  /** Looks one trigram of the query up. */
  method Meet(ix: Index, found0: map<nat, nat>, t: string, ghost done: Trigrams, ghost sets: seq<Trigrams>, ghost terms: seq<string>)
    returns (found: map<nat, nat>)
    requires IsIndex(ix, sets, terms) && AreMeets(found0, sets, ix.vocab.Keys, done) && t !in done
    ensures AreMeets(found, sets, ix.vocab.Keys, done + {t})
  {
    found := found0;
    if t in ix.vocab {
      PostingsAscend(sets, t);
      PostingsElements(sets, t);
      found := AddPostings(found0, ix.postings[ix.vocab[t]]);
    }
    MeetsNext(found0, found, sets, ix.vocab.Keys, done, t);
  }

  method Intersect(ix: Index, query: Trigrams, ghost sets: seq<Trigrams>, ghost terms: seq<string>) returns (found: map<nat, nat>)
    requires IsIndex(ix, sets, terms)
    ensures AreMeets(found, sets, ix.vocab.Keys, query)
  {
    found := map[];
    var left := query;
    ghost var done: Trigrams := {};
    while left != {}
      invariant left <= query && done == query - left
      invariant AreMeets(found, sets, ix.vocab.Keys, done)
    {
      var t :| t in left;
      found := Meet(ix, found, t, done, sets, terms);
      OneLess(query, left, t);
      left, done := left - {t}, done + {t};
    }
    assert done == query;
  }

  method Search(ix: Index, query: string, topK: nat, ghost sets: seq<Trigrams>, ghost terms: seq<string>) returns (r: seq<Hit>)
    requires IsIndex(ix, sets, terms)
    ensures IsTopK(r, JaccardScores(sets, ix.vocab.Keys, ExtractTrigrams(query)), topK, ByScore)
  {
    var trigrams := ExtractTrigrams(query);
    ghost var direct := JaccardScores(sets, ix.vocab.Keys, trigrams);
    if |trigrams| == 0 {
      assert direct == map[];
      return [];
    }
    var found := Intersect(ix, trigrams, sets, terms);
    var results := Score(ix, |trigrams|, found, trigrams, sets, terms);
    RankOrders();
    SortedPrefixIsTopK(results, direct, topK, ByScore);
    r := Truncate(SortHits(results, ByScore), topK);
  }

  function ScoreOf(queryCount: nat, docCount: nat, meet: nat): real {
    var union := queryCount as real + docCount as real - meet as real;
    if union > 0.0 then meet as real / union else 0.0
  }

  lemma ScoreIsJaccard(query: Trigrams, doc: Trigrams, meet: nat)
    requires meet == |query * doc| > 0
    ensures ScoreOf(|query|, |doc|, meet) == Jaccard(query, doc)
  {
    assert |query + doc| == |query| + |doc| - meet;
  }

  /** The table the source maps the intersections to. */
  function ScoreTable(queryCount: nat, counts: seq<nat>, found: map<nat, nat>): map<nat, real>
    requires forall c :: c in found ==> c < |counts|
  {
    map c | c in found :: ScoreOf(queryCount, counts[c], found[c])
  }

  lemma ScoreTableIsDirect(counts: seq<nat>, found: map<nat, nat>, sets: seq<Trigrams>, kept: Trigrams, query: Trigrams)
    requires AreCounts(counts, sets, kept) && AreMeets(found, sets, kept, query)
    ensures ScoreTable(|query|, counts, found) == JaccardScores(sets, kept, query)
  {
    forall c | c in found ensures query * (sets[c] * kept) != {} && ScoreOf(|query|, counts[c], found[c]) == Jaccard(query, sets[c] * kept) {
      ScoreIsJaccard(query, sets[c] * kept, found[c]);
    }
  }

  /** The scored chunks, in hash order. */
  method Score(ix: Index, queryCount: nat, found: map<nat, nat>, ghost query: Trigrams, ghost sets: seq<Trigrams>, ghost terms: seq<string>)
    returns (results: seq<Hit>)
    requires IsIndex(ix, sets, terms) && queryCount == |query| && AreMeets(found, sets, ix.vocab.Keys, query)
    ensures Enumerates(results, JaccardScores(sets, ix.vocab.Keys, query))
  {
    ScoreTableIsDirect(ix.counts, found, sets, ix.vocab.Keys, query);
    results := Collect(ScoreTable(queryCount, ix.counts, found));
  }

  // ---------------------------------------------------------------- what the scores mean

  /** With a minimum of at most one the scores are the exact similarities of the full trigram sets. */
  lemma ExactWhenAllKept(sets: seq<Trigrams>, minDf: nat, query: Trigrams)
    requires minDf <= 1
    ensures JaccardScores(sets, Kept(sets, minDf), query) == map c: nat | c < |sets| && query * sets[c] != {} :: Jaccard(query, sets[c])
  {
    EverythingKept(sets, minDf);
  }

  lemma RatioRange(m: nat, n: nat)
    requires 0 < m <= n
    ensures 0.0 < m as real / n as real <= 1.0
    ensures m as real / n as real == 1.0 <==> m == n
  {}

  lemma SubsetSize(a: Trigrams, b: Trigrams)
    requires a <= b
    ensures |a| <= |b|
    ensures |a| == |b| <==> a == b
  {
    assert b == a + (b - a);
    assert a * (b - a) == {};
  }

  /** Sets that meet have a similarity in (0, 1], and it is 1 only for equal sets. */
  lemma JaccardRange(a: Trigrams, b: Trigrams)
    requires a * b != {}
    ensures 0.0 < Jaccard(a, b) <= 1.0
    ensures Jaccard(a, b) == 1.0 <==> a == b
  {
    SubsetSize(a * b, a + b);
    RatioRange(|a * b|, |a + b|);
    if a * b == a + b {
      assert forall t :: t in a ==> t in a * b;
      assert forall t :: t in b ==> t in a * b;
      assert a == b;
    }
    assert a == b ==> a * b == a && a + b == a;
  }

  /** A chunk searched for by its own text scores 1, which nothing exceeds. */
  lemma OwnTextScoresBest(texts: seq<string>, minDf: nat, c: nat, b: nat)
    requires minDf <= 1 && c < |texts| && |texts[c]| >= 3
    ensures var scores := JaccardScores(AllSets(texts), Kept(AllSets(texts), minDf), ExtractTrigrams(texts[c]));
            && c in scores && scores[c] == 1.0
            && (b in scores ==> scores[b] <= 1.0)
  {
    var sets, query := AllSets(texts), ExtractTrigrams(texts[c]);
    ExactWhenAllKept(sets, minDf, query);
    assert Window(texts[c], 0) in query * query;
    assert query * sets[c] == query * query;
    JaccardRange(query, sets[c]);
    if b < |sets| && query * sets[b] != {} {
      JaccardRange(query, sets[b]);
    }
  }
}
