/** The TF-IDF index and search, against cosine similarity computed directly from the texts. */
module TfIdf {
  import opened Prefixes
  import opened Lexicon
  import opened Analysis
  import opened Ranking
  import opened Vectors

  datatype Index = Index(docCount: nat, vocab: map<string, nat>, idf: seq<real>, docVectors: seq<seq<Entry>>)

  // ---------------------------------------------------------------- the weights, from the texts alone

  function Idf(ln: real -> real, docs: seq<Tokens>, t: string): real {
    ln((|docs| as real + 1.0) / (DocFreq(docs, t) as real + 1.0)) + 1.0
  }

  function Weight(ln: real -> real, docs: seq<Tokens>, doc: Tokens, t: string): real {
    if t in doc then Weighted(ln, Count(doc, t), Idf(ln, docs, t)) else 0.0
  }

  function Weighted(ln: real -> real, tf: nat, idf: real): real {
    (1.0 + ln(tf as real)) * idf
  }

  /** The weights of a text over the vocabulary. */
  function Raw(ln: real -> real, docs: seq<Tokens>, terms: seq<string>, doc: Tokens): Dense {
    seq(|terms|, j requires 0 <= j < |terms| => Weight(ln, docs, doc, terms[j]))
  }

  function Norm(sqrt: real -> real, d: Dense): real {
    sqrt(Dot(d, d))
  }

  function Unit(sqrt: real -> real, d: Dense): Dense {
    if Norm(sqrt, d) > 0.0 then Scale(d, 1.0 / Norm(sqrt, d)) else d
  }

  /** Cosine similarity; meant for vectors that are not zero. */
  function Cosine(sqrt: real -> real, a: Dense, b: Dense): real
    requires |a| == |b|
  {
    var n := Norm(sqrt, a) * Norm(sqrt, b);
    if n == 0.0 then 0.0 else Dot(a, b) / n
  }

  lemma RatioAtLeastOne(a: real, b: real)
    requires a >= b > 0.0
    ensures a / b >= 1.0
  {}

  lemma IdfAtLeastOne(ln: real -> real, docs: seq<Tokens>, t: string)
    requires IsLn(ln)
    ensures Idf(ln, docs, t) >= 1.0
  {
    DocFreqBounds(docs, t);
    RatioAtLeastOne(|docs| as real + 1.0, DocFreq(docs, t) as real + 1.0);
  }

  /** A token that occurs once weighs its idf, and each further occurrence adds by its logarithm. */
  lemma WeightOfCount(ln: real -> real, tf: nat, idf: real)
    requires IsLn(ln) && tf >= 1
    ensures Weighted(ln, 1, idf) == idf && Weighted(ln, tf, idf) == idf + idf * ln(tf as real)
  {}

  /** A token that occurs weighs more than nothing, one that does not weighs nothing. */
  lemma WeightPositive(ln: real -> real, docs: seq<Tokens>, doc: Tokens, t: string)
    requires IsLn(ln)
    ensures Weight(ln, docs, doc, t) >= 0.0
    ensures Weight(ln, docs, doc, t) > 0.0 <==> t in doc
  {
    IdfAtLeastOne(ln, docs, t);
    CountPositive(doc, t);
    if t in doc {
      assert Count(doc, t) as real >= 1.0;
      assert ln(Count(doc, t) as real) >= 0.0;
    }
  }

  // ---------------------------------------------------------------- what the index holds

  ghost predicate HoldsUnit(v: seq<Entry>, sqrt: real -> real, d: Dense) {
    Represents(v, Unit(sqrt, d)) && TermsAscend(v)
  }

  ghost predicate IsIndex(ix: Index, ln: real -> real, sqrt: real -> real, docs: seq<Tokens>, terms: seq<string>) {
    && ix.docCount == |docs|
    && IsVocab(ix.vocab, terms) && Covers(ix.vocab, docs)
    && IdfsOf(ix.idf, ln, docs, terms)
    && AreUnits(ix.docVectors, ln, sqrt, docs, terms, |docs|)
  }

  ghost predicate AreUnits(vectors: seq<seq<Entry>>, ln: real -> real, sqrt: real -> real, docs: seq<Tokens>, terms: seq<string>, n: nat)
    requires n <= |docs|
  {
    |vectors| == n && forall c :: 0 <= c < n ==> HoldsUnit(vectors[c], sqrt, Raw(ln, docs, terms, docs[c]))
  }

  ghost predicate IdfsOf(idf: seq<real>, ln: real -> real, docs: seq<Tokens>, terms: seq<string>) {
    |idf| == |terms| && forall id :: 0 <= id < |terms| ==> idf[id] == Idf(ln, docs, terms[id])
  }

  // ---------------------------------------------------------------- building it

  /** First pass over all chunks. */
  method CountAll(docs: seq<Tokens>)
    returns (vocab: map<string, nat>, docTfs: seq<map<nat, nat>>, df: map<nat, nat>, ghost terms: seq<string>)
    ensures IsVocab(vocab, terms) && Covers(vocab, docs)
    ensures AreTfs(docTfs, terms, docs) && FreqsOf(df, docs, terms)
  {
    vocab, docTfs, df, terms := map[], [], map[], [];
    var next := 0;
    for i := 0 to |docs|
      invariant IsVocab(vocab, terms) && next == |terms| && Covers(vocab, docs[..i])
      invariant AreTfs(docTfs, terms, docs[..i]) && FreqsOf(df, docs[..i], terms)
    {
      TakeNext(docs, i);
      var vocab', next', tf, df';
      ghost var terms';
      vocab', next', tf, df', terms' := CountChunk(docs[i], vocab, next, df, terms);
      FreqsNext(df', df, tf, docs[..i], docs[i], vocab, terms, vocab', terms');
      OneMoreText(vocab, terms, docTfs, docs[..i], vocab', terms', tf, docs[i]);
      vocab, next, docTfs, df, terms := vocab', next', docTfs + [tf], df', terms';
    }
    TakeAll(docs);
  }

  /** The table of idfs, filled in hash order. */
  method FillIdf(ln: real -> real, vocab: map<string, nat>, df: map<nat, nat>, docCount: nat, ghost docs: seq<Tokens>, ghost terms: seq<string>)
    returns (idf: seq<real>)
    requires IsVocab(vocab, terms) && FreqsOf(df, docs, terms) && docCount == |docs|
    ensures IdfsOf(idf, ln, docs, terms)
  {
    VocabSize(vocab, terms);
    idf := seq(|vocab|, _ => 0.0);
    var left := vocab.Keys;
    while left != {}
      invariant left <= vocab.Keys && |idf| == |terms|
      invariant forall id :: 0 <= id < |terms| && terms[id] !in left ==> idf[id] == Idf(ln, docs, terms[id])
    {
      var t :| t in left;
      var id := vocab[t];
      idf := idf[id := ln((docCount as real + 1.0) / (At(df, id) as real + 1.0)) + 1.0];
      left := left - {t};
    }
  }

  /** The entries read out so far: those of the non-zero coordinates outside `left`. */
  ghost predicate PartlyRead(v: seq<Entry>, d: Dense, left: set<nat>) {
    && (forall i :: 0 <= i < |v| ==> v[i].term < |d| && v[i].term !in left && v[i].weight == d[v[i].term] != 0.0)
    && (forall j: nat :: j < |d| && d[j] != 0.0 ==> multiset(v)[Entry(j, d[j])] == if j in left then 0 else 1)
  }

  lemma ReadNext(v: seq<Entry>, d: Dense, left: set<nat>, id: nat)
    requires PartlyRead(v, d, left) && id in left && id < |d| && d[id] != 0.0
    ensures PartlyRead(v + [Entry(id, d[id])], d, left - {id})
  {}

  /** The weighted terms of one text, read out in hash order. */
  method Weigh(ln: real -> real, tf: map<nat, nat>, idf: seq<real>, ghost docs: seq<Tokens>, ghost terms: seq<string>, ghost doc: Tokens)
    returns (v: seq<Entry>)
    requires IsLn(ln) && IdfsOf(idf, ln, docs, terms) && IsTf(tf, terms, doc)
    ensures Represents(v, Raw(ln, docs, terms, doc))
  {
    v := [];
    var left := tf.Keys;
    ghost var d := Raw(ln, docs, terms, doc);
    RawPositive(ln, docs, terms, doc);
    assert PartlyRead(v, d, left);
    while left != {}
      invariant left <= tf.Keys && PartlyRead(v, d, left)
    {
      var id :| id in left;
      var weight := Weighted(ln, tf[id], idf[id]);
      assert weight == Weight(ln, docs, doc, terms[id]) == d[id] != 0.0;
      ReadNext(v, d, left, id);
      v := v + [Entry(id, weight)];
      left := left - {id};
    }
  }

  lemma DividedIsScaled(x: real, n: real)
    requires n > 0.0
    ensures x / n == Times(x, 1.0 / n) && 1.0 / n > 0.0
  {}

  lemma DividedEntry(e: Entry, n: real)
    requires n > 0.0
    ensures Entry(e.term, e.weight / n) == ScaleEntry(e, 1.0 / n)
  {}

  /** Divides by the length, in place. */
  method Normalize(sqrt: real -> real, v: array<Entry>, ghost d: Dense)
    requires IsSqrt(sqrt) && Represents(v[..], d)
    modifies v
    ensures Represents(v[..], Unit(sqrt, d))
  {
    ghost var v0 := v[..];
    var norm := sqrt(SquareSum(v[..]));
    SquareSumIsDot(v0, d);
    if norm > 0.0 {
      for i := 0 to v.Length
        invariant forall k :: 0 <= k < i ==> v[k] == ScaleEntry(v0[k], 1.0 / norm)
        invariant forall k :: i <= k < v.Length ==> v[k] == v0[k]
      {
        DividedEntry(v[i], norm);
        v[i] := Entry(v[i].term, v[i].weight / norm);
      }
      forall k | 0 <= k < v.Length ensures v[..][k] == ScaleEntries(v0, 1.0 / norm)[k] {
        ScaleEntriesAt(v0, 1.0 / norm, k);
      }
      assert v[..] == ScaleEntries(v0, 1.0 / norm);
      DividedIsScaled(1.0, norm);
      ScaledRepresents(v0, d, 1.0 / norm);
    }
  }

  method NormalizedWeights(ln: real -> real, sqrt: real -> real, tf: map<nat, nat>, idf: seq<real>,
                           ghost docs: seq<Tokens>, ghost terms: seq<string>, ghost doc: Tokens)
    returns (v: seq<Entry>)
    requires IsLn(ln) && IsSqrt(sqrt) && IdfsOf(idf, ln, docs, terms) && IsTf(tf, terms, doc)
    ensures Represents(v, Unit(sqrt, Raw(ln, docs, terms, doc)))
  {
    v := Weigh(ln, tf, idf, docs, terms, doc);
    var a := new Entry[|v|](i requires 0 <= i < |v| => v[i]);
    assert a[..] == v;
    Normalize(sqrt, a, Raw(ln, docs, terms, doc));
    v := a[..];
  }

  method DocVector(ln: real -> real, sqrt: real -> real, tf: map<nat, nat>, idf: seq<real>,
                   ghost docs: seq<Tokens>, ghost terms: seq<string>, ghost doc: Tokens)
    returns (v: seq<Entry>)
    requires IsLn(ln) && IsSqrt(sqrt) && IdfsOf(idf, ln, docs, terms) && IsTf(tf, terms, doc)
    ensures HoldsUnit(v, sqrt, Raw(ln, docs, terms, doc))
  {
    var unsorted := NormalizedWeights(ln, sqrt, tf, idf, docs, terms, doc);
    v := SortByTerm(unsorted);
    SortByTermKeeps(unsorted);
    PermutedRepresents(unsorted, v, Unit(sqrt, Raw(ln, docs, terms, doc)));
  }

  method BuildIndex(ln: real -> real, sqrt: real -> real, docs: seq<Tokens>) returns (ix: Index, ghost terms: seq<string>)
    requires IsLn(ln) && IsSqrt(sqrt)
    ensures IsIndex(ix, ln, sqrt, docs, terms)
    ensures Covers(ix.vocab, docs)
    ensures forall t :: t in ix.vocab ==> ix.vocab[t] < |ix.idf| && ix.idf[ix.vocab[t]] == Idf(ln, docs, t)
  {
    var vocab, docTfs, df;
    vocab, docTfs, df, terms := CountAll(docs);
    var idf := FillIdf(ln, vocab, df, |docs|, docs, terms);
    var docVectors := [];
    for c := 0 to |docTfs|
      invariant AreUnits(docVectors, ln, sqrt, docs, terms, c)
    {
      var v := DocVector(ln, sqrt, docTfs[c], idf, docs, terms, docs[c]);
      docVectors := docVectors + [v];
    }
    ix := Index(|docs|, vocab, idf, docVectors);
  }

  // ---------------------------------------------------------------- searching

  /** The direct scores of exactly the chunks that share a token with the query. */
  function CosineScores(ln: real -> real, sqrt: real -> real, docs: seq<Tokens>, terms: seq<string>, query: Tokens): map<nat, real> {
    map c: nat | c < |docs| && Shares(docs[c], query) :: Cosine(sqrt, Raw(ln, docs, terms, docs[c]), Raw(ln, docs, terms, query))
  }

  lemma SkipToken(tf: map<nat, nat>, vocab: map<string, nat>, terms: seq<string>, part: Tokens, token: string)
    requires IsVocab(vocab, terms) && IsTf(tf, terms, part) && token !in vocab
    ensures IsTf(tf, terms, part + [token])
  {}

  /** The query as a unit vector; tokens outside the vocabulary are ignored. */
  method BuildQueryVector(ln: real -> real, sqrt: real -> real, ix: Index, query: Tokens, ghost docs: seq<Tokens>, ghost terms: seq<string>)
    returns (v: seq<Entry>)
    requires IsLn(ln) && IsSqrt(sqrt) && IsVocab(ix.vocab, terms) && IdfsOf(ix.idf, ln, docs, terms)
    ensures Represents(v, Unit(sqrt, Raw(ln, docs, terms, query)))
  {
    var tf: map<nat, nat> := map[];
    for i := 0 to |query|
      invariant IsTf(tf, terms, query[..i])
    {
      TakeNext(query, i);
      if query[i] in ix.vocab {
        CountToken(tf, ix.vocab, terms, query[..i], query[i]);
        tf := Counted(tf, ix.vocab[query[i]]);
      } else {
        SkipToken(tf, ix.vocab, terms, query[..i], query[i]);
      }
    }
    TakeAll(query);
    v := NormalizedWeights(ln, sqrt, tf, ix.idf, docs, terms, query);
  }

  method Tabulate(v: seq<Entry>, ghost d: Dense) returns (weights: map<nat, real>)
    requires Represents(v, d)
    ensures Tabulates(weights, d)
  {
    weights := map[];
    for i := 0 to |v|
      invariant forall t :: t in weights ==> t < |d| && weights[t] == d[t]
      invariant forall k :: 0 <= k < i ==> v[k].term in weights
    {
      weights := weights[v[i].term := v[i].weight];
    }
    forall t: nat | t < |d| && d[t] != 0.0 ensures t in weights {
      assert Entry(t, d[t]) in multiset(v);
    }
  }

  method ScoreChunk(v: seq<Entry>, weights: map<nat, real>) returns (score: real)
    ensures score == SparseDot(v, weights)
  {
    score := 0.0;
    for i := 0 to |v|
      invariant score == SparseDot(v[..i], weights)
    {
      assert v[..i + 1][..i] == v[..i];
      if v[i].term in weights {
        score := score + Times(v[i].weight, weights[v[i].term]);
      }
    }
    assert v[..|v|] == v;
  }

  lemma RawPositive(ln: real -> real, docs: seq<Tokens>, terms: seq<string>, doc: Tokens)
    requires IsLn(ln)
    ensures var d := Raw(ln, docs, terms, doc); NonNegative(d) && forall j :: 0 <= j < |terms| ==> (d[j] > 0.0 <==> terms[j] in doc)
  {
    forall j | 0 <= j < |terms| ensures var w := Weight(ln, docs, doc, terms[j]); w >= 0.0 && (w > 0.0 <==> terms[j] in doc) {
      WeightPositive(ln, docs, doc, terms[j]);
    }
  }

  /** Raw vectors meet exactly when the text and the query share a token. */
  lemma MeetIffShares(ln: real -> real, docs: seq<Tokens>, vocab: map<string, nat>, terms: seq<string>, doc: Tokens, query: Tokens)
    requires IsLn(ln) && IsVocab(vocab, terms) && TokenSet(doc) <= vocab.Keys
    ensures Dot(Raw(ln, docs, terms, doc), Raw(ln, docs, terms, query)) >= 0.0
    ensures Dot(Raw(ln, docs, terms, doc), Raw(ln, docs, terms, query)) > 0.0 <==> Shares(doc, query)
  {
    var a, b := Raw(ln, docs, terms, doc), Raw(ln, docs, terms, query);
    RawPositive(ln, docs, terms, doc);
    RawPositive(ln, docs, terms, query);
    DotNonNegative(a, b);
    if Shares(doc, query) {
      var i :| 0 <= i < |query| && query[i] in doc;
      assert query[i] in TokenSet(doc);
      DotPositive(a, b, vocab[query[i]]);
    }
    if Dot(a, b) > 0.0 {
      var j := PositiveDotMeets(a, b);
      var i :| 0 <= i < |query| && query[i] == terms[j];
    }
  }

  lemma ZeroNorm(sqrt: real -> real, a: Dense, b: Dense)
    requires IsSqrt(sqrt) && |a| == |b| && Norm(sqrt, a) <= 0.0
    ensures Dot(a, b) == 0.0 && Norm(sqrt, a) == 0.0
  {
    SquaresNonNegative(a);
    ZeroSquares(a, b);
  }

  lemma SquareNonNegative(x: real)
    ensures x * x >= 0.0
  {}

  lemma SquarePositive(x: real)
    requires x != 0.0
    ensures x * x > 0.0
  {}

  lemma {:induction false} SquaresNonNegative(a: Dense)
    ensures Dot(a, a) >= 0.0
  {
    if a != [] {
      SquaresNonNegative(a[..|a| - 1]);
      SquareNonNegative(a[|a| - 1]);
    }
  }

  lemma {:induction false} ZeroSquares(a: Dense, b: Dense)
    requires |a| == |b| && Dot(a, a) == 0.0
    ensures Dot(a, b) == 0.0
  {
    if a != [] {
      var n := |a| - 1;
      SquaresNonNegative(a[..n]);
      SquareNonNegative(a[n]);
      if a[n] != 0.0 {
        SquarePositive(a[n]);
      }
      ZeroSquares(a[..n], b[..n]);
    }
  }

  lemma Regroup(x: real, u: real, v: real, m: real, n: real)
    ensures ((x * u) * v) * (m * n) == x * (u * n) * (v * m)
  {}

  lemma DividedTwice(x: real, m: real, n: real)
    requires m > 0.0 && n > 0.0
    ensures m * n > 0.0
    ensures Times(Times(x, 1.0 / n), 1.0 / m) == x / (m * n)
  {}

  lemma UnitDot(sqrt: real -> real, a: Dense, b: Dense)
    requires IsSqrt(sqrt) && |a| == |b| && Norm(sqrt, a) > 0.0 && Norm(sqrt, b) > 0.0
    ensures Dot(Unit(sqrt, a), Unit(sqrt, b)) == Times(Times(Dot(a, b), 1.0 / Norm(sqrt, b)), 1.0 / Norm(sqrt, a))
  {
    var u := Unit(sqrt, b);
    DotScale(a, u, 1.0 / Norm(sqrt, a));
    DotCommutes(a, u);
    DotScale(b, a, 1.0 / Norm(sqrt, b));
    DotCommutes(a, b);
  }

  /** The dot product of the unit vectors is the cosine. */
  lemma UnitDotIsCosine(sqrt: real -> real, a: Dense, b: Dense)
    requires IsSqrt(sqrt) && |a| == |b|
    ensures |Unit(sqrt, a)| == |Unit(sqrt, b)| == |a|
    ensures Dot(Unit(sqrt, a), Unit(sqrt, b)) == Cosine(sqrt, a, b)
  {
    var m, n := Norm(sqrt, a), Norm(sqrt, b);
    if m > 0.0 && n > 0.0 {
      UnitDot(sqrt, a, b);
      DividedTwice(Dot(a, b), m, n);
    } else if m <= 0.0 {
      ZeroNorm(sqrt, a, Unit(sqrt, b));
      ZeroTimes(m, n);
    } else {
      ZeroNorm(sqrt, b, Unit(sqrt, a));
      DotCommutes(b, Unit(sqrt, a));
      ZeroTimes(n, m);
    }
  }

  lemma ZeroTimes(x: real, y: real)
    requires x == 0.0
    ensures x * y == 0.0
  {}

  lemma {:induction false} UnitHasLengthOne(sqrt: real -> real, a: Dense)
    requires IsSqrt(sqrt) && Dot(a, a) > 0.0
    ensures Dot(Unit(sqrt, a), Unit(sqrt, a)) == 1.0
  {
    UnitDotIsCosine(sqrt, a, a);
    var n := Norm(sqrt, a);
    assert n * n == Dot(a, a) && n > 0.0;
  }

  lemma RawSquaresPositive(ln: real -> real, docs: seq<Tokens>, vocab: map<string, nat>, terms: seq<string>, doc: Tokens, t: string)
    requires IsLn(ln) && IsVocab(vocab, terms) && t in doc && t in vocab
    ensures var d := Raw(ln, docs, terms, doc); Dot(d, d) > 0.0
  {
    var d := Raw(ln, docs, terms, doc);
    RawPositive(ln, docs, terms, doc);
    DotPositive(d, d, vocab[t]);
  }

  /** A table of scores as far as chunk n. */
  function Below(scores: map<nat, real>, n: nat): map<nat, real> {
    map c | c in scores && c < n :: scores[c]
  }

  lemma BelowSkips(scores: map<nat, real>, n: nat)
    requires n !in scores
    ensures Below(scores, n + 1) == Below(scores, n)
  {}

  lemma BelowAll(scores: map<nat, real>, n: nat)
    requires forall c :: c in scores ==> c < n
    ensures Below(scores, n) == scores
  {}

  lemma EnumeratesNext(xs: seq<Hit>, scores: map<nat, real>, n: nat)
    requires Enumerates(xs, Below(scores, n)) && n in scores
    ensures Enumerates(xs + [Hit(n, scores[n])], Below(scores, n + 1))
  {
    var h := Hit(n, scores[n]);
    assert h !in multiset(xs) by {
      assert h !in xs;
    }
    assert multiset(xs + [h]) == multiset(xs) + multiset{h};
    var before, after := Below(scores, n), Below(scores, n + 1);
    forall i | 0 <= i < |xs| ensures xs[i].id in after && xs[i].score == after[xs[i].id] {
      assert xs[i].id in before;
    }
    forall id | id in after ensures multiset(xs + [h])[Hit(id, after[id])] == 1 {
      if id != n {
        assert id in before;
      }
    }
  }

  /** What the scoring loop computes for one chunk is its cosine, positive exactly when it shares a token with the query. */
  lemma ChunkScore(ln: real -> real, sqrt: real -> real, ix: Index, docs: seq<Tokens>, terms: seq<string>, query: Tokens,
                   weights: map<nat, real>, c: nat)
    requires IsLn(ln) && IsSqrt(sqrt) && IsIndex(ix, ln, sqrt, docs, terms) && c < |docs|
    requires Tabulates(weights, Unit(sqrt, Raw(ln, docs, terms, query)))
    ensures var direct, score := CosineScores(ln, sqrt, docs, terms, query), SparseDot(ix.docVectors[c], weights);
            if score > 0.0 then c in direct && direct[c] == score else c !in direct
  {
    var a, b := Raw(ln, docs, terms, docs[c]), Raw(ln, docs, terms, query);
    assert HoldsUnit(ix.docVectors[c], sqrt, a);
    UnitDotIsCosine(sqrt, a, b);
    SparseDotIsDot(ix.docVectors[c], Unit(sqrt, a), weights, Unit(sqrt, b));
    CosineSign(ln, sqrt, docs, ix.vocab, terms, docs[c], query) by {
      forall t | t in TokenSet(docs[c]) ensures t in ix.vocab {
        InAllTokens(docs, c, t);
      }
    }
  }

  lemma CosineSign(ln: real -> real, sqrt: real -> real, docs: seq<Tokens>, vocab: map<string, nat>, terms: seq<string>, doc: Tokens, query: Tokens)
    requires IsLn(ln) && IsSqrt(sqrt) && IsVocab(vocab, terms) && TokenSet(doc) <= vocab.Keys
    ensures Cosine(sqrt, Raw(ln, docs, terms, doc), Raw(ln, docs, terms, query)) > 0.0 <==> Shares(doc, query)
  {
    var a, b := Raw(ln, docs, terms, doc), Raw(ln, docs, terms, query);
    MeetIffShares(ln, docs, vocab, terms, doc, query);
    if Shares(doc, query) {
      var i :| 0 <= i < |query| && query[i] in doc;
      assert query[i] in TokenSet(doc);
      RawSquaresPositive(ln, docs, vocab, terms, doc, query[i]);
      RawSquaresPositive(ln, docs, vocab, terms, query, query[i]);
      NormPositive(sqrt, a);
      NormPositive(sqrt, b);
      PositiveQuotient(Dot(a, b), Norm(sqrt, a), Norm(sqrt, b));
    }
  }

  lemma NormPositive(sqrt: real -> real, a: Dense)
    requires IsSqrt(sqrt) && Dot(a, a) > 0.0
    ensures Norm(sqrt, a) > 0.0
  {}

  lemma PositiveQuotient(x: real, m: real, n: real)
    requires x > 0.0 && m > 0.0 && n > 0.0
    ensures m * n > 0.0 && x / (m * n) > 0.0
  {}

  /** The positive scores of the first n chunks, in chunk order. */
  ghost predicate Scanned(xs: seq<Hit>, scores: map<nat, real>, n: nat) {
    Enumerates(xs, Below(scores, n)) && AscendBelow(xs, n)
  }

  lemma ScanNext(xs: seq<Hit>, scores: map<nat, real>, n: nat, score: real)
    requires Scanned(xs, scores, n) && if score > 0.0 then n in scores && scores[n] == score else n !in scores
    ensures Scanned(if score > 0.0 then xs + [Hit(n, score)] else xs, scores, n + 1)
  {
    AscendNext(xs, n, Hit(n, score));
    if score > 0.0 {
      EnumeratesNext(xs, scores, n);
    } else {
      BelowSkips(scores, n);
    }
  }

  /** One chunk of the scan. */
  method ScanChunk(ln: real -> real, sqrt: real -> real, ix: Index, ghost query: Tokens, weights: map<nat, real>, c: nat, xs: seq<Hit>,
                   ghost docs: seq<Tokens>, ghost terms: seq<string>)
    returns (ys: seq<Hit>)
    requires IsLn(ln) && IsSqrt(sqrt) && IsIndex(ix, ln, sqrt, docs, terms) && c < |docs|
    requires Tabulates(weights, Unit(sqrt, Raw(ln, docs, terms, query)))
    requires Scanned(xs, CosineScores(ln, sqrt, docs, terms, query), c)
    ensures Scanned(ys, CosineScores(ln, sqrt, docs, terms, query), c + 1)
  {
    ChunkScore(ln, sqrt, ix, docs, terms, query, weights, c);
    var score := ScoreChunk(ix.docVectors[c], weights);
    ScanNext(xs, CosineScores(ln, sqrt, docs, terms, query), c, score);
    ys := if score > 0.0 then xs + [Hit(c, score)] else xs;
  }

  /** The positive scores of all chunks, in chunk order. */
  method ScoreAll(ln: real -> real, sqrt: real -> real, ix: Index, ghost query: Tokens, weights: map<nat, real>, ghost docs: seq<Tokens>, ghost terms: seq<string>)
    returns (scores: seq<Hit>)
    requires IsLn(ln) && IsSqrt(sqrt) && IsIndex(ix, ln, sqrt, docs, terms)
    requires Tabulates(weights, Unit(sqrt, Raw(ln, docs, terms, query)))
    ensures Enumerates(scores, CosineScores(ln, sqrt, docs, terms, query)) && IdsAscend(scores)
  {
    scores := [];
    for c := 0 to |ix.docVectors|
      invariant Scanned(scores, CosineScores(ln, sqrt, docs, terms, query), c)
    {
      scores := ScanChunk(ln, sqrt, ix, query, weights, c, scores, docs, terms);
    }
    BelowAll(CosineScores(ln, sqrt, docs, terms, query), |docs|);
  }

  method Search(ln: real -> real, sqrt: real -> real, ix: Index, query: Tokens, blank: bool, topK: nat, ghost docs: seq<Tokens>, ghost terms: seq<string>)
    returns (r: seq<Hit>)
    requires IsLn(ln) && IsSqrt(sqrt) && IsIndex(ix, ln, sqrt, docs, terms) && (blank ==> query == [])
    ensures IsTopK(r, CosineScores(ln, sqrt, docs, terms, query), topK, ByScoreThenId)
  {
    ghost var direct := CosineScores(ln, sqrt, docs, terms, query);
    if ix.docCount == 0 || blank {
      assert direct == map[];
      return [];
    }
    var v := BuildQueryVector(ln, sqrt, ix, query, docs, terms);
    if |v| == 0 {
      EmptyVectorSharesNothing(ln, sqrt, ix, docs, terms, query);
      return [];
    }
    var weights := Tabulate(v, Unit(sqrt, Raw(ln, docs, terms, query)));
    var scores := ScoreAll(ln, sqrt, ix, query, weights, docs, terms);
    RankOrders();
    StableSortBreaksTiesById(scores);
    SortedPrefixIsTopK(scores, direct, topK, ByScoreThenId);
    r := Truncate(SortHits(scores, ByScore), topK);
  }

  lemma EmptyVectorSharesNothing(ln: real -> real, sqrt: real -> real, ix: Index, docs: seq<Tokens>, terms: seq<string>, query: Tokens)
    requires IsLn(ln) && IsSqrt(sqrt) && IsIndex(ix, ln, sqrt, docs, terms)
    requires Represents([], Unit(sqrt, Raw(ln, docs, terms, query)))
    ensures CosineScores(ln, sqrt, docs, terms, query) == map[]
  {
    forall c: nat | c < |docs| ensures !Shares(docs[c], query) {
      SquareSumIsDot([], Unit(sqrt, Raw(ln, docs, terms, query)));
      if Shares(docs[c], query) {
        var i :| 0 <= i < |query| && query[i] in docs[c];
        InAllTokens(docs, c, query[i]);
        RawSquaresPositive(ln, docs, ix.vocab, terms, query, query[i]);
        UnitHasLengthOne(sqrt, Raw(ln, docs, terms, query));
      }
    }
  }

  // ---------------------------------------------------------------- what the scores mean

  /** Every vector of a built index whose text has a token has length one, and its weights are positive. */
  lemma IndexVectorsAreUnit(ln: real -> real, sqrt: real -> real, ix: Index, docs: seq<Tokens>, terms: seq<string>, c: nat)
    requires IsLn(ln) && IsSqrt(sqrt) && IsIndex(ix, ln, sqrt, docs, terms) && c < |docs|
    ensures docs[c] != [] ==> SquareSum(ix.docVectors[c]) == 1.0
    ensures forall i :: 0 <= i < |ix.docVectors[c]| ==> ix.docVectors[c][i].weight > 0.0
  {
    var d := Raw(ln, docs, terms, docs[c]);
    var v := ix.docVectors[c];
    assert HoldsUnit(v, sqrt, d);
    SquareSumIsDot(v, Unit(sqrt, d));
    if docs[c] != [] {
      InAllTokens(docs, c, docs[c][0]);
      RawSquaresPositive(ln, docs, ix.vocab, terms, docs[c], docs[c][0]);
      UnitHasLengthOne(sqrt, d);
    }
    RawPositive(ln, docs, terms, docs[c]);
    UnitKeepsSign(sqrt, d);
  }

  lemma UnitKeepsSign(sqrt: real -> real, d: Dense)
    requires forall j :: 0 <= j < |d| ==> d[j] >= 0.0
    ensures |Unit(sqrt, d)| == |d| && forall j :: 0 <= j < |d| ==> Unit(sqrt, d)[j] >= 0.0
  {
    var n := Norm(sqrt, d);
    if n > 0.0 {
      forall j | 0 <= j < |d| ensures Unit(sqrt, d)[j] >= 0.0 {
        ScaleAt(d, 1.0 / n, j);
        DividedIsScaled(1.0, n);
        PositiveProduct(d[j], 1.0 / n);
      }
    }
  }

  /** Every score is in (0, 1], by Cauchy-Schwarz. */
  lemma ScoreRange(ln: real -> real, sqrt: real -> real, ix: Index, docs: seq<Tokens>, terms: seq<string>, query: Tokens, c: nat)
    requires IsLn(ln) && IsSqrt(sqrt) && IsIndex(ix, ln, sqrt, docs, terms)
    requires c in CosineScores(ln, sqrt, docs, terms, query)
    ensures 0.0 < CosineScores(ln, sqrt, docs, terms, query)[c] <= 1.0
  {
    var a, b := Raw(ln, docs, terms, docs[c]), Raw(ln, docs, terms, query);
    forall t | t in TokenSet(docs[c]) ensures t in ix.vocab {
      InAllTokens(docs, c, t);
    }
    CosineSign(ln, sqrt, docs, ix.vocab, terms, docs[c], query);
    var i :| 0 <= i < |query| && query[i] in docs[c];
    assert query[i] in TokenSet(docs[c]);
    RawSquaresPositive(ln, docs, ix.vocab, terms, docs[c], query[i]);
    RawSquaresPositive(ln, docs, ix.vocab, terms, query, query[i]);
    UnitHasLengthOne(sqrt, a);
    UnitHasLengthOne(sqrt, b);
    UnitDotIsCosine(sqrt, a, b);
    TwiceDotBound(Unit(sqrt, a), Unit(sqrt, b));
  }
}
