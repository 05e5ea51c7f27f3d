/** Term ids, term counts and document frequencies, shared by the lexical indexes. Texts are token sequences. */
module Lexicon {
  import opened Prefixes

  type Tokens = seq<string>

  /** The vocabulary maps its terms one to one onto 0..|terms|; `terms` is the inverse. */
  ghost predicate IsVocab(vocab: map<string, nat>, terms: seq<string>) {
    && (forall i :: 0 <= i < |terms| ==> terms[i] in vocab && vocab[terms[i]] == i)
    && (forall t :: t in vocab ==> vocab[t] < |terms| && terms[vocab[t]] == t)
  }

  function TokenSet(doc: Tokens): set<string> {
    set t | t in doc
  }

  /** The known tokens with one more token of a text. */
  lemma KnownNext(known: set<string>, part: Tokens, token: string)
    ensures known + TokenSet(part) + {token} == known + TokenSet(part + [token])
    ensures known + TokenSet([]) == known
  {}

  function AllTokens(docs: seq<Tokens>): set<string> {
    if docs == [] then {} else AllTokens(docs[..|docs| - 1]) + TokenSet(docs[|docs| - 1])
  }

  /** Its terms are exactly the tokens of the texts. */
  ghost predicate Covers(vocab: map<string, nat>, docs: seq<Tokens>) {
    vocab.Keys == AllTokens(docs)
  }

  lemma {:induction false} InAllTokens(docs: seq<Tokens>, c: nat, t: string)
    requires c < |docs| && t in docs[c]
    ensures t in AllTokens(docs)
  {
    var n := |docs| - 1;
    if c < n {
      InAllTokens(docs[..n], c, t);
    }
  }

  function Count(doc: Tokens, t: string): nat {
    multiset(doc)[t]
  }

  lemma CountPositive(doc: Tokens, t: string)
    ensures t in doc <==> Count(doc, t) > 0
  {}

  /** How many texts contain the term. */
  function DocFreq(docs: seq<Tokens>, t: string): nat {
    if docs == [] then 0 else DocFreq(docs[..|docs| - 1], t) + (if t in docs[|docs| - 1] then 1 else 0)
  }

  lemma {:induction false} DocFreqBounds(docs: seq<Tokens>, t: string)
    ensures DocFreq(docs, t) <= |docs|
    ensures t in AllTokens(docs) <==> DocFreq(docs, t) > 0
  {
    if docs != [] {
      DocFreqBounds(docs[..|docs| - 1], t);
    }
  }

  /** The term frequencies of one text, keyed by term id. */
  ghost predicate IsTf(tf: map<nat, nat>, terms: seq<string>, doc: Tokens) {
    && (forall id :: id in tf ==> id < |terms| && terms[id] in doc && tf[id] == Count(doc, terms[id]))
    && (forall id: nat :: id < |terms| && terms[id] in doc ==> id in tf)
  }

  /** Numbering a token if it is new. */
  lemma NumberToken(vocab: map<string, nat>, terms: seq<string>, token: string)
    requires IsVocab(vocab, terms)
    ensures token !in vocab ==> IsVocab(vocab[token := |terms|], terms + [token])
  {}

  lemma {:induction false} VocabSize(vocab: map<string, nat>, terms: seq<string>)
    requires IsVocab(vocab, terms)
    ensures |vocab| == |terms|
    decreases |terms|
  {
    if terms == [] {
      assert vocab == map[];
    } else {
      var n := |terms| - 1;
      VocabSize(vocab - {terms[n]}, terms[..n]);
      assert vocab == (vocab - {terms[n]})[terms[n] := n];
    }
  }

  /** Counting one more occurrence of a numbered token. */
  lemma CountToken(tf: map<nat, nat>, vocab: map<string, nat>, terms: seq<string>, doc: Tokens, token: string)
    requires IsVocab(vocab, terms) && IsTf(tf, terms, doc) && token in vocab
    ensures var id := vocab[token];
            IsTf(tf[id := (if id in tf then tf[id] else 0) + 1], terms, doc + [token])
  {}

  /** Numbering more terms leaves the frequencies of earlier texts as they are. */
  lemma IsTfGrows(tf: map<nat, nat>, vocab: map<string, nat>, terms: seq<string>, doc: Tokens, vocab': map<string, nat>, terms': seq<string>)
    requires IsVocab(vocab, terms) && IsVocab(vocab', terms') && terms <= terms'
    requires IsTf(tf, terms, doc) && forall t :: t in doc ==> t in vocab
    ensures IsTf(tf, terms', doc)
  {}

  function Numbered(vocab: map<string, nat>, next: nat, token: string): map<string, nat> {
    if token in vocab then vocab else vocab[token := next]
  }

  /** The inverse of the vocabulary after `Numbered`. */
  function Extended(vocab: map<string, nat>, terms: seq<string>, token: string): seq<string> {
    if token in vocab then terms else terms + [token]
  }

  function Counted(tf: map<nat, nat>, id: nat): map<nat, nat> {
    tf[id := (if id in tf then tf[id] else 0) + 1]
  }

  /** One turn of the counting loop. */
  lemma CountTurn(tf: map<nat, nat>, vocab: map<string, nat>, terms: seq<string>, doc: Tokens, token: string)
    requires IsVocab(vocab, terms) && IsTf(tf, terms, doc) && TokenSet(doc) <= vocab.Keys
    ensures IsVocab(Numbered(vocab, |terms|, token), Extended(vocab, terms, token))
    ensures IsTf(Counted(tf, Numbered(vocab, |terms|, token)[token]), Extended(vocab, terms, token), doc + [token])
  {}

  /** One turn: number the token if it is new, and count it. */
  method CountOne(token: string, vocab0: map<string, nat>, next0: nat, tf0: map<nat, nat>, ghost terms0: seq<string>, ghost part: Tokens)
    returns (vocab: map<string, nat>, next: nat, tf: map<nat, nat>, id: nat, ghost terms: seq<string>)
    requires IsVocab(vocab0, terms0) && next0 == |terms0| && IsTf(tf0, terms0, part) && TokenSet(part) <= vocab0.Keys
    ensures IsVocab(vocab, terms) && next == |terms| && terms0 <= terms && vocab.Keys == vocab0.Keys + {token}
    ensures IsTf(tf, terms, part + [token]) && tf.Keys == tf0.Keys + {id}
  {
    CountTurn(tf0, vocab0, terms0, part, token);
    vocab, terms := Numbered(vocab0, next0, token), Extended(vocab0, terms0, token);
    next := if token in vocab0 then next0 else next0 + 1;
    id := vocab[token];
    tf := Counted(tf0, id);
  }

  /** The shared inner loop of the index builders: number new terms, count all of them. */
  method CountTerms(doc: Tokens, vocab0: map<string, nat>, next0: nat, ghost terms0: seq<string>)
    returns (vocab: map<string, nat>, next: nat, tf: map<nat, nat>, ghost terms: seq<string>)
    requires IsVocab(vocab0, terms0) && next0 == |terms0|
    ensures IsVocab(vocab, terms) && next == |terms| && terms0 <= terms
    ensures vocab.Keys == vocab0.Keys + TokenSet(doc)
    ensures IsTf(tf, terms, doc)
  {
    vocab, next, tf, terms := vocab0, next0, map[], terms0;
    for j := 0 to |doc|
      invariant IsVocab(vocab, terms) && next == |terms| && terms0 <= terms
      invariant vocab.Keys == vocab0.Keys + TokenSet(doc[..j])
      invariant IsTf(tf, terms, doc[..j])
    {
      TakeNext(doc, j);
      KnownNext(vocab0.Keys, doc[..j], doc[j]);
      var id;
      vocab, next, tf, id, terms := CountOne(doc[j], vocab, next, tf, terms, doc[..j]);
    }
    TakeAll(doc);
  }

  ghost predicate AreTfs(tfs: seq<map<nat, nat>>, terms: seq<string>, docs: seq<Tokens>) {
    |tfs| == |docs| && forall c :: 0 <= c < |docs| ==> IsTf(tfs[c], terms, docs[c])
  }

  /** After counting one more text everything is as it should be for all of them. */
  lemma OneMoreText(vocab: map<string, nat>, terms: seq<string>, tfs: seq<map<nat, nat>>, docs: seq<Tokens>,
                    vocab': map<string, nat>, terms': seq<string>, tf: map<nat, nat>, doc: Tokens)
    requires IsVocab(vocab, terms) && Covers(vocab, docs) && AreTfs(tfs, terms, docs)
    requires IsVocab(vocab', terms') && terms <= terms' && IsTf(tf, terms', doc)
    requires vocab'.Keys == vocab.Keys + TokenSet(doc)
    ensures Covers(vocab', docs + [doc]) && AreTfs(tfs + [tf], terms', docs + [doc])
  {
    assert (docs + [doc])[..|docs|] == docs;
    forall c | 0 <= c < |docs| ensures IsTf(tfs[c], terms', docs[c]) {
      forall t | t in docs[c] ensures t in vocab {
        InAllTokens(docs, c, t);
      }
      IsTfGrows(tfs[c], vocab, terms, docs[c], vocab', terms');
    }
  }

  /** The counting of one more text. */
  method CountNext(doc: Tokens, vocab0: map<string, nat>, next0: nat, tfs0: seq<map<nat, nat>>, ghost terms0: seq<string>, ghost docs: seq<Tokens>)
    returns (vocab: map<string, nat>, next: nat, tfs: seq<map<nat, nat>>, ghost terms: seq<string>)
    requires IsVocab(vocab0, terms0) && next0 == |terms0| && Covers(vocab0, docs) && AreTfs(tfs0, terms0, docs)
    ensures IsVocab(vocab, terms) && next == |terms| && Covers(vocab, docs + [doc]) && AreTfs(tfs, terms, docs + [doc])
  {
    var tf;
    vocab, next, tf, terms := CountTerms(doc, vocab0, next0, terms0);
    OneMoreText(vocab0, terms0, tfs0, docs, vocab, terms, tf, doc);
    tfs := tfs0 + [tf];
  }

  // ---------------------------------------------------------------- document frequencies, counted along

  function At(m: map<nat, nat>, id: nat): nat {
    if id in m then m[id] else 0
  }

  ghost predicate FreqsOf(df: map<nat, nat>, docs: seq<Tokens>, terms: seq<string>) {
    && (forall id :: id in df ==> id < |terms|)
    && (forall id: nat :: id < |terms| ==> At(df, id) == DocFreq(docs, terms[id]))
  }

  /** One more for each of the term ids, nothing else. */
  ghost predicate Raised(df: map<nat, nat>, df0: map<nat, nat>, ids: set<nat>) {
    df.Keys == df0.Keys + ids && forall id: nat :: At(df, id) == At(df0, id) + (if id in ids then 1 else 0)
  }

  lemma RaisedNext(df: map<nat, nat>, df0: map<nat, nat>, ids: set<nat>, id: nat)
    requires Raised(df, df0, ids) && id !in ids
    ensures Raised(df[id := At(df, id) + 1], df0, ids + {id})
  {}

  method NoteTerm(id: nat, seen0: set<nat>, df1: map<nat, nat>, ghost df0: map<nat, nat>) returns (seen: set<nat>, df: map<nat, nat>)
    requires Raised(df1, df0, seen0)
    ensures seen == seen0 + {id} && Raised(df, df0, seen)
  {
    seen, df := seen0 + {id}, df1;
    if id !in seen0 {
      RaisedNext(df, df0, seen0, id);
      df := df[id := At(df, id) + 1];
    } else {
      assert seen == seen0;
    }
  }

  /** One chunk: its term frequencies, and one more document for each of its terms. */
  method CountChunk(doc: Tokens, vocab0: map<string, nat>, next0: nat, df0: map<nat, nat>, ghost terms0: seq<string>)
    returns (vocab: map<string, nat>, next: nat, tf: map<nat, nat>, df: map<nat, nat>, ghost terms: seq<string>)
    requires IsVocab(vocab0, terms0) && next0 == |terms0|
    ensures IsVocab(vocab, terms) && next == |terms| && terms0 <= terms
    ensures vocab.Keys == vocab0.Keys + TokenSet(doc)
    ensures IsTf(tf, terms, doc) && Raised(df, df0, tf.Keys)
  {
    vocab, next, tf, df, terms := vocab0, next0, map[], df0, terms0;
    var seen: set<nat> := {};
    for j := 0 to |doc|
      invariant IsVocab(vocab, terms) && next == |terms| && terms0 <= terms
      invariant vocab.Keys == vocab0.Keys + TokenSet(doc[..j])
      invariant IsTf(tf, terms, doc[..j])
      invariant seen == tf.Keys && Raised(df, df0, seen)
    {
      TakeNext(doc, j);
      KnownNext(vocab0.Keys, doc[..j], doc[j]);
      var id;
      vocab, next, tf, id, terms := CountOne(doc[j], vocab, next, tf, terms, doc[..j]);
      seen, df := NoteTerm(id, seen, df, df0);
    }
    TakeAll(doc);
  }

  lemma NewTermsUnknown(vocab0: map<string, nat>, terms0: seq<string>, vocab: map<string, nat>, terms: seq<string>, id: nat)
    requires IsVocab(vocab0, terms0) && IsVocab(vocab, terms) && terms0 <= terms && |terms0| <= id < |terms|
    ensures terms[id] !in vocab0
  {}

  lemma FreqsNext(df: map<nat, nat>, df0: map<nat, nat>, tf: map<nat, nat>, docs: seq<Tokens>, doc: Tokens,
                  vocab0: map<string, nat>, terms0: seq<string>, vocab: map<string, nat>, terms: seq<string>)
    requires IsVocab(vocab0, terms0) && Covers(vocab0, docs) && FreqsOf(df0, docs, terms0)
    requires IsVocab(vocab, terms) && terms0 <= terms && IsTf(tf, terms, doc) && Raised(df, df0, tf.Keys)
    ensures FreqsOf(df, docs + [doc], terms)
  {
    forall id: nat | id < |terms| ensures At(df, id) == DocFreq(docs + [doc], terms[id]) {
      assert (docs + [doc])[..|docs|] == docs;
      DocFreqBounds(docs, terms[id]);
      if id >= |terms0| {
        NewTermsUnknown(vocab0, terms0, vocab, terms, id);
      }
    }
  }

  // ---------------------------------------------------------------- matching

  /** Every text that shares a term with the query. */
  predicate Shares(doc: Tokens, query: Tokens) {
    exists i :: 0 <= i < |query| && query[i] in doc
  }
}
