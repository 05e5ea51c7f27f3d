/** What a fused answer leaves out, when an answer depends on the order in which hash maps are read, and when not. */
module SearchDeterminism {
  import opened Wrappers
  import opened Lexicon
  import opened Ranking
  import opened Fusion
  import opened SearchRuntime
  import Bm25
  import Trigram

  // ---------------------------------------------------------------- nothing is left out

  function Scored(tables: seq<Table>): set<nat> {
    if tables == [] then {} else Scored(tables[..|tables| - 1]) + tables[|tables| - 1].scores.Keys
  }

  lemma {:induction false} FusedIdsAreScored(lists: seq<seq<Hit>>, tables: seq<Table>, k: nat)
    requires AreRanked(lists, tables, k) && forall i :: 0 <= i < |tables| ==> |tables[i].scores| <= k
    ensures FusedIds(lists) == Scored(tables)
  {
    if lists != [] {
      var n := |lists| - 1;
      FusedIdsAreScored(lists[..n], tables[..n], k);
      ListsEverything(lists[n], tables[n], k);
    }
  }

  lemma ListsEverything(list: seq<Hit>, t: Table, k: nat)
    requires IsRanking(list, t, k) && |t.scores| <= k
    ensures ListIds(list) == t.scores.Keys
  {
    forall id | id in t.scores ensures id in ListIds(list) {
      NothingLeftOut(list, t.scores, k, OrderOf(t), id);
    }
  }

  function Upto(n: nat): set<nat> {
    if n == 0 then {} else Upto(n - 1) + {n - 1}
  }

  lemma {:induction false} UptoSize(n: nat)
    ensures |Upto(n)| == n && forall c: nat :: c in Upto(n) <==> c < n
  {
    if n > 0 {
      UptoSize(n - 1);
    }
  }

  lemma WithinSize(ids: set<nat>, n: nat)
    requires forall c :: c in ids ==> c < n
    ensures |ids| <= n
  {
    UptoSize(n);
    SubsetSize(ids, Upto(n));
  }

  /** With room for every chunk, a fused answer lists exactly the chunks some ranker scores. */
  lemma FusedMissesNothing(hits: seq<Hit>, lists: seq<seq<Hit>>, tables: seq<Table>, n: nat, k: nat, c: nat)
    requires AreRanked(lists, tables, k) && TablesWithin(tables, n) && n <= k && IsFusion(hits, lists, k)
    ensures Listed(hits, c) <==> c in Scored(tables)
  {
    forall i | 0 <= i < |tables| ensures |tables[i].scores| <= k {
      WithinSize(tables[i].scores.Keys, n);
    }
    FusedIdsAreScored(lists, tables, k);
    forall i, j | 0 <= i < |lists| && 0 <= j < |lists[i]| ensures lists[i][j].id < n {
      assert lists[i][j].id in tables[i].scores;
    }
    FusedWithin(lists, n);
    WithinSize(FusedScores(lists).Keys, n);
    if c in Scored(tables) {
      NothingLeftOut(hits, FusedScores(lists), k, ByScoreThenId, c);
    }
  }

  // ---------------------------------------------------------------- one ranker

  /** The chunks that score better. */
  function Better(scores: map<nat, real>, x: real): set<nat> {
    set c | c in scores && scores[c] > x
  }

  /** Chunks that tie have k better ones, so they are not listed. */
  predicate Settled(scores: map<nat, real>, k: nat) {
    forall a, b :: a in scores && b in scores && a != b && scores[a] == scores[b] ==> |Better(scores, scores[a])| >= k
  }

  ghost predicate OneRanking(t: Table, k: nat) {
    forall r, s :: IsRanking(r, t, k) && IsRanking(s, t, k) ==> r == s
  }

  function Ids(r: seq<Hit>): set<nat> {
    set h: Hit | h in multiset(r) :: h.id
  }

  lemma ListedIff(r: seq<Hit>, id: nat)
    ensures id in Ids(r) <==> Listed(r, id)
  {
    if Listed(r, id) {
      var j :| 0 <= j < |r| && r[j].id == id;
      assert r[j] in multiset(r);
    }
    if id in Ids(r) {
      var h: Hit :| h in multiset(r) && h.id == id;
      assert h in r;
    }
  }

  /** A listed hit has fewer than k better chunks: all of them are listed, too. */
  lemma ListedHaveFewBetter(r: seq<Hit>, scores: map<nat, real>, k: nat, i: nat)
    requires IsTopK(r, scores, k, ByScore) && i < |r|
    ensures |Better(scores, r[i].score)| < k
  {
    IdsCounted(r);
    forall c | c in Better(scores, r[i].score) ensures c in Ids(r) - {r[i].id} {
      ListedIff(r, c);
    }
    ListedIff(r, r[i].id);
    SubsetSize(Better(scores, r[i].score), Ids(r) - {r[i].id});
  }

  /** In a settled table the order by score is the order by score and id. */
  lemma SettledIsFiner(r: seq<Hit>, scores: map<nat, real>, k: nat)
    requires Settled(scores, k) && IsTopK(r, scores, k, ByScore)
    ensures IsTopK(r, scores, k, ByScoreThenId)
  {
    forall i, j | 0 <= i < j < |r| ensures ByScoreThenId(r[i], r[j]) {
      ListedHaveFewBetter(r, scores, k, i);
    }
    forall id, i | id in scores && !Listed(r, id) && 0 <= i < |r| ensures ByScoreThenId(r[i], Hit(id, scores[id])) {
      ListedHaveFewBetter(r, scores, k, i);
    }
  }

  lemma SettledIsOne(t: Table, k: nat, r: seq<Hit>, s: seq<Hit>)
    requires t.byId || Settled(t.scores, k)
    requires IsRanking(r, t, k) && IsRanking(s, t, k)
    ensures r == s
  {
    if !t.byId {
      SettledIsFiner(r, t.scores, k);
      SettledIsFiner(s, t.scores, k);
    }
    TopKUnique(r, s, t.scores, k);
  }

  lemma {:induction false} SomeEnumeration(scores: map<nat, real>) returns (xs: seq<Hit>)
    ensures Enumerates(xs, scores)
    decreases |scores|
  {
    if scores == map[] {
      return [];
    }
    var id :| id in scores;
    var rest := scores - {id};
    xs := SomeEnumeration(rest);
    assert Hit(id, scores[id]) !in xs;
    xs := xs + [Hit(id, scores[id])];
    forall c | c in scores && c != id ensures c in rest {}
  }

  lemma SomeRanking(t: Table, k: nat) returns (r: seq<Hit>)
    ensures IsRanking(r, t, k)
  {
    var xs := SomeEnumeration(t.scores);
    RankOrders();
    SortedPrefixIsTopK(xs, t.scores, k, OrderOf(t));
    r := Truncate(SortHits(xs, OrderOf(t)), k);
  }

  /** An unlisted chunk may take the place of a listed one with its score. */
  lemma Replaced(r: seq<Hit>, scores: map<nat, real>, k: nat, i: nat, c: nat) returns (s: seq<Hit>)
    requires IsTopK(r, scores, k, ByScore) && i < |r| && c in scores && !Listed(r, c) && scores[c] == r[i].score
    ensures IsTopK(s, scores, k, ByScore) && s != r
  {
    s := r[i := Hit(c, scores[c])];
    forall n | 0 <= n < |r| && n != i ensures Listed(s, r[n].id) {
      assert s[n] == r[n];
    }
    forall id, j | id in scores && !Listed(s, id) && 0 <= j < |s| ensures ByScore(s[j], Hit(id, scores[id])) {
      assert Listed(r, id) ==> id == r[i].id;
    }
  }

  function Exchange(n: nat, i: nat, j: nat): nat {
    if n == i then j else if n == j then i else n
  }

  predicate IsSwap(r: seq<Hit>, s: seq<Hit>, i: nat, j: nat) {
    && |s| == |r| && i < j < |r| && r[i].score == r[j].score
    && forall n: nat :: n < |r| ==> s[n] == r[Exchange(n, i, j)]
  }

  lemma SwapKeepsListed(r: seq<Hit>, s: seq<Hit>, i: nat, j: nat)
    requires IsSwap(r, s, i, j)
    ensures forall id :: Listed(r, id) ==> Listed(s, id)
  {
    forall id | Listed(r, id) ensures Listed(s, id) {
      var n: nat :| n < |r| && r[n].id == id;
      assert s[Exchange(n, i, j)] == r[n];
    }
  }

  lemma SwapKeepsScores(r: seq<Hit>, s: seq<Hit>, i: nat, j: nat)
    requires IsSwap(r, s, i, j) && DistinctIds(r)
    ensures DistinctIds(s) && forall n :: 0 <= n < |r| ==> s[n].score == r[n].score
  {}

  lemma SwapIsTopK(r: seq<Hit>, s: seq<Hit>, scores: map<nat, real>, k: nat, i: nat, j: nat)
    requires IsTopK(r, scores, k, ByScore) && IsSwap(r, s, i, j)
    ensures IsTopK(s, scores, k, ByScore)
  {
    SwapKeepsListed(r, s, i, j);
    SwapKeepsScores(r, s, i, j);
    forall n | 0 <= n < |s| ensures s[n].id in scores && s[n].score == scores[s[n].id] {
      assert s[n] == r[Exchange(n, i, j)];
    }
    forall id, n | id in scores && !Listed(s, id) && 0 <= n < |s| ensures ByScore(s[n], Hit(id, scores[id])) {
      assert !Listed(r, id) && ByScore(r[n], Hit(id, scores[id]));
    }
  }

  /** Two listed chunks with one score may change places. */
  lemma Swapped(r: seq<Hit>, scores: map<nat, real>, k: nat, i: nat, j: nat) returns (s: seq<Hit>)
    requires IsTopK(r, scores, k, ByScore) && i < j < |r| && r[i].score == r[j].score
    ensures IsSwap(r, s, i, j) && IsTopK(s, scores, k, ByScore) && s != r
  {
    s := r[i := r[j]][j := r[i]];
    SwapIsTopK(r, s, scores, k, i, j);
    assert s[i] != r[i];
  }

  /** If none of the better chunks leaves room, somebody listed scores what an unlisted chunk scores. */
  lemma BoundaryTies(r: seq<Hit>, scores: map<nat, real>, k: nat, a: nat) returns (i: nat)
    requires IsTopK(r, scores, k, ByScore) && a in scores && !Listed(r, a) && |Better(scores, scores[a])| < k
    ensures i < |r| && r[i].score == scores[a]
  {
    IdsCounted(r);
    if forall j :: 0 <= j < |r| ==> r[j].score > scores[a] {
      forall c | c in Ids(r) ensures c in Better(scores, scores[a]) {
        ListedIff(r, c);
      }
      SubsetSize(Ids(r), Better(scores, scores[a]));
      FewerThanAll(r, scores, k, a);
    }
    i :| 0 <= i < |r| && r[i].score <= scores[a];
  }

  lemma FewerThanAll(r: seq<Hit>, scores: map<nat, real>, k: nat, a: nat)
    requires IsTopK(r, scores, k, ByScore) && a in scores && !Listed(r, a)
    ensures |r| == k
  {
    if |scores| <= k {
      NothingLeftOut(r, scores, k, ByScore, a);
    }
  }

  lemma TieHasTwoRankings(t: Table, k: nat, a: nat, b: nat)
    requires !t.byId && a in t.scores && b in t.scores && a != b && t.scores[a] == t.scores[b]
    requires |Better(t.scores, t.scores[a])| < k
    ensures !OneRanking(t, k)
  {
    var r := SomeRanking(t, k);
    var s;
    if !Listed(r, a) || !Listed(r, b) {
      var c := if Listed(r, a) then b else a;
      var i := BoundaryTies(r, t.scores, k, c);
      s := Replaced(r, t.scores, k, i, c);
    } else {
      var i :| 0 <= i < |r| && r[i].id == a;
      var j :| 0 <= j < |r| && r[j].id == b;
      s := Swapped(r, t.scores, k, if i < j then i else j, if i < j then j else i);
    }
    assert IsRanking(s, t, k);
  }

  /** A ranker's answer is independent of hash order if and only if it breaks ties by id or no chunks that tie have fewer
      than k better ones. */
  lemma OneRankingIff(t: Table, k: nat)
    ensures OneRanking(t, k) <==> t.byId || Settled(t.scores, k)
  {
    if t.byId || Settled(t.scores, k) {
      forall r, s | IsRanking(r, t, k) && IsRanking(s, t, k) ensures r == s {
        SettledIsOne(t, k, r, s);
      }
    } else {
      var a, b :| a in t.scores && b in t.scores && a != b && t.scores[a] == t.scores[b] && |Better(t.scores, t.scores[a])| < k;
      TieHasTwoRankings(t, k, a, b);
    }
  }

  // ---------------------------------------------------------------- fused answers

  /** The answers these tables allow, over all the orders in which hash maps may be read. */
  ghost predicate MayAnswer(hits: seq<Hit>, tables: seq<Table>, k: nat) {
    exists lists :: AreRanked(lists, tables, k) && IsFused(hits, lists, k)
  }

  ghost predicate OneAnswer(tables: seq<Table>, k: nat) {
    forall r, s :: MayAnswer(r, tables, k) && MayAnswer(s, tables, k) ==> r == s
  }

  predicate AllSettled(tables: seq<Table>, k: nat) {
    forall i :: 0 <= i < |tables| ==> tables[i].byId || Settled(tables[i].scores, k)
  }

  lemma SettledSameLists(tables: seq<Table>, k: nat, xs: seq<seq<Hit>>, ys: seq<seq<Hit>>)
    requires AllSettled(tables, k) && AreRanked(xs, tables, k) && AreRanked(ys, tables, k)
    ensures xs == ys
  {
    forall i | 0 <= i < |tables| ensures xs[i] == ys[i] {
      SettledIsOne(tables[i], k, xs[i], ys[i]);
    }
  }

  lemma OneFused(lists: seq<seq<Hit>>, k: nat, r: seq<Hit>, s: seq<Hit>)
    requires IsFused(r, lists, k) && IsFused(s, lists, k)
    ensures r == s
  {
    if |lists| != 1 {
      TopKUnique(r, s, FusedScores(lists), k);
    }
  }

  /** If every ranker that leaves ties to hash order is settled, there is one answer. */
  lemma SettledHaveOneAnswer(tables: seq<Table>, k: nat)
    requires AllSettled(tables, k)
    ensures OneAnswer(tables, k)
  {
    forall r, s | MayAnswer(r, tables, k) && MayAnswer(s, tables, k) ensures r == s {
      var xs :| AreRanked(xs, tables, k) && IsFused(r, xs, k);
      var ys :| AreRanked(ys, tables, k) && IsFused(s, ys, k);
      SettledSameLists(tables, k, xs, ys);
      OneFused(xs, k, r, s);
    }
  }

  lemma {:induction false} SomeRankings(tables: seq<Table>, k: nat) returns (lists: seq<seq<Hit>>)
    ensures AreRanked(lists, tables, k)
  {
    if tables == [] {
      return [];
    }
    var n := |tables| - 1;
    var init := SomeRankings(tables[..n], k);
    var last := SomeRanking(tables[n], k);
    lists := init + [last];
  }

  lemma SomeFused(lists: seq<seq<Hit>>, k: nat) returns (hits: seq<Hit>)
    ensures IsFused(hits, lists, k)
  {
    hits := SomeRanking(Table(FusedScores(lists), true), k);
    if |lists| == 1 {
      hits := lists[0];
    }
  }

  lemma AloneAnswers(hits: seq<Hit>, t: Table, k: nat)
    ensures MayAnswer(hits, [t], k) <==> IsRanking(hits, t, k)
  {
    if IsRanking(hits, t, k) {
      assert AreRanked([hits], [t], k) && IsFused(hits, [hits], k);
    }
  }

  /** One answer from one ranker, exactly when that ranker is settled. */
  lemma AloneOneAnswerIff(t: Table, k: nat)
    ensures OneAnswer([t], k) <==> t.byId || Settled(t.scores, k)
  {
    OneRankingIff(t, k);
    forall r ensures MayAnswer(r, [t], k) <==> IsRanking(r, t, k) {
      AloneAnswers(r, t, k);
    }
  }

  lemma {:induction false} FusedReplace(lists: seq<seq<Hit>>, i: nat, list: seq<Hit>, id: nat)
    requires i < |lists|
    ensures FusedScore(lists[i := list], id) == FusedScore(lists, id) - ListScore(lists[i], id) + ListScore(list, id)
  {
    var n := |lists| - 1;
    if i < n {
      assert lists[i := list][..n] == lists[..n][i := list];
      FusedReplace(lists[..n], i, list, id);
    } else {
      assert lists[i := list][..n] == lists[..n];
    }
  }

  /** Exchanging two listed chunks changes what the list gives each of them. */
  lemma SwapChangesScore(r: seq<Hit>, s: seq<Hit>, i: nat, j: nat)
    requires DistinctIds(r) && DistinctIds(s) && IsSwap(r, s, i, j)
    ensures ListScore(r, r[i].id) > ListScore(s, r[i].id)
  {
    ListScoreAt(r, i);
    assert s[j] == r[Exchange(j, i, j)] == r[i];
    ListScoreAt(s, j);
    ContributionFalls(i, j);
  }

  /** With room for every chunk a tie always shows: the scores, if not the order, depend on hash order. */
  lemma TieShows(tables: seq<Table>, n: nat, k: nat, x: nat, a: nat, b: nat)
    requires TablesWithin(tables, n) && n <= k && x < |tables| && !tables[x].byId
    requires var t := tables[x].scores; a in t && b in t && a != b && t[a] == t[b]
    ensures !OneAnswer(tables, k)
  {
    var lists := SomeRankings(tables, k);
    WithinSize(tables[x].scores.Keys, n);
    var s, c := OtherRanking(lists[x], tables[x].scores, k, a, b);
    assert AreRanked(lists[x := s], tables, k);
    FusedReplace(lists, x, s, c);
    TwoListingsTwoAnswers(tables, lists, lists[x := s], n, k, c);
  }

  /** Another ranking of a table with a tie, in which a chunk counts for less. */
  lemma OtherRanking(r: seq<Hit>, t: map<nat, real>, k: nat, a: nat, b: nat) returns (s: seq<Hit>, c: nat)
    requires IsTopK(r, t, k, ByScore) && |t| <= k && a in t && b in t && a != b && t[a] == t[b]
    ensures IsTopK(s, t, k, ByScore) && ListScore(s, c) < ListScore(r, c)
  {
    NothingLeftOut(r, t, k, ByScore, a);
    NothingLeftOut(r, t, k, ByScore, b);
    var p :| 0 <= p < |r| && r[p].id == a;
    var q :| 0 <= q < |r| && r[q].id == b;
    var i, j := if p < q then p else q, if p < q then q else p;
    s := Swapped(r, t, k, i, j);
    c := r[i].id;
    SwapChangesScore(r, s, i, j);
  }

  lemma UnscoredFuseZero(lists: seq<seq<Hit>>, tables: seq<Table>, n: nat, k: nat, c: nat)
    requires TablesWithin(tables, n) && n <= k && AreRanked(lists, tables, k) && c !in Scored(tables)
    ensures FusedScore(lists, c) == 0.0
  {
    forall i | 0 <= i < |tables| ensures |tables[i].scores| <= k {
      WithinSize(tables[i].scores.Keys, n);
    }
    FusedIdsAreScored(lists, tables, k);
    NotFusedScoresZero(lists, c);
  }

  /** With room for every chunk the answer shows every fused score. */
  lemma AnswerShowsScores(tables: seq<Table>, xs: seq<seq<Hit>>, ys: seq<seq<Hit>>, r: seq<Hit>, n: nat, k: nat, c: nat)
    requires TablesWithin(tables, n) && n <= k && AreRanked(xs, tables, k) && AreRanked(ys, tables, k)
    requires IsFused(r, xs, k) && IsFused(r, ys, k)
    ensures FusedScore(xs, c) == FusedScore(ys, c)
  {
    if |xs| == 1 {
      assert xs == ys;
    } else if c in Scored(tables) {
      FusedMissesNothing(r, xs, tables, n, k, c);
      var i :| 0 <= i < |r| && r[i].id == c;
      assert r[i].score == FusedScores(xs)[c] == FusedScores(ys)[c];
    } else {
      UnscoredFuseZero(xs, tables, n, k, c);
      UnscoredFuseZero(ys, tables, n, k, c);
    }
  }

  lemma TwoListingsTwoAnswers(tables: seq<Table>, xs: seq<seq<Hit>>, ys: seq<seq<Hit>>, n: nat, k: nat, c: nat)
    requires TablesWithin(tables, n) && n <= k && AreRanked(xs, tables, k) && AreRanked(ys, tables, k)
    requires FusedScore(xs, c) != FusedScore(ys, c)
    ensures !OneAnswer(tables, k)
  {
    var r := SomeFused(xs, k);
    var s := SomeFused(ys, k);
    assert MayAnswer(r, tables, k) && MayAnswer(s, tables, k);
    if r == s {
      AnswerShowsScores(tables, xs, ys, r, n, k, c);
    }
  }

  predicate NoTies(scores: map<nat, real>) {
    forall a, b :: a in scores && b in scores && scores[a] == scores[b] ==> a == b
  }

  /** With room for every chunk, there is one answer if and only if no ranker that leaves ties to hash order has any. */
  lemma OneAnswerIff(tables: seq<Table>, n: nat, k: nat)
    requires TablesWithin(tables, n) && n <= k
    ensures OneAnswer(tables, k) <==> forall i :: 0 <= i < |tables| ==> tables[i].byId || NoTies(tables[i].scores)
  {
    if forall i :: 0 <= i < |tables| ==> tables[i].byId || NoTies(tables[i].scores) {
      SettledHaveOneAnswer(tables, k);
    } else {
      var i :| 0 <= i < |tables| && !tables[i].byId && !NoTies(tables[i].scores);
      var t := tables[i].scores;
      var a, b :| a in t && b in t && t[a] == t[b] && a != b;
      TieShows(tables, n, k, i, a, b);
    }
  }

  // ---------------------------------------------------------------- chunks that always tie

  lemma {:induction false} TwinScores(ln: real -> real, docs: seq<Tokens>, query: Tokens, a: nat, b: nat)
    requires a < |docs| && b < |docs| && docs[a] == docs[b]
    ensures Bm25.Score(ln, docs, query, a) == Bm25.Score(ln, docs, query, b)
  {
    if query != [] {
      TwinScores(ln, docs, query[..|query| - 1], a, b);
    }
  }

  /** Two chunks with the same text tie in every lexical table, or are in none. */
  lemma TwinsTie(m: Reals, corpus: Corpus, q: Query, kept: set<string>, a: nat, b: nat)
    requires |corpus.docs| == |corpus.texts| && a < |corpus.docs| && b < |corpus.docs|
    requires corpus.docs[a] == corpus.docs[b] && corpus.texts[a] == corpus.texts[b]
    ensures Tie(Bm25Scores(m, corpus, q), a, b) && Tie(TfIdfScores(m, corpus, q), a, b) && Tie(TrigramScores(kept, corpus, q), a, b)
  {
    TwinScores(m.ln, corpus.docs, q.words, a, b);
  }

  predicate Tie(scores: map<nat, real>, a: nat, b: nat) {
    (a in scores <==> b in scores) && (a in scores ==> scores[a] == scores[b])
  }

  /** What a chunk that is first in both of two lists scores. */
  const FIRST_OF_BOTH: real := 1.0 / 61.0 + 1.0 / 61.0

  lemma OneListOfOne(h: Hit)
    ensures ListScore([h], h.id) == 1.0 / 61.0 && ListIds([h]) == {h.id}
  {
    assert [h][..0] == [];
  }

  lemma TwoListsOfOne(c: nat, x: real, y: real)
    ensures IsFusion([Hit(c, FIRST_OF_BOTH)], [[Hit(c, x)], [Hit(c, y)]], 1)
  {
    var first, lists := [[Hit(c, x)]], [[Hit(c, x)], [Hit(c, y)]];
    OneListOfOne(Hit(c, x));
    OneListOfOne(Hit(c, y));
    assert first[..0] == [] && lists[..1] == first;
    assert FusedScore(first, c) == 1.0 / 61.0 && FusedIds(first) == {c};
    assert FusedScores(lists) == map[c := FIRST_OF_BOTH];
  }

  lemma EitherOfTwo(t: Table, c: nat)
    requires !t.byId && t.scores.Keys == {0, 1} && t.scores[0] == t.scores[1] && c < 2
    ensures IsRanking([Hit(c, t.scores[c])], t, 1)
  {
    assert |t.scores| == |t.scores.Keys|;
  }

  /** Two chunks that tie everywhere and nothing else: asked for one hit, the runtime may give either. */
  lemma EitherTwin(tables: seq<Table>, c: nat)
    requires |tables| == 2 && c < 2
    requires forall i :: 0 <= i < 2 ==> !tables[i].byId && tables[i].scores.Keys == {0, 1} && tables[i].scores[0] == tables[i].scores[1]
    ensures MayAnswer([Hit(c, FIRST_OF_BOTH)], tables, 1)
  {
    EitherOfTwo(tables[0], c);
    EitherOfTwo(tables[1], c);
    TwoListsOfOne(c, tables[0].scores[c], tables[1].scores[c]);
    var lists := [[Hit(c, tables[0].scores[c])], [Hit(c, tables[1].scores[c])]];
    assert AreRanked(lists, tables, 1) && IsFused([Hit(c, FIRST_OF_BOTH)], lists, 1);
  }

  /** Built indexes, a query, and two answers. */
  method TwoAnswers(m: Reals) returns (rt: Runtime, req: Request, ghost corpus: Corpus)
    requires IsReals(m)
    ensures Built(rt, m, corpus) && IsQuery(req.query)
    ensures req.topK == 1 && BothAnswer(Tables(rt, m, corpus, req))
  {
    var docs: seq<Tokens>, texts := [["aaa"], ["aaa"]], ["aaa", "aaa"];
    var bm25, trigram;
    ghost var wordTerms, gramTerms;
    bm25, wordTerms := Bm25.BuildIndex(docs);
    trigram, gramTerms := Trigram.BuildIndex(texts, 1);
    rt := Runtime(bm25, None, Some(trigram), None);
    corpus := Corpus(docs, texts, wordTerms, [], gramTerms);
    req := Request(Query(["aaa"], false, "aaa"), 1, Auto, None);
    TwoTables(rt, m, corpus, req);
    TwinsDiffer(m, corpus, req.query, trigram.vocab.Keys);
  }

  lemma TwinWords(m: Reals, corpus: Corpus, q: Query)
    requires |corpus.docs| == 2 && q.words != [] && q.words[0] in corpus.docs[0] && q.words[0] in corpus.docs[1]
    ensures Bm25Scores(m, corpus, q).Keys == {0, 1}
  {
    assert Shares(corpus.docs[0], q.words) && Shares(corpus.docs[1], q.words);
  }

  lemma TwinTrigrams(corpus: Corpus, kept: set<string>, q: Query, t: string)
    requires |corpus.texts| == 2 && t in kept && t in Trigram.ExtractTrigrams(q.chars)
    requires t in Trigram.ExtractTrigrams(corpus.texts[0]) && t in Trigram.ExtractTrigrams(corpus.texts[1])
    ensures TrigramScores(kept, corpus, q).Keys == {0, 1}
  {
    var sets := Trigram.AllSets(corpus.texts);
    Meet(Trigram.ExtractTrigrams(q.chars), sets[0], kept, t);
    Meet(Trigram.ExtractTrigrams(q.chars), sets[1], kept, t);
  }

  lemma Meet(a: set<string>, b: set<string>, kept: set<string>, t: string)
    requires t in a && t in b && t in kept
    ensures a * (b * kept) != {}
  {
    assert t in a * (b * kept);
  }

  predicate TiesTwo(scores: map<nat, real>) {
    scores.Keys == {0, 1} && Tie(scores, 0, 1)
  }

  lemma TwoTables(rt: Runtime, m: Reals, corpus: Corpus, req: Request)
    requires Built(rt, m, corpus) && rt.tfidf.None? && rt.trigram.Some? && rt.dense.None?
    ensures Tables(rt, m, corpus, req) ==
            [Table(Bm25Scores(m, corpus, req.query), false), Table(TrigramScores(rt.trigram.value.vocab.Keys, corpus, req.query), false)]
  {}

  lemma TwinTablesTie(m: Reals, corpus: Corpus, q: Query, kept: set<string>)
    requires corpus.docs == [["aaa"], ["aaa"]] && corpus.texts == ["aaa", "aaa"]
    requires kept == Trigram.Kept(Trigram.AllSets(corpus.texts), 1) && q == Query(["aaa"], false, "aaa")
    ensures TiesTwo(Bm25Scores(m, corpus, q)) && TiesTwo(TrigramScores(kept, corpus, q))
  {
    TwinsTie(m, corpus, q, kept, 0, 1);
    TwinWords(m, corpus, q);
    Trigram.EverythingKept(Trigram.AllSets(corpus.texts), 1);
    var t := Trigram.Window("aaa", 0);
    assert t in Trigram.ExtractTrigrams("aaa");
    assert t in Trigram.AllSets(corpus.texts)[0];
    TwinTrigrams(corpus, kept, q, t);
  }

  lemma TwinsDiffer(m: Reals, corpus: Corpus, q: Query, kept: set<string>)
    requires corpus.docs == [["aaa"], ["aaa"]] && corpus.texts == ["aaa", "aaa"]
    requires kept == Trigram.Kept(Trigram.AllSets(corpus.texts), 1) && q == Query(["aaa"], false, "aaa")
    ensures BothAnswer([Table(Bm25Scores(m, corpus, q), false), Table(TrigramScores(kept, corpus, q), false)])
  {
    TwinTablesTie(m, corpus, q, kept);
    EitherTwins(Bm25Scores(m, corpus, q), TrigramScores(kept, corpus, q));
  }

  /** Asked for one hit, these tables may give the first chunk or the second. */
  ghost predicate BothAnswer(tables: seq<Table>) {
    && MayAnswer([Hit(0, FIRST_OF_BOTH)], tables, 1) && MayAnswer([Hit(1, FIRST_OF_BOTH)], tables, 1)
    && !OneAnswer(tables, 1)
  }

  lemma EitherTwins(x: map<nat, real>, y: map<nat, real>)
    requires TiesTwo(x) && TiesTwo(y)
    ensures BothAnswer([Table(x, false), Table(y, false)])
  {
    var tables := [Table(x, false), Table(y, false)];
    EitherTwin(tables, 0);
    EitherTwin(tables, 1);
    DifferentAnswers(tables, 1, Hit(0, FIRST_OF_BOTH), Hit(1, FIRST_OF_BOTH));
  }

  lemma DifferentAnswers(tables: seq<Table>, k: nat, g: Hit, h: Hit)
    requires g != h && MayAnswer([g], tables, k) && MayAnswer([h], tables, k)
    ensures !OneAnswer(tables, k)
  {
    assert [g][0] != [h][0];
  }
}
