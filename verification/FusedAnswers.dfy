/** Exactly when a fused answer is the only one: how far hash order can raise or lower what a chunk scores. */
module FusedAnswers {
  import opened Ranking
  import opened Fusion
  import opened SearchRuntime
  import opened SearchDeterminism

  // ---------------------------------------------------------------- the ranks a chunk may get

  /** The chunks ranked ahead of this one in any order of the hash maps. */
  function Ahead(t: Table, c: nat): set<nat>
    requires c in t.scores
  {
    set d | d in t.scores && (t.scores[d] > t.scores[c] || (t.byId && t.scores[d] == t.scores[c] && d < c))
  }

  /** The chunks that hash order may put on either side of this one. */
  function Level(t: Table, c: nat): set<nat>
    requires c in t.scores
  {
    set d | d in t.scores && !t.byId && d != c && t.scores[d] == t.scores[c]
  }

  function BestRank(t: Table, c: nat): nat
    requires c in t.scores
  {
    |Ahead(t, c)|
  }

  function WorstRank(t: Table, c: nat): nat
    requires c in t.scores
  {
    |Ahead(t, c)| + |Level(t, c)|
  }

  /** What a rank is worth in a list of k. */
  function Gain(rank: nat, k: nat): real {
    if rank < k then Contribution(rank) else 0.0
  }

  function Most(t: Table, k: nat, c: nat): real {
    if c in t.scores then Gain(BestRank(t, c), k) else 0.0
  }

  function Least(t: Table, k: nat, c: nat): real {
    if c in t.scores then Gain(WorstRank(t, c), k) else 0.0
  }

  /** The most and the least a chunk can score over all tables. */
  function High(tables: seq<Table>, k: nat, c: nat): real {
    if tables == [] then 0.0 else High(tables[..|tables| - 1], k, c) + Most(tables[|tables| - 1], k, c)
  }

  function Low(tables: seq<Table>, k: nat, c: nat): real {
    if tables == [] then 0.0 else Low(tables[..|tables| - 1], k, c) + Least(tables[|tables| - 1], k, c)
  }

  lemma GainFalls(i: nat, j: nat, k: nat)
    requires i <= j
    ensures Gain(i, k) >= Gain(j, k) >= 0.0
  {
    if i < j {
      ContributionFalls(i, j);
    }
  }

  lemma PrefixIds(r: seq<Hit>, i: nat)
    requires DistinctIds(r) && i <= |r|
    ensures |Ids(r[..i])| == i && forall c :: c in Ids(r[..i]) <==> exists j :: 0 <= j < i && r[j].id == c
  {
    IdsCounted(r[..i]);
    forall c ensures c in Ids(r[..i]) <==> exists j :: 0 <= j < i && r[j].id == c {
      ListedIff(r[..i], c);
      if Listed(r[..i], c) {
        var j :| 0 <= j < i && r[..i][j].id == c;
        assert r[j].id == c;
      }
      if j :| 0 <= j < i && r[j].id == c {
        assert r[..i][j].id == c;
      }
    }
  }

  /** A listed chunk has all of those ahead before it, and at most those level with it besides. */
  lemma RankBounds(r: seq<Hit>, t: Table, k: nat, i: nat)
    requires IsRanking(r, t, k) && i < |r|
    ensures BestRank(t, r[i].id) <= i <= WorstRank(t, r[i].id)
  {
    PrefixIds(r, i);
    AheadIsBefore(r, t, k, i);
    BeforeIsAheadOrLevel(r, t, k, i);
  }

  lemma AheadIsBefore(r: seq<Hit>, t: Table, k: nat, i: nat)
    requires IsRanking(r, t, k) && i < |r|
    ensures |Ahead(t, r[i].id)| <= |Ids(r[..i])|
  {
    var c := r[i].id;
    PrefixIds(r, i);
    forall d | d in Ahead(t, c) ensures d in Ids(r[..i]) {
      assert Listed(r, d);
      var j :| 0 <= j < |r| && r[j].id == d;
    }
    SubsetSize(Ahead(t, c), Ids(r[..i]));
  }

  lemma BeforeIsAheadOrLevel(r: seq<Hit>, t: Table, k: nat, i: nat)
    requires IsRanking(r, t, k) && i < |r|
    ensures |Ids(r[..i])| <= WorstRank(t, r[i].id)
  {
    var c := r[i].id;
    PrefixIds(r, i);
    forall d | d in Ids(r[..i]) ensures d in Ahead(t, c) + Level(t, c) {
      var j :| 0 <= j < i && r[j].id == d;
    }
    SubsetSize(Ids(r[..i]), Ahead(t, c) + Level(t, c));
    Disjoint(t, c);
  }

  lemma Disjoint(t: Table, c: nat)
    requires c in t.scores
    ensures |Ahead(t, c) + Level(t, c)| == WorstRank(t, c)
  {
    assert Ahead(t, c) * Level(t, c) == {};
  }

  /** A chunk that is not listed may have k others before it. */
  lemma UnlistedBounds(r: seq<Hit>, t: Table, k: nat, c: nat)
    requires IsRanking(r, t, k) && c in t.scores && !Listed(r, c)
    ensures k <= WorstRank(t, c)
  {
    if |t.scores| <= k {
      NothingLeftOut(r, t.scores, k, OrderOf(t), c);
    }
    IdsCounted(r);
    forall d | d in Ids(r) ensures d in Ahead(t, c) + Level(t, c) {
      ListedIff(r, d);
      var j :| 0 <= j < |r| && r[j].id == d;
    }
    SubsetSize(Ids(r), Ahead(t, c) + Level(t, c));
    Disjoint(t, c);
  }

  /** Whatever the order, a list gives a chunk no more than the most and no less than the least. */
  lemma ListScoreRange(r: seq<Hit>, t: Table, k: nat, c: nat)
    requires IsRanking(r, t, k)
    ensures Least(t, k, c) <= ListScore(r, c) <= Most(t, k, c)
  {
    if Listed(r, c) {
      var i :| 0 <= i < |r| && r[i].id == c;
      ListedAtMost(r, t, k, i);
      ListedAtLeast(r, t, k, i);
    } else {
      NotListedScoresZero(r, c);
      if c in t.scores {
        UnlistedBounds(r, t, k, c);
        GainFalls(BestRank(t, c), WorstRank(t, c), k);
      }
    }
  }

  lemma ListedGain(r: seq<Hit>, t: Table, k: nat, i: nat)
    requires IsRanking(r, t, k) && i < |r|
    ensures ListScore(r, r[i].id) == Gain(i, k) && r[i].id in t.scores
  {
    ListScoreAt(r, i);
  }

  lemma ListedAtMost(r: seq<Hit>, t: Table, k: nat, i: nat)
    requires IsRanking(r, t, k) && i < |r|
    ensures ListScore(r, r[i].id) <= Most(t, k, r[i].id)
  {
    ListedGain(r, t, k, i);
    RankBounds(r, t, k, i);
    GainFalls(BestRank(t, r[i].id), i, k);
  }

  lemma ListedAtLeast(r: seq<Hit>, t: Table, k: nat, i: nat)
    requires IsRanking(r, t, k) && i < |r|
    ensures Least(t, k, r[i].id) <= ListScore(r, r[i].id)
  {
    ListedGain(r, t, k, i);
    RankBounds(r, t, k, i);
    GainFalls(i, WorstRank(t, r[i].id), k);
  }

  lemma {:induction false} FusedScoreRange(lists: seq<seq<Hit>>, tables: seq<Table>, k: nat, c: nat)
    requires AreRanked(lists, tables, k)
    ensures Low(tables, k, c) <= FusedScore(lists, c) <= High(tables, k, c)
  {
    if lists != [] {
      var n := |lists| - 1;
      FusedScoreRange(lists[..n], tables[..n], k, c);
      ListScoreRange(lists[n], tables[n], k, c);
    }
  }

  // ---------------------------------------------------------------- both ends are reached

  /** By score, ties by id, but one chunk first (or last) among those it ties with. */
  function Favouring(c: nat, first: bool): (Hit, Hit) -> bool {
    (a: Hit, b: Hit) =>
      a.score > b.score
      || (a.score == b.score
          && if a.id == c && b.id != c then first else if b.id == c && a.id != c then !first else a.id <= b.id)
  }

  lemma FavouringIsOrder(c: nat, first: bool)
    ensures IsRankOrder(Favouring(c, first))
    ensures forall a, b :: Favouring(c, first)(a, b) ==> ByScore(a, b)
  {}

  /** A ranking in which the chunk stands as far ahead, or as far back, as it can. */
  lemma ExtremeRanking(t: Table, k: nat, c: nat, first: bool) returns (r: seq<Hit>)
    ensures IsRanking(r, t, k) && ListScore(r, c) == if first then Most(t, k, c) else Least(t, k, c)
  {
    if t.byId {
      r := SomeRanking(t, k);
      ListScoreRange(r, t, k, c);
      assert c in t.scores ==> Level(t, c) == {};
    } else {
      var xs := SomeEnumeration(t.scores);
      FavouringIsOrder(c, first);
      SortedPrefixIsTopK(xs, t.scores, k, Favouring(c, first));
      r := Truncate(SortHits(xs, Favouring(c, first)), k);
      assert IsRanking(r, t, k);
      ExtremeScore(r, t, k, c, first);
    }
  }

  lemma ExtremeScore(r: seq<Hit>, t: Table, k: nat, c: nat, first: bool)
    requires !t.byId && IsTopK(r, t.scores, k, Favouring(c, first)) && IsRanking(r, t, k)
    ensures ListScore(r, c) == if first then Most(t, k, c) else Least(t, k, c)
  {
    if Listed(r, c) {
      var i :| 0 <= i < |r| && r[i].id == c;
      ExtremeListed(r, t, k, i, first);
    } else {
      NotListedScoresZero(r, c);
      if c in t.scores {
        ExtremeUnlisted(r, t, k, c, first);
      }
    }
  }

  lemma ExtremeListed(r: seq<Hit>, t: Table, k: nat, i: nat, first: bool)
    requires i < |r| && !t.byId && IsTopK(r, t.scores, k, Favouring(r[i].id, first)) && IsRanking(r, t, k)
    ensures ListScore(r, r[i].id) == if first then Most(t, k, r[i].id) else Least(t, k, r[i].id)
  {
    if first {
      FirstAmongLevel(r, t, k, i);
    } else {
      LastAmongLevel(r, t, k, i);
    }
    GainOfRank(r, t, k, i);
  }

  lemma GainOfRank(r: seq<Hit>, t: Table, k: nat, i: nat)
    requires IsRanking(r, t, k) && i < |r|
    ensures r[i].id in t.scores
    ensures i == BestRank(t, r[i].id) ==> ListScore(r, r[i].id) == Most(t, k, r[i].id)
    ensures i == WorstRank(t, r[i].id) ==> ListScore(r, r[i].id) == Least(t, k, r[i].id)
  {
    ListedGain(r, t, k, i);
  }

  lemma FirstAmongLevel(r: seq<Hit>, t: Table, k: nat, i: nat)
    requires i < |r| && !t.byId && IsTopK(r, t.scores, k, Favouring(r[i].id, true)) && IsRanking(r, t, k)
    ensures i == BestRank(t, r[i].id)
  {
    var c := r[i].id;
    RankBounds(r, t, k, i);
    PrefixIds(r, i);
    forall d | d in Ids(r[..i]) ensures d in Ahead(t, c) {
      var j :| 0 <= j < i && r[j].id == d;
      assert Favouring(c, true)(r[j], r[i]);
    }
    SubsetSize(Ids(r[..i]), Ahead(t, c));
  }

  lemma LastAmongLevel(r: seq<Hit>, t: Table, k: nat, i: nat)
    requires i < |r| && !t.byId && IsTopK(r, t.scores, k, Favouring(r[i].id, false)) && IsRanking(r, t, k)
    ensures i == WorstRank(t, r[i].id)
  {
    var c := r[i].id;
    RankBounds(r, t, k, i);
    PrefixIds(r, i);
    forall d | d in Ahead(t, c) + Level(t, c) ensures d in Ids(r[..i]) {
      StandsBefore(r, t, k, i, d);
    }
    SubsetSize(Ahead(t, c) + Level(t, c), Ids(r[..i]));
    Disjoint(t, c);
  }

  lemma StandsBefore(r: seq<Hit>, t: Table, k: nat, i: nat, d: nat)
    requires i < |r| && !t.byId && IsTopK(r, t.scores, k, Favouring(r[i].id, false))
    requires r[i].id in t.scores && d in Ahead(t, r[i].id) + Level(t, r[i].id)
    ensures exists j :: 0 <= j < i && r[j].id == d
  {
    assert !Favouring(r[i].id, false)(r[i], Hit(d, t.scores[d]));
    assert Listed(r, d);
    var j :| 0 <= j < |r| && r[j].id == d;
    assert j < i;
  }

  lemma ExtremeUnlisted(r: seq<Hit>, t: Table, k: nat, c: nat, first: bool)
    requires !t.byId && IsTopK(r, t.scores, k, Favouring(c, first)) && IsRanking(r, t, k) && c in t.scores && !Listed(r, c)
    ensures (if first then Most(t, k, c) else Least(t, k, c)) == 0.0
  {
    UnlistedBounds(r, t, k, c);
    if first {
      if |t.scores| <= k {
        NothingLeftOut(r, t.scores, k, ByScore, c);
      }
      IdsCounted(r);
      forall d | d in Ids(r) ensures d in Ahead(t, c) {
        ListedIff(r, d);
        var j :| 0 <= j < |r| && r[j].id == d;
        assert Favouring(c, first)(r[j], Hit(c, t.scores[c]));
      }
      SubsetSize(Ids(r), Ahead(t, c));
    }
  }

  /** Lists that give the chunk the most, or the least, it can score. */
  lemma {:induction false} ExtremeRankings(tables: seq<Table>, k: nat, c: nat, first: bool) returns (lists: seq<seq<Hit>>)
    ensures AreRanked(lists, tables, k) && FusedScore(lists, c) == if first then High(tables, k, c) else Low(tables, k, c)
  {
    if tables == [] {
      return [];
    }
    var n := |tables| - 1;
    var init := ExtremeRankings(tables[..n], k, c, first);
    var last := ExtremeRanking(tables[n], k, c, first);
    lists := init + [last];
    assert lists[..n] == init;
  }

  // ---------------------------------------------------------------- when the answer is the only one

  /** The score of every hit is fixed. */
  predicate HitsFixed(r: seq<Hit>, tables: seq<Table>, k: nat) {
    forall i :: 0 <= i < |r| ==> Low(tables, k, r[i].id) == High(tables, k, r[i].id)
  }

  /** No chunk that is not listed could get ahead of a hit, or into a list that has room. */
  ghost predicate OthersBehind(r: seq<Hit>, tables: seq<Table>, k: nat) {
    forall c :: !Listed(r, c) && High(tables, k, c) > 0.0 ==> NoRoomFor(r, k, Hit(c, High(tables, k, c)))
  }

  predicate NoRoomFor(r: seq<Hit>, k: nat, h: Hit) {
    |r| == k && forall i :: 0 <= i < |r| ==> ByScoreThenId(r[i], h)
  }

  lemma RankedAreDistinct(lists: seq<seq<Hit>>, tables: seq<Table>, k: nat)
    requires AreRanked(lists, tables, k)
    ensures AllDistinct(lists)
  {}

  lemma FusedIffPositive(lists: seq<seq<Hit>>, tables: seq<Table>, k: nat, c: nat)
    requires AreRanked(lists, tables, k)
    ensures c in FusedIds(lists) <==> FusedScore(lists, c) > 0.0
  {
    RankedAreDistinct(lists, tables, k);
    FusedScoreBound(lists, c);
    if c !in FusedIds(lists) {
      NotFusedScoresZero(lists, c);
    }
  }

  /** A hit scores the same in every other order. */
  lemma HitStays(r: seq<Hit>, xs: seq<seq<Hit>>, ys: seq<seq<Hit>>, tables: seq<Table>, k: nat, i: nat)
    requires AreRanked(xs, tables, k) && AreRanked(ys, tables, k) && IsFusion(r, xs, k) && i < |r|
    requires HitsFixed(r, tables, k)
    ensures r[i].id in FusedIds(ys) && FusedScore(ys, r[i].id) == r[i].score
  {
    var c := r[i].id;
    FusedScoreRange(xs, tables, k, c);
    FusedScoreRange(ys, tables, k, c);
    FusedIffPositive(xs, tables, k, c);
    FusedIffPositive(ys, tables, k, c);
  }

  /** Nobody else gets in. */
  lemma OtherStaysOut(r: seq<Hit>, ys: seq<seq<Hit>>, tables: seq<Table>, k: nat, c: nat)
    requires AreRanked(ys, tables, k) && OthersBehind(r, tables, k) && c in FusedIds(ys) && !Listed(r, c)
    ensures NoRoomFor(r, k, Hit(c, FusedScore(ys, c)))
  {
    FusedIffPositive(ys, tables, k, c);
    FusedScoreRange(ys, tables, k, c);
  }

  lemma StaysTheAnswer(r: seq<Hit>, xs: seq<seq<Hit>>, ys: seq<seq<Hit>>, tables: seq<Table>, k: nat)
    requires AreRanked(xs, tables, k) && AreRanked(ys, tables, k) && IsFusion(r, xs, k)
    requires HitsFixed(r, tables, k) && OthersBehind(r, tables, k)
    ensures IsFusion(r, ys, k)
  {
    var scores := FusedScores(ys);
    forall i | 0 <= i < |r| ensures r[i].id in scores && r[i].score == scores[r[i].id] {
      HitStays(r, xs, ys, tables, k, i);
    }
    forall c, i | c in scores && !Listed(r, c) && 0 <= i < |r| ensures ByScoreThenId(r[i], Hit(c, scores[c])) {
      OtherStaysOut(r, ys, tables, k, c);
    }
    AnswerSize(r, ys, tables, k);
  }

  lemma AnswerSize(r: seq<Hit>, ys: seq<seq<Hit>>, tables: seq<Table>, k: nat)
    requires AreRanked(ys, tables, k) && OthersBehind(r, tables, k) && DistinctIds(r) && |r| <= k
    requires forall i :: 0 <= i < |r| ==> r[i].id in FusedIds(ys)
    ensures |r| == if k < |FusedScores(ys)| then k else |FusedScores(ys)|
  {
    IdsCounted(r);
    assert FusedScores(ys).Keys == FusedIds(ys);
    forall c | c in Ids(r) ensures c in FusedIds(ys) {
      ListedIff(r, c);
    }
    SubsetSize(Ids(r), FusedIds(ys));
    if |r| < k {
      forall c | c in FusedIds(ys) ensures c in Ids(r) {
        ListedIff(r, c);
        if !Listed(r, c) {
          OtherStaysOut(r, ys, tables, k, c);
        }
      }
      SubsetSize(FusedIds(ys), Ids(r));
    }
  }

  lemma OnlyAnswerIsFixed(r: seq<Hit>, tables: seq<Table>, k: nat, i: nat)
    requires |tables| != 1 && OneAnswer(tables, k) && MayAnswer(r, tables, k) && i < |r|
    ensures Low(tables, k, r[i].id) == High(tables, k, r[i].id)
  {
    var c := r[i].id;
    var xs := ExtremeRankings(tables, k, c, true);
    var ys := ExtremeRankings(tables, k, c, false);
    AnswersAre(r, xs, tables, k);
    AnswersAre(r, ys, tables, k);
    assert r[i].score == FusedScores(xs)[c] == FusedScores(ys)[c];
  }

  /** The only answer is the one from any lists. */
  lemma AnswersAre(r: seq<Hit>, lists: seq<seq<Hit>>, tables: seq<Table>, k: nat)
    requires OneAnswer(tables, k) && MayAnswer(r, tables, k) && AreRanked(lists, tables, k)
    ensures IsFused(r, lists, k)
  {
    var s := SomeFused(lists, k);
    assert MayAnswer(s, tables, k);
  }

  lemma OnlyAnswerOutranks(r: seq<Hit>, tables: seq<Table>, k: nat, c: nat)
    requires |tables| != 1 && OneAnswer(tables, k) && MayAnswer(r, tables, k)
    requires !Listed(r, c) && High(tables, k, c) > 0.0
    ensures NoRoomFor(r, k, Hit(c, High(tables, k, c)))
  {
    var xs := ExtremeRankings(tables, k, c, true);
    AnswersAre(r, xs, tables, k);
    FusedIffPositive(xs, tables, k, c);
    UnlistedHasNoRoom(r, FusedScores(xs), k, c);
  }

  lemma UnlistedHasNoRoom(r: seq<Hit>, scores: map<nat, real>, k: nat, c: nat)
    requires IsTopK(r, scores, k, ByScoreThenId) && c in scores && !Listed(r, c)
    ensures NoRoomFor(r, k, Hit(c, scores[c]))
  {
    if |scores| <= k {
      NothingLeftOut(r, scores, k, ByScoreThenId, c);
    }
  }

  /** A fused answer is the only one if and only if what its hits score is fixed and no other chunk can score enough. */
  lemma OnlyAnswerIff(r: seq<Hit>, tables: seq<Table>, k: nat)
    requires |tables| != 1 && MayAnswer(r, tables, k)
    ensures OneAnswer(tables, k) <==> HitsFixed(r, tables, k) && OthersBehind(r, tables, k)
  {
    if OneAnswer(tables, k) {
      forall i | 0 <= i < |r| ensures Low(tables, k, r[i].id) == High(tables, k, r[i].id) {
        OnlyAnswerIsFixed(r, tables, k, i);
      }
      forall c | !Listed(r, c) && High(tables, k, c) > 0.0
        ensures NoRoomFor(r, k, Hit(c, High(tables, k, c)))
      {
        OnlyAnswerOutranks(r, tables, k, c);
      }
    } else if HitsFixed(r, tables, k) && OthersBehind(r, tables, k) {
      forall s | MayAnswer(s, tables, k) ensures s == r {
        FixedIsOnly(r, s, tables, k);
      }
    }
  }

  lemma FixedIsOnly(r: seq<Hit>, s: seq<Hit>, tables: seq<Table>, k: nat)
    requires |tables| != 1 && MayAnswer(r, tables, k) && MayAnswer(s, tables, k)
    requires HitsFixed(r, tables, k) && OthersBehind(r, tables, k)
    ensures s == r
  {
    var xs :| AreRanked(xs, tables, k) && IsFused(r, xs, k);
    var ys :| AreRanked(ys, tables, k) && IsFused(s, ys, k);
    StaysTheAnswer(r, xs, ys, tables, k);
    TopKUnique(r, s, FusedScores(ys), k);
  }

  // ---------------------------------------------------------------- the same, from the tables alone

  predicate AheadOf(a: Hit, b: Hit) {
    a.id != b.id && ByScoreThenId(a, b)
  }

  /** The chunks whose least score puts them ahead of the most that chunk c can score. */
  function Outranking(tables: seq<Table>, k: nat, c: nat): set<nat> {
    set d | d in Scored(tables) && AheadOf(Hit(d, Low(tables, k, d)), Hit(c, High(tables, k, c)))
  }

  /** Every chunk that fewer than k others outrank for sure has a fixed score, if it can score at all. */
  predicate Decided(tables: seq<Table>, k: nat) {
    forall c :: c in Scored(tables) && High(tables, k, c) > 0.0 && |Outranking(tables, k, c)| < k ==> Low(tables, k, c) == High(tables, k, c)
  }

  lemma {:induction false} OnlyScoredScore(tables: seq<Table>, k: nat, c: nat)
    requires c !in Scored(tables)
    ensures Low(tables, k, c) == High(tables, k, c) == 0.0
  {
    if tables != [] {
      OnlyScoredScore(tables[..|tables| - 1], k, c);
    }
  }

  /** A listed hit has fewer than k others ahead of it. */
  lemma FewAhead(r: seq<Hit>, scores: map<nat, real>, k: nat, i: nat, others: set<nat>)
    requires IsTopK(r, scores, k, ByScoreThenId) && i < |r|
    requires forall d :: d in others ==> d in scores && AheadOf(Hit(d, scores[d]), r[i])
    ensures |others| < k
  {
    IdsCounted(r);
    forall d | d in others ensures d in Ids(r) - {r[i].id} {
      assert !ByScoreThenId(r[i], Hit(d, scores[d]));
      assert Listed(r, d);
      ListedIff(r, d);
    }
    ListedIff(r, r[i].id);
    SubsetSize(others, Ids(r) - {r[i].id});
  }

  /** What outranks a chunk for sure does so in every order. */
  lemma OutrankedThere(lists: seq<seq<Hit>>, tables: seq<Table>, k: nat, c: nat, d: nat)
    requires AreRanked(lists, tables, k) && High(tables, k, c) > 0.0 && d in Outranking(tables, k, c)
    ensures d in FusedIds(lists) && AheadOf(Hit(d, FusedScore(lists, d)), Hit(c, High(tables, k, c)))
  {
    FusedScoreRange(lists, tables, k, d);
    FusedIffPositive(lists, tables, k, d);
  }

  /** In a decided table every hit is fixed: an open one would have k chunks ahead of it. */
  lemma DecidedHits(r: seq<Hit>, lists: seq<seq<Hit>>, tables: seq<Table>, k: nat, i: nat)
    requires Decided(tables, k) && AreRanked(lists, tables, k) && IsFusion(r, lists, k) && i < |r|
    ensures Low(tables, k, r[i].id) == High(tables, k, r[i].id)
  {
    var c := r[i].id;
    FusedScoreRange(lists, tables, k, c);
    FusedIffPositive(lists, tables, k, c);
    if c !in Scored(tables) {
      OnlyScoredScore(tables, k, c);
    }
    forall d | d in Outranking(tables, k, c) ensures d in FusedScores(lists) && AheadOf(Hit(d, FusedScores(lists)[d]), r[i]) {
      OutrankedThere(lists, tables, k, c, d);
    }
    FewAhead(r, FusedScores(lists), k, i, Outranking(tables, k, c));
  }

  /** A chunk that k others outrank for sure has no room. */
  lemma OutrankedHasNoRoom(r: seq<Hit>, lists: seq<seq<Hit>>, tables: seq<Table>, k: nat, c: nat)
    requires AreRanked(lists, tables, k) && IsFusion(r, lists, k)
    requires !Listed(r, c) && High(tables, k, c) > 0.0 && |Outranking(tables, k, c)| >= k
    ensures NoRoomFor(r, k, Hit(c, High(tables, k, c)))
  {
    var scores, h := FusedScores(lists), Hit(c, High(tables, k, c));
    forall d | d in Outranking(tables, k, c) ensures d in scores && AheadOf(Hit(d, scores[d]), h) {
      OutrankedThere(lists, tables, k, c, d);
    }
    SubsetSize(Outranking(tables, k, c), scores.Keys);
    assert |scores| == |scores.Keys|;
    forall i | 0 <= i < |r| ensures ByScoreThenId(r[i], h) {
      if !ByScoreThenId(r[i], h) {
        FewAhead(r, scores, k, i, Outranking(tables, k, c));
      }
    }
  }

  lemma DecidedOthers(r: seq<Hit>, lists: seq<seq<Hit>>, tables: seq<Table>, k: nat, c: nat)
    requires Decided(tables, k) && AreRanked(lists, tables, k) && IsFusion(r, lists, k)
    requires !Listed(r, c) && High(tables, k, c) > 0.0
    ensures NoRoomFor(r, k, Hit(c, High(tables, k, c)))
  {
    if c !in Scored(tables) {
      OnlyScoredScore(tables, k, c);
    }
    if |Outranking(tables, k, c)| >= k {
      OutrankedHasNoRoom(r, lists, tables, k, c);
    } else {
      FusedScoreRange(lists, tables, k, c);
      FusedIffPositive(lists, tables, k, c);
      UnlistedHasNoRoom(r, FusedScores(lists), k, c);
    }
  }

  /** If there is one answer, an open chunk is not in it, and all its k hits outrank that chunk for sure. */
  lemma OpenIsOutranked(r: seq<Hit>, tables: seq<Table>, k: nat, c: nat)
    requires |tables| != 1 && MayAnswer(r, tables, k) && HitsFixed(r, tables, k) && OthersBehind(r, tables, k)
    requires High(tables, k, c) > 0.0 && Low(tables, k, c) != High(tables, k, c)
    ensures |Outranking(tables, k, c)| >= k
  {
    var lists :| AreRanked(lists, tables, k) && IsFused(r, lists, k);
    assert !Listed(r, c);
    IdsCounted(r);
    forall d | d in Ids(r) ensures d in Outranking(tables, k, c) {
      ListedIff(r, d);
      var i :| 0 <= i < |r| && r[i].id == d;
      FusedScoreRange(lists, tables, k, d);
      FusedIffPositive(lists, tables, k, d);
      if d !in Scored(tables) {
        OnlyScoredScore(tables, k, d);
      }
    }
    SubsetSize(Ids(r), Outranking(tables, k, c));
  }

  /** Over any tables, there is one fused answer if and only if every chunk that fewer than k others outrank for sure
      scores the same in every order. */
  lemma OneFusedAnswerIff(tables: seq<Table>, k: nat)
    requires |tables| != 1
    ensures OneAnswer(tables, k) <==> Decided(tables, k)
  {
    var lists := SomeRankings(tables, k);
    var r := SomeFused(lists, k);
    assert MayAnswer(r, tables, k);
    OnlyAnswerIff(r, tables, k);
    if Decided(tables, k) {
      forall i | 0 <= i < |r| ensures Low(tables, k, r[i].id) == High(tables, k, r[i].id) {
        DecidedHits(r, lists, tables, k, i);
      }
      forall c | !Listed(r, c) && High(tables, k, c) > 0.0 ensures NoRoomFor(r, k, Hit(c, High(tables, k, c))) {
        DecidedOthers(r, lists, tables, k, c);
      }
    } else if OneAnswer(tables, k) {
      var c :| c in Scored(tables) && High(tables, k, c) > 0.0 && |Outranking(tables, k, c)| < k && Low(tables, k, c) != High(tables, k, c);
      OpenIsOutranked(r, tables, k, c);
    }
  }
}
