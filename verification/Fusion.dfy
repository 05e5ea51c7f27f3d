/** Reciprocal rank fusion over exact arithmetic. */
module Fusion {
  import opened Ranking

  const RRF_K: real := 60.0

  /** What rank n (from 0) of a list contributes. */
  function Contribution(rank: nat): (r: real)
    ensures 0.0 < r <= 1.0 / 61.0
  {
    1.0 / (RRF_K + rank as real + 1.0)
  }

  // ---------------------------------------------------------------- the score, from the lists alone

  /** The first place is worth 1/61, the next 1/62, and so on. */
  lemma ContributionOfRank(rank: nat)
    ensures Contribution(rank) * (61.0 + rank as real) == 1.0
  {}

  function ListScore(list: seq<Hit>, id: nat): real {
    if list == [] then 0.0
    else ListScore(list[..|list| - 1], id) + (if list[|list| - 1].id == id then Contribution(|list| - 1) else 0.0)
  }

  function FusedScore(lists: seq<seq<Hit>>, id: nat): real {
    if lists == [] then 0.0 else FusedScore(lists[..|lists| - 1], id) + ListScore(lists[|lists| - 1], id)
  }

  function ListIds(list: seq<Hit>): set<nat> {
    set i | 0 <= i < |list| :: list[i].id
  }

  function FusedIds(lists: seq<seq<Hit>>): set<nat> {
    if lists == [] then {} else FusedIds(lists[..|lists| - 1]) + ListIds(lists[|lists| - 1])
  }

  function FusedScores(lists: seq<seq<Hit>>): map<nat, real> {
    map id | id in FusedIds(lists) :: FusedScore(lists, id)
  }

  /** The fused ranking: the unique top k of the fused scores under (score descending, id ascending). */
  ghost predicate IsFusion(r: seq<Hit>, lists: seq<seq<Hit>>, k: nat) {
    IsTopK(r, FusedScores(lists), k, ByScoreThenId)
  }

  // ---------------------------------------------------------------- the implementation

  /** One list into the table of fused scores. */
  method FuseList(list: seq<Hit>, scores0: map<nat, real>) returns (scores: map<nat, real>)
    ensures scores.Keys == scores0.Keys + ListIds(list)
    ensures forall id :: id in scores ==> scores[id] == (if id in scores0 then scores0[id] else 0.0) + ListScore(list, id)
  {
    scores := scores0;
    for rank := 0 to |list|
      invariant scores.Keys == scores0.Keys + ListIds(list[..rank])
      invariant forall id :: id in scores ==> scores[id] == (if id in scores0 then scores0[id] else 0.0) + ListScore(list[..rank], id)
    {
      var id := list[rank].id;
      assert list[..rank + 1][..rank] == list[..rank];
      if id !in scores {
        NotListedScoresZero(list[..rank], id);
      }
      scores := scores[id := (if id in scores then scores[id] else 0.0) + Contribution(rank)];
    }
    assert list[..|list|] == list;
  }

  method RrfFuse(lists: seq<seq<Hit>>, topK: nat) returns (fused: seq<Hit>)
    ensures IsFusion(fused, lists, topK)
  {
    var scores: map<nat, real> := map[];
    for i := 0 to |lists|
      invariant scores.Keys == FusedIds(lists[..i])
      invariant forall id :: id in scores ==> scores[id] == FusedScore(lists[..i], id)
    {
      ghost var before := scores;
      assert lists[..i + 1][..i] == lists[..i];
      scores := FuseList(lists[i], scores);
      forall id | id in scores && id !in before ensures FusedScore(lists[..i], id) == 0.0 {
        NotFusedScoresZero(lists[..i], id);
      }
    }
    assert lists[..|lists|] == lists;
    assert scores == FusedScores(lists);
    var hits := Collect(scores);
    RankOrders();
    SortedPrefixIsTopK(hits, scores, topK, ByScoreThenId);
    fused := Truncate(SortHits(hits, ByScoreThenId), topK);
  }

  lemma {:induction false} NotListedScoresZero(list: seq<Hit>, id: nat)
    requires id !in ListIds(list)
    ensures ListScore(list, id) == 0.0
  {
    if list != [] {
      var n := |list| - 1;
      assert list[n].id in ListIds(list);
      assert forall i :: 0 <= i < n ==> list[..n][i].id == list[i].id;
      NotListedScoresZero(list[..n], id);
    }
  }

  lemma {:induction false} NotFusedScoresZero(lists: seq<seq<Hit>>, id: nat)
    requires id !in FusedIds(lists)
    ensures FusedScore(lists, id) == 0.0
  {
    if lists != [] {
      NotFusedScoresZero(lists[..|lists| - 1], id);
      NotListedScoresZero(lists[|lists| - 1], id);
    }
  }

  // ---------------------------------------------------------------- order does not matter

  lemma {:induction false} FusedAppend(xs: seq<seq<Hit>>, ys: seq<seq<Hit>>, id: nat)
    ensures FusedScore(xs + ys, id) == FusedScore(xs, id) + FusedScore(ys, id)
    ensures FusedIds(xs + ys) == FusedIds(xs) + FusedIds(ys)
  {
    if ys == [] {
      assert xs + ys == xs;
    } else {
      var n := |ys| - 1;
      assert (xs + ys)[..|xs + ys| - 1] == xs + ys[..n];
      FusedAppend(xs, ys[..n], id);
    }
  }

  lemma FusedSingle(list: seq<Hit>, id: nat)
    ensures FusedScore([list], id) == ListScore(list, id) && FusedIds([list]) == ListIds(list)
  {
    assert [list][..0] == [];
  }

  /** Taking one list out of its place takes out what it contributes. */
  lemma FusedWithout(lists: seq<seq<Hit>>, j: nat, id: nat)
    requires j < |lists|
    ensures FusedScore(lists, id) == FusedScore(lists[..j] + lists[j + 1..], id) + ListScore(lists[j], id)
    ensures FusedIds(lists) == FusedIds(lists[..j] + lists[j + 1..]) + ListIds(lists[j])
  {
    var front, back := lists[..j], lists[j + 1..];
    assert lists == front + ([lists[j]] + back);
    FusedAppend(front, [lists[j]] + back, id);
    FusedAppend([lists[j]], back, id);
    FusedAppend(front, back, id);
    FusedSingle(lists[j], id);
    assert FusedScore(lists, id) == FusedScore(front, id) + (ListScore(lists[j], id) + FusedScore(back, id));
  }

  lemma SameWithout(xs: seq<seq<Hit>>, ys: seq<seq<Hit>>, j: nat)
    requires xs != [] && j < |ys| && ys[j] == xs[|xs| - 1] && multiset(xs) == multiset(ys)
    ensures multiset(xs[..|xs| - 1]) == multiset(ys[..j] + ys[j + 1..])
  {
    TakenOut(xs, |xs| - 1);
    assert xs[..|xs| - 1] + xs[|xs| - 1 + 1..] == xs[..|xs| - 1];
    TakenOut(ys, j);
  }

  lemma TakenOut(xs: seq<seq<Hit>>, j: nat)
    requires j < |xs|
    ensures multiset(xs[..j] + xs[j + 1..]) == multiset(xs) - multiset{xs[j]}
  {
    assert xs == (xs[..j] + [xs[j]]) + xs[j + 1..];
    assert multiset(xs) == multiset(xs[..j]) + multiset{xs[j]} + multiset(xs[j + 1..]);
  }

  lemma {:induction false} FusedReorder(xs: seq<seq<Hit>>, ys: seq<seq<Hit>>, id: nat)
    requires multiset(xs) == multiset(ys)
    ensures FusedScore(xs, id) == FusedScore(ys, id) && FusedIds(xs) == FusedIds(ys)
    decreases |xs|
  {
    if xs == [] {
      assert |multiset(ys)| == 0;
    } else {
      var n := |xs| - 1;
      assert xs[n] in multiset(ys);
      var j :| 0 <= j < |ys| && ys[j] == xs[n];
      SameWithout(xs, ys, j);
      FusedReorder(xs[..n], ys[..j] + ys[j + 1..], id);
      FusedWithout(ys, j, id);
    }
  }

  /** Two fusions of the same lists, in whatever order the lists come and the score table is read out, are equal. */
  lemma FusionDependsOnContentsOnly(r: seq<Hit>, s: seq<Hit>, xs: seq<seq<Hit>>, ys: seq<seq<Hit>>, k: nat)
    requires multiset(xs) == multiset(ys) && IsFusion(r, xs, k) && IsFusion(s, ys, k)
    ensures r == s
  {
    forall id ensures FusedScore(xs, id) == FusedScore(ys, id) && FusedIds(xs) == FusedIds(ys) {
      FusedReorder(xs, ys, id);
    }
    assert FusedScores(xs) == FusedScores(ys);
    TopKUnique(r, s, FusedScores(xs), k);
  }

  // ---------------------------------------------------------------- what fusion respects

  lemma {:induction false} ListScoreAt(list: seq<Hit>, rank: nat)
    requires DistinctIds(list) && rank < |list|
    ensures ListScore(list, list[rank].id) == Contribution(rank)
  {
    var n := |list| - 1;
    if rank == n {
      NotListedScoresZero(list[..n], list[n].id);
    } else {
      ListScoreAt(list[..n], rank);
    }
  }

  predicate AllDistinct(lists: seq<seq<Hit>>) {
    forall i :: 0 <= i < |lists| ==> DistinctIds(lists[i])
  }

  predicate RankedAt(list: seq<Hit>, rank: nat, id: nat) {
    rank < |list| && list[rank].id == id
  }

  /** In this list `a` stands before `b`, or `b` does not occur. */
  ghost predicate AheadIn(list: seq<Hit>, a: nat, b: nat) {
    forall j: nat :: RankedAt(list, j, b) ==> exists i: nat :: i < j && RankedAt(list, i, a)
  }

  lemma ContributionFalls(i: nat, j: nat)
    requires i < j
    ensures Contribution(i) > Contribution(j)
  {
    var x, y := RRF_K + i as real + 1.0, RRF_K + j as real + 1.0;
    assert 1.0 / x - 1.0 / y == (y - x) / (x * y);
    assert x * y > 0.0;
  }

  lemma EarlierScoresMore(list: seq<Hit>, i: nat, j: nat)
    requires DistinctIds(list) && i < j < |list|
    ensures ListScore(list, list[i].id) > ListScore(list, list[j].id)
  {
    ListScoreAt(list, i);
    ListScoreAt(list, j);
    ContributionFalls(i, j);
  }

  lemma AheadScoresMore(list: seq<Hit>, a: nat, b: nat)
    requires DistinctIds(list) && AheadIn(list, a, b)
    ensures if b in ListIds(list) then ListScore(list, a) > ListScore(list, b) && a in ListIds(list)
            else ListScore(list, a) >= ListScore(list, b)
  {
    if b in ListIds(list) {
      var j :| 0 <= j < |list| && list[j].id == b;
      assert RankedAt(list, j, b);
      var i: nat :| i < j && RankedAt(list, i, a);
      EarlierScoresMore(list, i, j);
    } else {
      NotListedScoresZero(list, b);
      ListScoreNonNegative(list, a);
    }
  }

  lemma {:induction false} ListScoreNonNegative(list: seq<Hit>, id: nat)
    ensures ListScore(list, id) >= 0.0
  {
    if list != [] {
      ListScoreNonNegative(list[..|list| - 1], id);
    }
  }

  lemma {:induction false} AheadFusesMore(lists: seq<seq<Hit>>, a: nat, b: nat)
    requires AllDistinct(lists) && (forall i :: 0 <= i < |lists| ==> AheadIn(lists[i], a, b))
    ensures FusedScore(lists, a) >= FusedScore(lists, b)
    ensures b in FusedIds(lists) ==> FusedScore(lists, a) > FusedScore(lists, b) && a in FusedIds(lists)
  {
    if lists != [] {
      AheadFusesMore(lists[..|lists| - 1], a, b);
      AheadScoresMore(lists[|lists| - 1], a, b);
    }
  }

  /** A chunk that stands ahead of another wherever the other occurs is ahead of it in the fusion. */
  lemma FusionKeepsUnanimousOrder(r: seq<Hit>, lists: seq<seq<Hit>>, k: nat, a: nat, b: nat, j: nat)
    requires AllDistinct(lists) && (forall i :: 0 <= i < |lists| ==> AheadIn(lists[i], a, b))
    requires IsFusion(r, lists, k) && RankedAt(r, j, b)
    ensures exists i: nat :: i < j && RankedAt(r, i, a)
  {
    AheadFusesMore(lists, a, b);
    assert r[j].score < FusedScores(lists)[a];
    assert Listed(r, a);
    var i :| 0 <= i < |r| && r[i].id == a;
    assert RankedAt(r, i, a);
  }

  lemma {:induction false} ListScoreBound(list: seq<Hit>, id: nat)
    requires DistinctIds(list)
    ensures ListScore(list, id) <= 1.0 / 61.0
    ensures id in ListIds(list) ==> ListScore(list, id) > 0.0
  {
    if rank: nat :| RankedAt(list, rank, id) {
      ListScoreAt(list, rank);
    } else {
      assert id !in ListIds(list) by {
        assert forall i: nat :: i < |list| ==> !RankedAt(list, i, id) ==> list[i].id != id;
      }
      NotListedScoresZero(list, id);
    }
  }

  /** Fused scores are positive and at most one 61st per list. */
  lemma {:induction false} FusedScoreBound(lists: seq<seq<Hit>>, id: nat)
    requires AllDistinct(lists)
    ensures 0.0 <= FusedScore(lists, id) <= |lists| as real / 61.0
    ensures id in FusedIds(lists) ==> FusedScore(lists, id) > 0.0
  {
    if lists != [] {
      FusedScoreBound(lists[..|lists| - 1], id);
      ListScoreBound(lists[|lists| - 1], id);
      ListScoreNonNegative(lists[|lists| - 1], id);
    }
  }
}
