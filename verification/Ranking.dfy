/** Scored hits, the sorts the rankers end with, and what "the top k" means. */
module Ranking {
  datatype Hit = Hit(id: nat, score: real)

  /** Score descending; equal scores in any order. */
  predicate ByScore(a: Hit, b: Hit) {
    a.score >= b.score
  }

  /** Score descending, then chunk id ascending: a total order on hits. */
  predicate ByScoreThenId(a: Hit, b: Hit) {
    a.score > b.score || (a.score == b.score && a.id <= b.id)
  }

  predicate Sorted(xs: seq<Hit>, before: (Hit, Hit) -> bool) {
    forall i, j :: 0 <= i < j < |xs| ==> before(xs[i], xs[j])
  }

  ghost predicate IsRankOrder(before: (Hit, Hit) -> bool) {
    && (forall a, b :: before(a, b) || before(b, a))
    && (forall a, b, c :: before(a, b) && before(b, c) ==> before(a, c))
  }

  lemma RankOrders()
    ensures IsRankOrder(ByScore) && IsRankOrder(ByScoreThenId)
  {}

  function InsertSorted(h: Hit, xs: seq<Hit>, before: (Hit, Hit) -> bool): seq<Hit> {
    if xs == [] then [h] else if before(h, xs[0]) then [h] + xs else [xs[0]] + InsertSorted(h, xs[1..], before)
  }

  /** The library sort: stable, by a total preorder. */
  function SortHits(xs: seq<Hit>, before: (Hit, Hit) -> bool): seq<Hit> {
    if xs == [] then [] else InsertSorted(xs[0], SortHits(xs[1..], before), before)
  }

  lemma {:induction false} InsertMembers(h: Hit, xs: seq<Hit>, before: (Hit, Hit) -> bool)
    ensures multiset(InsertSorted(h, xs, before)) == multiset(xs) + multiset{h}
  {
    if xs != [] {
      assert xs == [xs[0]] + xs[1..];
      InsertMembers(h, xs[1..], before);
    }
  }

  lemma {:induction false} InsertKeeps(h: Hit, xs: seq<Hit>, before: (Hit, Hit) -> bool)
    requires IsRankOrder(before) && Sorted(xs, before)
    ensures Sorted(InsertSorted(h, xs, before), before)
  {
    if xs != [] {
      if before(h, xs[0]) {
        forall j | 0 <= j < |xs| ensures before(h, xs[j]) {}
      } else {
        InsertKeeps(h, xs[1..], before);
        InsertMembers(h, xs[1..], before);
        var rest := InsertSorted(h, xs[1..], before);
        forall j | 0 <= j < |rest| ensures before(xs[0], rest[j]) {
          assert rest[j] in multiset(rest);
          assert rest[j] == h || rest[j] in xs[1..];
        }
      }
    }
  }

  lemma {:induction false} SortKeeps(xs: seq<Hit>, before: (Hit, Hit) -> bool)
    requires IsRankOrder(before)
    ensures var ys := SortHits(xs, before); multiset(ys) == multiset(xs) && |ys| == |xs| && Sorted(ys, before)
  {
    if xs != [] {
      assert xs == [xs[0]] + xs[1..];
      SortKeeps(xs[1..], before);
      InsertKeeps(xs[0], SortHits(xs[1..], before), before);
      InsertMembers(xs[0], SortHits(xs[1..], before), before);
    }
    assert |multiset(SortHits(xs, before))| == |multiset(xs)|;
  }

  // ---------------------------------------------------------------- lists of hits against a table of scores

  /** The list holds each scored id exactly once, with its score, and nothing else. */
  predicate Enumerates(xs: seq<Hit>, scores: map<nat, real>) {
    && (forall i :: 0 <= i < |xs| ==> xs[i].id in scores && xs[i].score == scores[xs[i].id])
    && (forall id :: id in scores ==> multiset(xs)[Hit(id, scores[id])] == 1)
  }

  predicate DistinctIds(xs: seq<Hit>) {
    forall i, j :: 0 <= i < j < |xs| ==> xs[i].id != xs[j].id
  }

  lemma {:induction false} CountAtLeast(xs: seq<Hit>, i: nat, j: nat)
    requires i < j < |xs| && xs[i] == xs[j]
    ensures multiset(xs)[xs[i]] >= 2
  {
    assert xs == xs[..j] + [xs[j]] + xs[j + 1..];
    assert xs[i] in multiset(xs[..j]) by { assert xs[..j][i] == xs[i]; }
  }

  lemma EnumerationIsDistinct(xs: seq<Hit>, scores: map<nat, real>)
    requires Enumerates(xs, scores)
    ensures DistinctIds(xs) && |xs| == |scores|
  {
    forall i, j | 0 <= i < j < |xs| ensures xs[i].id != xs[j].id {
      if xs[i].id == xs[j].id {
        assert xs[i] == Hit(xs[i].id, scores[xs[i].id]);
        CountAtLeast(xs, i, j);
      }
    }
    var ids := set h: Hit | h in multiset(xs) :: h.id;
    assert ids == scores.Keys by {
      forall id | id in scores ensures id in ids {
        assert Hit(id, scores[id]) in multiset(xs);
      }
      forall id | id in ids ensures id in scores {
        var h :| h in multiset(xs) && h.id == id;
        assert h in xs;
      }
    }
    IdsCounted(xs);
    assert |scores| == |scores.Keys|;
  }

  lemma {:induction false} IdsCounted(xs: seq<Hit>)
    requires DistinctIds(xs)
    ensures |set h: Hit | h in multiset(xs) :: h.id| == |xs|
  {
    if xs != [] {
      IdsCounted(xs[..|xs| - 1]);
      NextId(xs);
    }
  }

  lemma NextId(xs: seq<Hit>)
    requires xs != [] && DistinctIds(xs)
    ensures var n := |xs| - 1;
            var small := set h: Hit | h in multiset(xs[..n]) :: h.id;
            (set h: Hit | h in multiset(xs) :: h.id) == small + {xs[n].id} && xs[n].id !in small
  {
    var n := |xs| - 1;
    assert xs == xs[..n] + [xs[n]];
    forall h: Hit | h in multiset(xs[..n]) ensures h.id != xs[n].id {
      assert h in xs[..n];
    }
  }

  lemma PermutedEnumerates(xs: seq<Hit>, ys: seq<Hit>, scores: map<nat, real>)
    requires Enumerates(xs, scores) && multiset(xs) == multiset(ys)
    ensures Enumerates(ys, scores)
  {
    forall i | 0 <= i < |ys| ensures ys[i].id in scores && ys[i].score == scores[ys[i].id] {
      assert ys[i] in multiset(xs);
      assert ys[i] in xs;
    }
  }

  predicate Listed(r: seq<Hit>, id: nat) {
    exists j :: 0 <= j < |r| && r[j].id == id
  }

  /** The k best of the scored ids, in order: nothing left out beats anything listed. */
  ghost predicate IsTopK(r: seq<Hit>, scores: map<nat, real>, k: nat, before: (Hit, Hit) -> bool) {
    && DistinctIds(r)
    && (forall i :: 0 <= i < |r| ==> r[i].id in scores && r[i].score == scores[r[i].id])
    && Sorted(r, before)
    && |r| == (if k < |scores| then k else |scores|)
    && (forall id, i :: id in scores && !Listed(r, id) && 0 <= i < |r| ==> before(r[i], Hit(id, scores[id])))
  }

  /** The best come first: no hit scores less than a later one or than what is left out, and in the finer order the smaller
      id goes first where they score the same. */
  lemma BestFirst(r: seq<Hit>, scores: map<nat, real>, k: nat, before: (Hit, Hit) -> bool, i: nat)
    requires IsTopK(r, scores, k, before) && (before == ByScore || before == ByScoreThenId) && i < |r|
    ensures forall j :: i < j < |r| ==> r[i].score >= r[j].score
    ensures forall c :: c in scores && !Listed(r, c) ==> r[i].score >= scores[c]
    ensures before == ByScoreThenId ==> forall j :: i < j < |r| && r[i].score == r[j].score ==> r[i].id < r[j].id
    ensures before == ByScoreThenId ==> forall c :: c in scores && !Listed(r, c) && r[i].score == scores[c] ==> r[i].id < c
  {}

  /** A top k with room for all of them lists every scored id. */
  lemma NothingLeftOut(r: seq<Hit>, scores: map<nat, real>, k: nat, before: (Hit, Hit) -> bool, id: nat)
    requires IsTopK(r, scores, k, before) && |scores| <= k && id in scores
    ensures Listed(r, id)
  {
    if !Listed(r, id) {
      var more := r + [Hit(id, scores[id])];
      IdsCounted(more);
      var ids := set h: Hit | h in multiset(more) :: h.id;
      forall i | i in ids ensures i in scores {
        var h: Hit :| h in multiset(more) && h.id == i;
        assert h in more;
      }
      SubsetSize(ids, scores.Keys);
    }
  }

  lemma SubsetSize(a: set<nat>, b: set<nat>)
    requires a <= b
    ensures |a| <= |b|
  {
    assert b == a + (b - a);
  }

  /** What one ranker ranks by: a table of scores, and whether it breaks ties by chunk id or leaves them to hash order. */
  datatype Table = Table(scores: map<nat, real>, byId: bool)

  function OrderOf(t: Table): (Hit, Hit) -> bool {
    if t.byId then ByScoreThenId else ByScore
  }

  ghost predicate IsRanking(r: seq<Hit>, t: Table, k: nat) {
    IsTopK(r, t.scores, k, OrderOf(t))
  }

  function Truncate(xs: seq<Hit>, k: nat): seq<Hit> {
    if k < |xs| then xs[..k] else xs
  }

  lemma UnlistedRanksBehind(ys: seq<Hit>, scores: map<nat, real>, k: nat, before: (Hit, Hit) -> bool, id: nat, i: nat)
    requires Enumerates(ys, scores) && Sorted(ys, before)
    requires id in scores && i < |Truncate(ys, k)| && !Listed(Truncate(ys, k), id)
    ensures before(ys[i], Hit(id, scores[id]))
  {}

  lemma SortedEnumerationIsTopK(ys: seq<Hit>, scores: map<nat, real>, k: nat, before: (Hit, Hit) -> bool)
    requires Enumerates(ys, scores) && Sorted(ys, before)
    ensures IsTopK(Truncate(ys, k), scores, k, before)
  {
    EnumerationIsDistinct(ys, scores);
    var r := Truncate(ys, k);
    forall id, i | id in scores && !Listed(r, id) && 0 <= i < |r| ensures before(r[i], Hit(id, scores[id])) {
      UnlistedRanksBehind(ys, scores, k, before, id, i);
    }
  }

  /** Sorting any enumeration and truncating it yields the top k. */
  lemma SortedPrefixIsTopK(xs: seq<Hit>, scores: map<nat, real>, k: nat, before: (Hit, Hit) -> bool)
    requires Enumerates(xs, scores) && IsRankOrder(before)
    ensures IsTopK(Truncate(SortHits(xs, before), k), scores, k, before)
  {
    SortKeeps(xs, before);
    PermutedEnumerates(xs, SortHits(xs, before), scores);
    SortedEnumerationIsTopK(SortHits(xs, before), scores, k, before);
  }

  predicate Agree(r: seq<Hit>, s: seq<Hit>, n: nat)
    requires n <= |r| && n <= |s|
  {
    forall i :: 0 <= i < n ==> r[i] == s[i]
  }

  /** Where two top k's first differ, the one lists something no earlier than the other. */
  lemma FirstDifference(r: seq<Hit>, s: seq<Hit>, scores: map<nat, real>, k: nat, n: nat)
    requires IsTopK(r, scores, k, ByScoreThenId) && IsTopK(s, scores, k, ByScoreThenId)
    requires n < |r| == |s| && Agree(r, s, n)
    ensures ByScoreThenId(s[n], r[n])
  {
    if Listed(s, r[n].id) {
      ListedLater(r, s, scores, k, n);
    }
  }

  lemma ListedLater(r: seq<Hit>, s: seq<Hit>, scores: map<nat, real>, k: nat, n: nat)
    requires IsTopK(r, scores, k, ByScoreThenId) && IsTopK(s, scores, k, ByScoreThenId)
    requires n < |r| == |s| && Agree(r, s, n) && Listed(s, r[n].id)
    ensures ByScoreThenId(s[n], r[n])
  {
    forall j | 0 <= j < n ensures s[j].id != r[n].id {
      assert s[j] == r[j];
    }
    var j :| 0 <= j < |s| && s[j].id == r[n].id;
    assert j >= n;
    SameHit(r, s, scores, k, n, j);
    InOrder(s, scores, k, n, j);
  }

  lemma SameHit(r: seq<Hit>, s: seq<Hit>, scores: map<nat, real>, k: nat, i: nat, j: nat)
    requires IsTopK(r, scores, k, ByScoreThenId) && IsTopK(s, scores, k, ByScoreThenId)
    requires i < |r| && j < |s| && r[i].id == s[j].id
    ensures r[i] == s[j]
  {}

  lemma InOrder(s: seq<Hit>, scores: map<nat, real>, k: nat, i: nat, j: nat)
    requires IsTopK(s, scores, k, ByScoreThenId) && i <= j < |s|
    ensures ByScoreThenId(s[i], s[j])
  {}

  lemma SameLength(r: seq<Hit>, s: seq<Hit>, scores: map<nat, real>, k: nat)
    requires IsTopK(r, scores, k, ByScoreThenId) && IsTopK(s, scores, k, ByScoreThenId)
    ensures |r| == |s|
  {}

  lemma {:induction false} PrefixesAgree(r: seq<Hit>, s: seq<Hit>, scores: map<nat, real>, k: nat, n: nat)
    requires IsTopK(r, scores, k, ByScoreThenId) && IsTopK(s, scores, k, ByScoreThenId)
    requires n <= |r| == |s|
    ensures Agree(r, s, n)
  {
    if n > 0 {
      PrefixesAgree(r, s, scores, k, n - 1);
      FirstDifference(r, s, scores, k, n - 1);
      FirstDifference(s, r, scores, k, n - 1);
      TopKHits(r, s, scores, k, n - 1);
    }
  }

  /** Hits that rank before each other are equal. */
  lemma TopKHits(r: seq<Hit>, s: seq<Hit>, scores: map<nat, real>, k: nat, n: nat)
    requires IsTopK(r, scores, k, ByScoreThenId) && IsTopK(s, scores, k, ByScoreThenId) && n < |r| == |s|
    requires ByScoreThenId(s[n], r[n]) && ByScoreThenId(r[n], s[n])
    ensures r[n] == s[n]
  {}

  /** Under the total order there is only one top k. */
  lemma TopKUnique(r: seq<Hit>, s: seq<Hit>, scores: map<nat, real>, k: nat)
    requires IsTopK(r, scores, k, ByScoreThenId) && IsTopK(s, scores, k, ByScoreThenId)
    ensures r == s
  {
    SameLength(r, s, scores, k);
    PrefixesAgree(r, s, scores, k, |r|);
  }

  /** Reading the score table out in hash order, whatever that order is. */
  method Collect(scores: map<nat, real>) returns (xs: seq<Hit>)
    ensures Enumerates(xs, scores)
  {
    xs := [];
    var left := scores.Keys;
    while left != {}
      invariant left <= scores.Keys
      invariant forall i :: 0 <= i < |xs| ==> xs[i].id in scores && xs[i].id !in left && xs[i].score == scores[xs[i].id]
      invariant forall id :: id in scores ==> multiset(xs)[Hit(id, scores[id])] == if id in left then 0 else 1
    {
      var id :| id in left;
      xs := xs + [Hit(id, scores[id])];
      left := left - {id};
    }
  }

  // ---------------------------------------------------------------- a stable sort of hits that come in id order

  predicate IdsAscend(xs: seq<Hit>) {
    forall i, j :: 0 <= i < j < |xs| ==> xs[i].id < xs[j].id
  }

  predicate AscendBelow(xs: seq<Hit>, n: nat) {
    IdsAscend(xs) && forall i :: 0 <= i < |xs| ==> xs[i].id < n
  }

  lemma AscendNext(xs: seq<Hit>, n: nat, h: Hit)
    requires AscendBelow(xs, n) && h.id == n
    ensures AscendBelow(xs, n + 1) && AscendBelow(xs + [h], n + 1)
  {}

  lemma {:induction false} InsertSame(h: Hit, xs: seq<Hit>)
    requires forall i :: 0 <= i < |xs| ==> h.id < xs[i].id
    ensures InsertSorted(h, xs, ByScore) == InsertSorted(h, xs, ByScoreThenId)
  {
    if xs != [] {
      InsertSame(h, xs[1..]);
    }
  }

  /** A stable sort by score alone then breaks ties by id. */
  lemma {:induction false} StableSortBreaksTiesById(xs: seq<Hit>)
    requires IdsAscend(xs)
    ensures SortHits(xs, ByScore) == SortHits(xs, ByScoreThenId)
  {
    if xs != [] {
      StableSortBreaksTiesById(xs[1..]);
      RankOrders();
      var rest := SortHits(xs[1..], ByScore);
      SortKeeps(xs[1..], ByScore);
      forall i | 0 <= i < |rest| ensures xs[0].id < rest[i].id {
        assert rest[i] in multiset(xs[1..]);
        assert rest[i] in xs[1..];
      }
      InsertSame(xs[0], rest);
    }
  }
}
