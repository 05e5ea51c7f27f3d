/** Sparse vectors of term weights, and the dense vectors they stand for. */
module Vectors {
  datatype Entry = Entry(term: nat, weight: real)

  type Dense = seq<real>

  function Dot(a: Dense, b: Dense): real
    requires |a| == |b|
  {
    if a == [] then 0.0 else Dot(a[..|a| - 1], b[..|b| - 1]) + a[|a| - 1] * b[|b| - 1]
  }

  function Times(x: real, y: real): real {
    x * y
  }

  function Scale(a: Dense, f: real): (r: Dense)
    ensures |r| == |a|
  {
    if a == [] then [] else Scale(a[..|a| - 1], f) + [Times(a[|a| - 1], f)]
  }

  lemma {:induction false} ScaleAt(a: Dense, f: real, i: nat)
    requires i < |a|
    ensures Scale(a, f)[i] == Times(a[i], f)
  {
    if i < |a| - 1 {
      ScaleAt(a[..|a| - 1], f, i);
    }
  }

  function Zeros(n: nat): Dense {
    seq(n, _ => 0.0)
  }

  /** The entries are the non-zero coordinates, each once, in some order. */
  ghost predicate Represents(v: seq<Entry>, d: Dense) {
    && (forall i :: 0 <= i < |v| ==> v[i].term < |d| && v[i].weight == d[v[i].term] != 0.0)
    && (forall j: nat :: j < |d| && d[j] != 0.0 ==> multiset(v)[Entry(j, d[j])] == 1)
  }

  lemma PermutedRepresents(v: seq<Entry>, u: seq<Entry>, d: Dense)
    requires Represents(v, d) && multiset(u) == multiset(v)
    ensures Represents(u, d)
  {
    forall i | 0 <= i < |u| ensures u[i].term < |d| && u[i].weight == d[u[i].term] != 0.0 {
      assert u[i] in multiset(v);
      assert u[i] in v;
    }
  }

  lemma {:induction false} DotUpdate(a: Dense, b: Dense, i: nat, x: real)
    requires |a| == |b| && i < |a|
    ensures Dot(a[i := x], b) == Dot(a, b) + (x - a[i]) * b[i]
  {
    var n := |a| - 1;
    if i < n {
      assert a[i := x][..n] == a[..n][i := x];
      DotUpdate(a[..n], b[..n], i, x);
    } else {
      assert a[i := x][..n] == a[..n];
    }
  }

  lemma {:induction false} DotCommutes(a: Dense, b: Dense)
    requires |a| == |b|
    ensures Dot(a, b) == Dot(b, a)
  {
    if a != [] {
      DotCommutes(a[..|a| - 1], b[..|b| - 1]);
    }
  }

  lemma {:induction false} DotZeros(b: Dense)
    ensures Dot(Zeros(|b|), b) == 0.0
  {
    if b != [] {
      var n := |b| - 1;
      assert Zeros(|b|)[..n] == Zeros(n);
      DotZeros(b[..n]);
    }
  }

  lemma {:induction false} DotScale(a: Dense, b: Dense, f: real)
    requires |a| == |b|
    ensures Dot(Scale(a, f), b) == Times(Dot(a, b), f)
  {
    if a != [] {
      var n := |a| - 1;
      assert Scale(a, f)[..n] == Scale(a[..n], f);
      DotScale(a[..n], b[..n], f);
      assert (a[n] * f) * b[n] == (a[n] * b[n]) * f;
    }
  }

  predicate NonNegative(a: Dense) {
    forall i :: 0 <= i < |a| ==> a[i] >= 0.0
  }

  lemma PositiveProduct(x: real, y: real)
    requires x >= 0.0 && y >= 0.0
    ensures x * y > 0.0 <==> x > 0.0 && y > 0.0
  {}

  lemma {:induction false} DotNonNegative(a: Dense, b: Dense)
    requires |a| == |b| && NonNegative(a) && NonNegative(b)
    ensures Dot(a, b) >= 0.0
  {
    if a != [] {
      var n := |a| - 1;
      DotNonNegative(a[..n], b[..n]);
      PositiveProduct(a[n], b[n]);
    }
  }

  lemma {:induction false} DotPositive(a: Dense, b: Dense, i: nat)
    requires |a| == |b| && NonNegative(a) && NonNegative(b)
    requires i < |a| && a[i] > 0.0 && b[i] > 0.0
    ensures Dot(a, b) > 0.0
  {
    var n := |a| - 1;
    PositiveProduct(a[n], b[n]);
    if i < n {
      DotPositive(a[..n], b[..n], i);
    } else {
      DotNonNegative(a[..n], b[..n]);
    }
  }

  lemma {:induction false} PositiveDotMeets(a: Dense, b: Dense) returns (i: nat)
    requires |a| == |b| && NonNegative(a) && NonNegative(b) && Dot(a, b) > 0.0
    ensures i < |a| && a[i] > 0.0 && b[i] > 0.0
  {
    var n := |a| - 1;
    PositiveProduct(a[n], b[n]);
    if a[n] > 0.0 && b[n] > 0.0 {
      return n;
    }
    i := PositiveDotMeets(a[..n], b[..n]);
  }

  /** The Cauchy-Schwarz inequality in the form that needs no square root. */
  lemma {:induction false} TwiceDotBound(a: Dense, b: Dense)
    requires |a| == |b|
    ensures 2.0 * Dot(a, b) <= Dot(a, a) + Dot(b, b)
  {
    if a != [] {
      var n := |a| - 1;
      TwiceDotBound(a[..n], b[..n]);
      var x, y := a[n], b[n];
      assert (x - y) * (x - y) >= 0.0;
      assert (x - y) * (x - y) == x * x - 2.0 * (x * y) + y * y;
    }
  }

  // ---------------------------------------------------------------- sums over the entries

  function Square(x: real): real {
    x * x
  }

  function SquareSum(v: seq<Entry>): real {
    if v == [] then 0.0 else SquareSum(v[..|v| - 1]) + Square(v[|v| - 1].weight)
  }

  /** The scoring loop: entries whose term the query has, times the query weight. */
  function SparseDot(v: seq<Entry>, weights: map<nat, real>): real {
    if v == [] then 0.0
    else
      var e := v[|v| - 1];
      SparseDot(v[..|v| - 1], weights) + (if e.term in weights then Times(e.weight, weights[e.term]) else 0.0)
  }

  /** The map of a sparse vector agrees with the dense one. */
  ghost predicate Tabulates(weights: map<nat, real>, d: Dense) {
    && (forall t :: t in weights ==> t < |d| && weights[t] == d[t])
    && (forall t: nat :: t < |d| && d[t] != 0.0 ==> t in weights)
  }

  /** Without its last entry a sparse vector represents the vector with that coordinate cleared. */
  lemma DropLast(v: seq<Entry>, d: Dense)
    requires Represents(v, d) && v != []
    ensures var e := v[|v| - 1]; Represents(v[..|v| - 1], d[e.term := 0.0])
  {
    var n := |v| - 1;
    var e := v[n];
    var u, d' := v[..n], d[e.term := 0.0];
    assert v == u + [e];
    assert multiset(u)[e] == 0;
    forall i | 0 <= i < |u| ensures u[i].term < |d'| && u[i].weight == d'[u[i].term] != 0.0 {
      assert u[i] == v[i] && u[i] in multiset(u);
      assert u[i] != e;
    }
  }

  lemma ClearedProduct(d: Dense, q: Dense, t: nat)
    requires |d| == |q| && t < |d|
    ensures Dot(d, q) == Dot(d[t := 0.0], q) + Times(d[t], q[t])
    ensures q[t] == 0.0 ==> Times(d[t], q[t]) == 0.0
  {
    DotUpdate(d, q, t, 0.0);
    assert (0.0 - d[t]) * q[t] == -(d[t] * q[t]);
  }

  /** Clearing one coordinate takes its square out. */
  lemma ClearedSquare(d: Dense, t: nat)
    requires t < |d|
    ensures Dot(d, d) == Dot(d[t := 0.0], d[t := 0.0]) + Square(d[t])
  {
    var d' := d[t := 0.0];
    DotUpdate(d, d', t, 0.0);
    DotCommutes(d, d');
    DotUpdate(d, d, t, 0.0);
  }

  lemma {:induction false} SquareSumIsDot(v: seq<Entry>, d: Dense)
    requires Represents(v, d)
    ensures SquareSum(v) == Dot(d, d)
    decreases |v|
  {
    if v == [] {
      assert d == Zeros(|d|);
      DotZeros(d);
    } else {
      var e := v[|v| - 1];
      DropLast(v, d);
      SquareSumIsDot(v[..|v| - 1], d[e.term := 0.0]);
      ClearedSquare(d, e.term);
    }
  }

  lemma {:induction false} SparseDotIsDot(v: seq<Entry>, d: Dense, weights: map<nat, real>, q: Dense)
    requires Represents(v, d) && Tabulates(weights, q) && |d| == |q|
    ensures SparseDot(v, weights) == Dot(d, q)
    decreases |v|
  {
    if v == [] {
      assert d == Zeros(|q|);
      DotZeros(q);
    } else {
      var e := v[|v| - 1];
      DropLast(v, d);
      SparseDotIsDot(v[..|v| - 1], d[e.term := 0.0], weights, q);
      ClearedProduct(d, q, e.term);
    }
  }

  function ScaleEntry(e: Entry, f: real): Entry {
    Entry(e.term, Times(e.weight, f))
  }

  function ScaleEntries(v: seq<Entry>, f: real): (u: seq<Entry>)
    ensures |u| == |v|
  {
    if v == [] then [] else ScaleEntries(v[..|v| - 1], f) + [ScaleEntry(v[|v| - 1], f)]
  }

  lemma {:induction false} ScaleEntriesAt(v: seq<Entry>, f: real, i: nat)
    requires i < |v|
    ensures ScaleEntries(v, f)[i] == ScaleEntry(v[i], f)
  {
    if i < |v| - 1 {
      ScaleEntriesAt(v[..|v| - 1], f, i);
    }
  }

  lemma NonZeroProduct(x: real, f: real)
    requires f != 0.0
    ensures Times(x, f) != 0.0 <==> x != 0.0
  {}

  lemma SameScaled(a: Entry, b: Entry, f: real)
    requires f != 0.0
    ensures ScaleEntry(a, f) == ScaleEntry(b, f) <==> a == b
  {}

  lemma {:induction false} CountScaled(v: seq<Entry>, f: real, e: Entry)
    requires f != 0.0
    ensures multiset(ScaleEntries(v, f))[ScaleEntry(e, f)] == multiset(v)[e]
  {
    if v != [] {
      var n := |v| - 1;
      CountScaled(v[..n], f, e);
      assert v == v[..n] + [v[n]];
      SameScaled(v[n], e, f);
    }
  }

  /** Multiplying every entry scales the vector. */
  lemma ScaledRepresents(v: seq<Entry>, d: Dense, f: real)
    requires Represents(v, d) && f != 0.0
    ensures Represents(ScaleEntries(v, f), Scale(d, f))
  {
    var u, d' := ScaleEntries(v, f), Scale(d, f);
    forall i | 0 <= i < |u| ensures u[i].term < |d'| && u[i].weight == d'[u[i].term] != 0.0 {
      ScaleEntriesAt(v, f, i);
      ScaleAt(d, f, v[i].term);
      NonZeroProduct(v[i].weight, f);
    }
    forall j: nat | j < |d'| && d'[j] != 0.0 ensures multiset(u)[Entry(j, d'[j])] == 1 {
      ScaledOnce(v, d, f, j);
    }
  }

  lemma ScaledOnce(v: seq<Entry>, d: Dense, f: real, j: nat)
    requires Represents(v, d) && f != 0.0 && j < |d| && Scale(d, f)[j] != 0.0
    ensures multiset(ScaleEntries(v, f))[Entry(j, Scale(d, f)[j])] == 1
  {
    ScaleAt(d, f, j);
    NonZeroProduct(d[j], f);
    CountScaled(v, f, Entry(j, d[j]));
    assert ScaleEntry(Entry(j, d[j]), f) == Entry(j, Scale(d, f)[j]);
  }

  // ---------------------------------------------------------------- sorting by term id

  predicate TermsAscend(v: seq<Entry>) {
    forall i, j :: 0 <= i < j < |v| ==> v[i].term <= v[j].term
  }

  function InsertByTerm(e: Entry, v: seq<Entry>): seq<Entry> {
    if v == [] then [e] else if e.term <= v[0].term then [e] + v else [v[0]] + InsertByTerm(e, v[1..])
  }

  function SortByTerm(v: seq<Entry>): seq<Entry> {
    if v == [] then [] else InsertByTerm(v[0], SortByTerm(v[1..]))
  }

  lemma {:induction false} InsertByTermMembers(e: Entry, v: seq<Entry>)
    ensures multiset(InsertByTerm(e, v)) == multiset(v) + multiset{e}
  {
    if v != [] {
      assert v == [v[0]] + v[1..];
      InsertByTermMembers(e, v[1..]);
    }
  }

  lemma {:induction false} InsertByTermAscends(e: Entry, v: seq<Entry>)
    requires TermsAscend(v)
    ensures TermsAscend(InsertByTerm(e, v))
  {
    if v != [] && e.term > v[0].term {
      InsertByTermAscends(e, v[1..]);
      InsertByTermMembers(e, v[1..]);
      var rest := InsertByTerm(e, v[1..]);
      forall j | 0 <= j < |rest| ensures v[0].term <= rest[j].term {
        assert rest[j] in multiset(rest);
        assert rest[j] == e || rest[j] in v[1..];
      }
    }
  }

  lemma {:induction false} SortByTermKeeps(v: seq<Entry>)
    ensures multiset(SortByTerm(v)) == multiset(v) && TermsAscend(SortByTerm(v))
  {
    if v != [] {
      assert v == [v[0]] + v[1..];
      SortByTermKeeps(v[1..]);
      InsertByTermMembers(v[0], SortByTerm(v[1..]));
      InsertByTermAscends(v[0], SortByTerm(v[1..]));
    }
  }
}
