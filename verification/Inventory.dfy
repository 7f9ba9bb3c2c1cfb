/**
 Bringing one item's stock rows to a declared table: rows at declared facilities are
 corrected, stray rows are re-pointed at facilities that have none, and only what is
 still missing is created.
 */
module Inventory {
  datatype Level = Level(onHand: real, atp: real)

  datatype Row = Row(id: nat, version: nat, facility: string, level: Level)

  datatype Want = Want(facility: string, level: Level)

  function Plus(a: Level, b: Level): Level {
    Level(a.onHand + b.onHand, a.atp + b.atp)
  }

  function Minus(a: Level, b: Level): Level {
    Level(a.onHand - b.onHand, a.atp - b.atp)
  }

  predicate Declares(desired: seq<Want>, f: string) {
    exists i | 0 <= i < |desired| :: desired[i].facility == f
  }

  predicate DistinctWants(desired: seq<Want>) {
    && (forall i | 0 <= i < |desired| :: desired[i].facility != "")
    && (forall i, j | 0 <= i < j < |desired| :: desired[i].facility != desired[j].facility)
  }

  predicate Covered(rows: seq<Row>, f: string) {
    exists i | 0 <= i < |rows| :: rows[i].facility == f
  }

  /** The oldest row at a facility; rows come oldest first. */
  function FirstAt(rows: seq<Row>, f: string): (i: nat)
    requires Covered(rows, f)
    ensures i < |rows| && rows[i].facility == f
  {
    if rows[0].facility == f then 0
    else
      assert forall k | 0 < k < |rows| :: rows[k] == rows[1..][k - 1];
      FirstAt(rows[1..], f) + 1
  }

  lemma FirstIsNotLoose(rows: seq<Row>, desired: seq<Want>, f: string)
    requires Covered(rows, f) && Declares(desired, f)
    ensures !IsLoose(rows, desired, FirstAt(rows, f))
  {
    var p := FirstAt(rows, f);
    forall k | 0 <= k < p
      ensures rows[..p][k].facility != f
    {
      if rows[k].facility == f {
        NoneBeforeFirst(rows, f, k);
      }
    }
  }

  lemma {:induction false} NoneBeforeFirst(rows: seq<Row>, f: string, k: nat)
    requires k < |rows| && rows[k].facility == f
    ensures FirstAt(rows, f) <= k
  {
    if rows[0].facility != f {
      NoneBeforeFirst(rows[1..], f, k - 1);
    }
  }

  /** A row in nobody's place: at no declared facility, or not the oldest there. */
  predicate IsLoose(rows: seq<Row>, desired: seq<Want>, p: nat)
    requires p < |rows|
  {
    Declares(desired, rows[p].facility) ==> Covered(rows[..p], rows[p].facility)
  }

  /** The positions of loose rows among the first n, oldest first. */
  function LooseBelow(rows: seq<Row>, desired: seq<Want>, n: nat): (l: seq<nat>)
    requires n <= |rows|
  {
    if n == 0 then []
    else
      var l := LooseBelow(rows, desired, n - 1);
      if IsLoose(rows, desired, n - 1) then l + [n - 1] else l
  }

  lemma {:induction false} LooseAscends(rows: seq<Row>, desired: seq<Want>, n: nat, i: nat, j: nat)
    requires n <= |rows| && i <= j < |LooseBelow(rows, desired, n)|
    ensures var l := LooseBelow(rows, desired, n);
      l[j] < n && IsLoose(rows, desired, l[j]) && (i < j ==> l[i] < l[j])
  {
    if n > 0 {
      var l := LooseBelow(rows, desired, n - 1);
      if j < |l| {
        LooseAscends(rows, desired, n - 1, i, j);
      } else if i < |l| {
        LooseAscends(rows, desired, n - 1, i, i);
      }
    }
  }

  lemma {:induction false} LooseIsComplete(rows: seq<Row>, desired: seq<Want>, n: nat, p: nat) returns (i: nat)
    requires p < n <= |rows| && IsLoose(rows, desired, p)
    ensures i < |LooseBelow(rows, desired, n)| && LooseBelow(rows, desired, n)[i] == p
  {
    i := |LooseBelow(rows, desired, n - 1)|;
    if p < n - 1 {
      i := LooseIsComplete(rows, desired, n - 1, p);
    }
  }

  function Loose(rows: seq<Row>, desired: seq<Want>): seq<nat> {
    LooseBelow(rows, desired, |rows|)
  }

  /** How many of the first k wants have no row yet. */
  function Uncovered(rows: seq<Row>, desired: seq<Want>, k: nat): nat
    requires k <= |desired|
  {
    if k == 0 then 0
    else Uncovered(rows, desired, k - 1) + if Covered(rows, desired[k - 1].facility) then 0 else 1
  }

  function Created(rows: seq<Row>, desired: seq<Want>, k: nat): nat
    requires k <= |desired|
  {
    var u, l := Uncovered(rows, desired, k), |Loose(rows, desired)|;
    if u <= l then 0 else u - l
  }

  /** Where the k-th want goes: its own row, the next loose one, or a new one. */
  function Target(rows: seq<Row>, desired: seq<Want>, k: nat): nat
    requires k < |desired|
  {
    var f, u, loose := desired[k].facility, Uncovered(rows, desired, k), Loose(rows, desired);
    if Covered(rows, f) then FirstAt(rows, f)
    else if u < |loose| then loose[u]
    else |rows| + (u - |loose|)
  }

  /** Setting a row that is right already does not touch it. */
  function Put(row: Row, w: Want): Row {
    if row.facility == w.facility && row.level == w.level then row
    else Row(row.id, row.version + 1, w.facility, w.level)
  }

  function Fresh(id: nat, w: Want): Row {
    Row(id, 1, w.facility, w.level)
  }

  function Filling(rows: seq<Row>, desired: seq<Want>, next: nat, k: nat): Row
    requires k < |desired|
  {
    var t := Target(rows, desired, k);
    if t < |rows| then Put(rows[t], desired[k]) else Fresh(next + (t - |rows|), desired[k])
  }

  /** The rows after the first n wants. */
  function Met(rows: seq<Row>, desired: seq<Want>, next: nat, n: nat): (now: seq<Row>)
    requires n <= |desired|
    ensures |now| >= |rows|
  {
    if n == 0 then rows
    else
      var now, t := Met(rows, desired, next, n - 1), Target(rows, desired, n - 1);
      if t < |rows| then now[t := Put(now[t], desired[n - 1])]
      else now + [Fresh(next + (|now| - |rows|), desired[n - 1])]
  }

  lemma {:induction false} UncoveredGrows(rows: seq<Row>, desired: seq<Want>, j: nat, k: nat)
    requires j <= k <= |desired|
    ensures Uncovered(rows, desired, j) <= Uncovered(rows, desired, k)
    ensures j < k && !Covered(rows, desired[j].facility) ==> Uncovered(rows, desired, j) < Uncovered(rows, desired, k)
    decreases k - j
  {
    if j < k {
      UncoveredGrows(rows, desired, j, k - 1);
    }
  }

  /** An existing row's target is a row of its own facility, or a loose one. */
  lemma TargetKinds(rows: seq<Row>, desired: seq<Want>, k: nat)
    requires k < |desired|
    ensures var t, f := Target(rows, desired, k), desired[k].facility;
      if Covered(rows, f) then t < |rows| && rows[t].facility == f && !IsLoose(rows, desired, t)
      else if t < |rows| then IsLoose(rows, desired, t)
      else t == |rows| + Created(rows, desired, k) && Created(rows, desired, k + 1) == Created(rows, desired, k) + 1
    ensures Target(rows, desired, k) < |rows| ==> Created(rows, desired, k + 1) == Created(rows, desired, k)
  {
    var u, loose := Uncovered(rows, desired, k), Loose(rows, desired);
    if Covered(rows, desired[k].facility) {
      assert Declares(desired, desired[k].facility);
      FirstIsNotLoose(rows, desired, desired[k].facility);
    } else if u < |loose| {
      LooseAscends(rows, desired, |rows|, u, u);
    }
  }

  /** No two wants go to the same place. */
  lemma TargetsDiffer(rows: seq<Row>, desired: seq<Want>, j: nat, k: nat)
    requires DistinctWants(desired) && j < k < |desired|
    ensures Target(rows, desired, j) != Target(rows, desired, k)
  {
    TargetKinds(rows, desired, j);
    TargetKinds(rows, desired, k);
    UncoveredGrows(rows, desired, j, k);
    var loose := Loose(rows, desired);
    if !Covered(rows, desired[j].facility) && !Covered(rows, desired[k].facility)
       && Uncovered(rows, desired, k) < |loose| {
      LooseAscends(rows, desired, |rows|, Uncovered(rows, desired, j), Uncovered(rows, desired, k));
    }
  }

  lemma {:induction false} MetSize(rows: seq<Row>, desired: seq<Want>, next: nat, n: nat)
    requires n <= |desired|
    ensures |Met(rows, desired, next, n)| == |rows| + Created(rows, desired, n)
  {
    if n > 0 {
      MetSize(rows, desired, next, n - 1);
      TargetKinds(rows, desired, n - 1);
    }
  }

  /** A position no want went to is as it was. */
  lemma {:induction false} MetElsewhere(rows: seq<Row>, desired: seq<Want>, next: nat, n: nat, p: nat)
    requires n <= |desired| && p < |rows| && forall j | 0 <= j < n :: Target(rows, desired, j) != p
    ensures Met(rows, desired, next, n)[p] == rows[p]
  {
    if n > 0 {
      MetElsewhere(rows, desired, next, n - 1, p);
    }
  }

  lemma UntouchedSoFar(rows: seq<Row>, desired: seq<Want>, next: nat, n: nat)
    requires DistinctWants(desired) && n < |desired|
    ensures var t := Target(rows, desired, n); t < |rows| ==> Met(rows, desired, next, n)[t] == rows[t]
  {
    var t := Target(rows, desired, n);
    if t < |rows| {
      forall i | 0 <= i < n
        ensures Target(rows, desired, i) != t
      {
        TargetsDiffer(rows, desired, i, n);
      }
      MetElsewhere(rows, desired, next, n, t);
    }
  }

  /** One want puts its filling at its target, an existing or the next new row. */
  lemma MetStep(rows: seq<Row>, desired: seq<Want>, next: nat, n: nat)
    requires DistinctWants(desired) && n < |desired|
    ensures var t, now := Target(rows, desired, n), Met(rows, desired, next, n);
      if t < |rows| then Met(rows, desired, next, n + 1) == now[t := Filling(rows, desired, next, n)]
      else t == |now| && Met(rows, desired, next, n + 1) == now + [Filling(rows, desired, next, n)]
  {
    UntouchedSoFar(rows, desired, next, n);
    MetSize(rows, desired, next, n);
    TargetKinds(rows, desired, n);
  }

  /** The position the j-th want went to holds it, after the first n. */
  predicate Keeps(rows: seq<Row>, desired: seq<Want>, next: nat, n: nat, j: nat)
    requires j < |desired| && n <= |desired|
  {
    var now, t := Met(rows, desired, next, n), Target(rows, desired, j);
    t < |now| && now[t] == Filling(rows, desired, next, j)
  }

  lemma KeepsOn(rows: seq<Row>, desired: seq<Want>, next: nat, n: nat, j: nat)
    requires DistinctWants(desired) && j < n < |desired| && Keeps(rows, desired, next, n, j)
    ensures Keeps(rows, desired, next, n + 1, j)
  {
    MetStep(rows, desired, next, n);
    TargetsDiffer(rows, desired, j, n);
  }

  lemma KeepsAtOnce(rows: seq<Row>, desired: seq<Want>, next: nat, j: nat)
    requires DistinctWants(desired) && j < |desired|
    ensures Keeps(rows, desired, next, j + 1, j)
  {
    MetStep(rows, desired, next, j);
  }

  lemma {:induction false} MetAtTarget(rows: seq<Row>, desired: seq<Want>, next: nat, n: nat, j: nat)
    requires DistinctWants(desired) && j < n <= |desired|
    ensures Keeps(rows, desired, next, n, j)
  {
    if n == j + 1 {
      KeepsAtOnce(rows, desired, next, j);
    } else {
      MetAtTarget(rows, desired, next, n - 1, j);
      KeepsOn(rows, desired, next, n - 1, j);
    }
  }
}
