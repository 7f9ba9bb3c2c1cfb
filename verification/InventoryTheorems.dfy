/**
 Converging on the declared table: what a pass leaves behind, what it conserves, and
 that another pass finds nothing to do.
 */
module InventoryTheorems {
  import opened Inventory

  function Converged(rows: seq<Row>, desired: seq<Want>, next: nat): (now: seq<Row>)
    ensures |now| >= |rows|
  {
    Met(rows, desired, next, |desired|)
  }

  /** Every position holds what it held, or some want. */
  lemma EachPosition(rows: seq<Row>, desired: seq<Want>, next: nat, n: nat, p: nat)
    returns (j: int)
    requires DistinctWants(desired) && n <= |desired| && p < |Met(rows, desired, next, n)|
    ensures -1 <= j < n
    ensures if j >= 0 then
              Target(rows, desired, j) == p && Met(rows, desired, next, n)[p] == Filling(rows, desired, next, j)
      else p < |rows| && Met(rows, desired, next, n)[p] == rows[p]
  {
    j := -1;
    for i := 0 to n
      invariant -1 <= j < i
      invariant p < |Met(rows, desired, next, i)| ==>
                  if j >= 0 then
                    Target(rows, desired, j) == p && Met(rows, desired, next, i)[p] == Filling(rows, desired, next, j)
                  else p < |rows| && Met(rows, desired, next, i)[p] == rows[p]
    {
      MetStep(rows, desired, next, i);
      if p == Target(rows, desired, i) {
        j := i;
      }
    }
  }

  /** No row is lost and none changes its id; new rows get ids in order. */
  lemma NoRowIsLost(rows: seq<Row>, desired: seq<Want>, next: nat, p: nat)
    requires DistinctWants(desired) && p < |Converged(rows, desired, next)|
    ensures Converged(rows, desired, next)[p].id == if p < |rows| then rows[p].id else next + (p - |rows|)
  {
    var j := EachPosition(rows, desired, next, |desired|, p);
  }

  /** Only what neither an own nor a stray row can cover is created. */
  lemma CreatesWhatIsMissing(rows: seq<Row>, desired: seq<Want>, next: nat)
    ensures |Converged(rows, desired, next)| - |rows| ==
              var missing := Uncovered(rows, desired, |desired|) - |Loose(rows, desired)|;
              if missing > 0 then missing else 0
  {
    MetSize(rows, desired, next, |desired|);
  }

  lemma {:induction false} FirstIs(rows: seq<Row>, f: string, p: nat)
    requires p < |rows| && rows[p].facility == f
    requires forall k | 0 <= k < p :: rows[k].facility != f
    ensures Covered(rows, f) && FirstAt(rows, f) == p
  {
    NoneBeforeFirst(rows, f, p);
  }

  /** Afterwards the oldest row at each declared facility has the declared levels. */
  lemma DeclaredLevelsHold(rows: seq<Row>, desired: seq<Want>, next: nat, k: nat)
    requires DistinctWants(desired) && k < |desired|
    ensures var now, f := Converged(rows, desired, next), desired[k].facility;
      Covered(now, f) && FirstAt(now, f) == Target(rows, desired, k) && now[FirstAt(now, f)].level == desired[k].level
  {
    var now, f, t := Converged(rows, desired, next), desired[k].facility, Target(rows, desired, k);
    MetAtTarget(rows, desired, next, |desired|, k);
    forall p | 0 <= p < t
      ensures now[p].facility != f
    {
      var j := EachPosition(rows, desired, next, |desired|, p);
      if j < 0 && rows[p].facility == f {
        NoneBeforeFirst(rows, f, p);
      }
    }
    FirstIs(now, f, t);
  }

  /** A table whose levels hold already changes nothing, whatever else is there. */
  lemma {:induction false} NothingToDo(rows: seq<Row>, desired: seq<Want>, next: nat, n: nat)
    requires n <= |desired|
    requires forall k | 0 <= k < n ::
               Covered(rows, desired[k].facility) && rows[FirstAt(rows, desired[k].facility)].level == desired[k].level
    ensures Met(rows, desired, next, n) == rows
  {
    if n > 0 {
      NothingToDo(rows, desired, next, n - 1);
    }
  }

  /** A second run writes nothing: no row, no version. */
  lemma SecondRunWritesNothing(rows: seq<Row>, desired: seq<Want>, next: nat, next': nat)
    requires DistinctWants(desired)
    ensures Converged(Converged(rows, desired, next), desired, next') == Converged(rows, desired, next)
  {
    forall k | 0 <= k < |desired|
      ensures var now, f := Converged(rows, desired, next), desired[k].facility;
        Covered(now, f) && now[FirstAt(now, f)].level == desired[k].level
    {
      DeclaredLevelsHold(rows, desired, next, k);
    }
    NothingToDo(Converged(rows, desired, next), desired, next', |desired|);
  }

  // -------------------------------------------------------- conservation

  const NONE := Level(0.0, 0.0)

  function Total(rows: seq<Row>): Level {
    if rows == [] then NONE else Plus(Total(rows[..|rows| - 1]), rows[|rows| - 1].level)
  }

  function Declared(desired: seq<Want>, n: nat): Level
    requires n <= |desired|
  {
    if n == 0 then NONE else Plus(Declared(desired, n - 1), desired[n - 1].level)
  }

  function Taken(rows: seq<Row>, desired: seq<Want>, n: nat): set<nat>
    requires n <= |desired|
  {
    if n == 0 then {} else Taken(rows, desired, n - 1) + {Target(rows, desired, n - 1)}
  }

  /** What the rows outside `taken` hold. */
  function Rest(rows: seq<Row>, taken: set<nat>): Level {
    if rows == [] then NONE
    else
      var n := |rows| - 1;
      Plus(Rest(rows[..n], taken), if n in taken then NONE else rows[n].level)
  }

  lemma {:induction false} TotalAfterUpdate(rows: seq<Row>, p: nat, r: Row)
    requires p < |rows|
    ensures Total(rows[p := r]) == Plus(Minus(Total(rows), rows[p].level), r.level)
  {
    var n := |rows| - 1;
    if p == n {
      assert rows[p := r][..n] == rows[..n];
    } else {
      assert rows[p := r][..n] == rows[..n][p := r];
      TotalAfterUpdate(rows[..n], p, r);
    }
  }

  lemma {:induction false} RestAfterTaking(rows: seq<Row>, taken: set<nat>, p: nat)
    requires p !in taken
    ensures Rest(rows, taken + {p}) == if p < |rows| then Minus(Rest(rows, taken), rows[p].level) else Rest(rows, taken)
  {
    if rows != [] {
      RestAfterTaking(rows[..|rows| - 1], taken, p);
    }
  }

  lemma {:induction false} RestOfNothingTaken(rows: seq<Row>)
    ensures Rest(rows, {}) == Total(rows)
  {
    if rows != [] {
      RestOfNothingTaken(rows[..|rows| - 1]);
    }
  }

  lemma {:induction false} TakenHas(rows: seq<Row>, desired: seq<Want>, n: nat, j: nat)
    requires j < n <= |desired|
    ensures Target(rows, desired, j) in Taken(rows, desired, n)
  {
    if j < n - 1 {
      TakenHas(rows, desired, n - 1, j);
    }
  }

  lemma {:induction false} TakenOnly(rows: seq<Row>, desired: seq<Want>, n: nat, p: nat) returns (j: nat)
    requires n <= |desired| && p in Taken(rows, desired, n)
    ensures j < n && Target(rows, desired, j) == p
  {
    j := n - 1;
    if p != Target(rows, desired, n - 1) {
      j := TakenOnly(rows, desired, n - 1, p);
    }
  }

  lemma NotTakenYet(rows: seq<Row>, desired: seq<Want>, n: nat)
    requires DistinctWants(desired) && n < |desired|
    ensures Target(rows, desired, n) !in Taken(rows, desired, n)
  {
    if Target(rows, desired, n) in Taken(rows, desired, n) {
      var j := TakenOnly(rows, desired, n, Target(rows, desired, n));
      TargetsDiffer(rows, desired, j, n);
    }
  }

  lemma {:induction false} TakenCount(rows: seq<Row>, desired: seq<Want>, n: nat)
    requires DistinctWants(desired) && n <= |desired|
    ensures |Taken(rows, desired, n)| == n
  {
    if n > 0 {
      TakenCount(rows, desired, n - 1);
      NotTakenYet(rows, desired, n - 1);
    }
  }

  lemma TotalAfterStep(rows: seq<Row>, desired: seq<Want>, next: nat, n: nat)
    requires DistinctWants(desired) && n < |desired|
    ensures var t, w := Target(rows, desired, n), desired[n].level;
      Total(Met(rows, desired, next, n + 1)) ==
        Plus(if t < |rows| then Minus(Total(Met(rows, desired, next, n)), rows[t].level)
             else Total(Met(rows, desired, next, n)), w)
  {
    MetStep(rows, desired, next, n);
    UntouchedSoFar(rows, desired, next, n);
    var now, t, x := Met(rows, desired, next, n), Target(rows, desired, n), Filling(rows, desired, next, n);
    assert x.level == desired[n].level;
    if t < |rows| {
      TotalAfterUpdate(now, t, x);
    } else {
      assert (now + [x])[..|now|] == now;
    }
  }

  lemma RestAfterStep(rows: seq<Row>, desired: seq<Want>, n: nat)
    requires DistinctWants(desired) && n < |desired|
    ensures var t, rest := Target(rows, desired, n), Rest(rows, Taken(rows, desired, n));
      Rest(rows, Taken(rows, desired, n + 1)) == if t < |rows| then Minus(rest, rows[t].level) else rest
  {
    NotTakenYet(rows, desired, n);
    RestAfterTaking(rows, Taken(rows, desired, n), Target(rows, desired, n));
  }

  lemma Exchange(declared: Level, rest: Level, gone: Level, w: Level)
    ensures Plus(Minus(Plus(declared, rest), gone), w) == Plus(Plus(declared, w), Minus(rest, gone))
    ensures Plus(Plus(declared, rest), w) == Plus(Plus(declared, w), rest)
  {
  }

  /** Nothing appears or disappears but by the table: the total is what was declared
      plus what rows without a place hold. */
  lemma TotalsAreConserved(rows: seq<Row>, desired: seq<Want>, next: nat, n: nat)
    requires DistinctWants(desired) && n <= |desired|
    ensures Total(Met(rows, desired, next, n)) == Plus(Declared(desired, n), Rest(rows, Taken(rows, desired, n)))
  {
    RestOfNothingTaken(rows);
    for i := 0 to n
      invariant Total(Met(rows, desired, next, i)) == Plus(Declared(desired, i), Rest(rows, Taken(rows, desired, i)))
    {
      TotalAfterStep(rows, desired, next, i);
      RestAfterStep(rows, desired, i);
      var t := Target(rows, desired, i);
      Exchange(Declared(desired, i), Rest(rows, Taken(rows, desired, i)),
               if t < |rows| then rows[t].level else NONE, desired[i].level);
    }
  }

  // ------------------------------------------------- which rows are left

  lemma {:induction false} CountReaches(rows: seq<Row>, desired: seq<Want>, n: nat, u: nat) returns (k: nat)
    requires n <= |desired| && u < Uncovered(rows, desired, n)
    ensures k < n && !Covered(rows, desired[k].facility) && Uncovered(rows, desired, k) == u
  {
    if u < Uncovered(rows, desired, n - 1) {
      k := CountReaches(rows, desired, n - 1, u);
    } else {
      k := n - 1;
    }
  }

  /** Beyond the loose rows that were needed, none is taken. */
  lemma SpareIsNotTaken(rows: seq<Row>, desired: seq<Want>, i: nat)
    requires DistinctWants(desired) && Uncovered(rows, desired, |desired|) <= i < |Loose(rows, desired)|
    ensures Loose(rows, desired)[i] !in Taken(rows, desired, |desired|)
  {
    LooseAscends(rows, desired, |rows|, i, i);
    if Loose(rows, desired)[i] in Taken(rows, desired, |desired|) {
      var k := TakenOnly(rows, desired, |desired|, Loose(rows, desired)[i]);
      TargetKinds(rows, desired, k);
      UncoveredGrows(rows, desired, k, |desired|);
      if Uncovered(rows, desired, k) < i {
        LooseAscends(rows, desired, |rows|, Uncovered(rows, desired, k), i);
      }
    }
  }

  /** Every other row is: a loose one that was needed, or the oldest at its facility. */
  lemma OthersAreTaken(rows: seq<Row>, desired: seq<Want>, p: nat)
    requires DistinctWants(desired) && p < |rows|
    requires forall i | Uncovered(rows, desired, |desired|) <= i < |Loose(rows, desired)| ::
               Loose(rows, desired)[i] != p
    ensures p in Taken(rows, desired, |desired|)
  {
    var k: nat;
    if IsLoose(rows, desired, p) {
      var i := LooseIsComplete(rows, desired, |rows|, p);
      assert Loose(rows, desired)[i] == p;
      k := CountReaches(rows, desired, |desired|, i);
    } else {
      k :| k < |desired| && desired[k].facility == rows[p].facility;
      forall q | 0 <= q < p
        ensures rows[q].facility != rows[p].facility
      {
        assert rows[..p][q] == rows[q];
      }
      FirstIs(rows, rows[p].facility, p);
    }
    TakenHas(rows, desired, |desired|, k);
  }

  /** A row keeps out of the table exactly when it is loose and comes after as many
      loose rows as there are facilities without one. */
  lemma LeftOverExactlyWhen(rows: seq<Row>, desired: seq<Want>, p: nat)
    requires DistinctWants(desired) && p < |rows|
    ensures p in Taken(rows, desired, |desired|) <==>
              forall i | Uncovered(rows, desired, |desired|) <= i < |Loose(rows, desired)| ::
                Loose(rows, desired)[i] != p
  {
    if p in Taken(rows, desired, |desired|) {
      forall i | Uncovered(rows, desired, |desired|) <= i < |Loose(rows, desired)|
        ensures Loose(rows, desired)[i] != p
      {
        SpareIsNotTaken(rows, desired, i);
      }
    } else if forall i | Uncovered(rows, desired, |desired|) <= i < |Loose(rows, desired)| ::
                Loose(rows, desired)[i] != p {
      OthersAreTaken(rows, desired, p);
    }
  }

  lemma {:induction false} RestOfAllTaken(rows: seq<Row>, taken: set<nat>)
    requires forall p | 0 <= p < |rows| :: p in taken
    ensures Rest(rows, taken) == NONE
  {
    if rows != [] {
      RestOfAllTaken(rows[..|rows| - 1], taken);
    }
  }

  lemma {:induction false} UpTo(n: nat) returns (s: set<nat>)
    ensures |s| == n && forall p: nat :: p in s <==> p < n
  {
    if n == 0 {
      s := {};
    } else {
      var smaller := UpTo(n - 1);
      s := smaller + {n - 1};
    }
  }

  lemma SubsetFits(a: set<nat>, b: set<nat>, x: nat)
    requires a <= b && x in b && x !in a
    ensures |a| < |b|
  {
    assert b == a + (b - a);
    assert x in b - a;
  }

  lemma NoneSpare(rows: seq<Row>, desired: seq<Want>)
    requires DistinctWants(desired) && |rows| <= |desired|
    ensures |Loose(rows, desired)| <= Uncovered(rows, desired, |desired|)
  {
    var u, loose := Uncovered(rows, desired, |desired|), Loose(rows, desired);
    if u < |loose| {
      var taken := Taken(rows, desired, |desired|);
      var all := UpTo(|rows|);
      TakenCount(rows, desired, |desired|);
      forall p | p in taken
        ensures p in all
      {
        var k := TakenOnly(rows, desired, |desired|, p);
        TargetKinds(rows, desired, k);
        UncoveredGrows(rows, desired, k, |desired|);
      }
      SpareIsNotTaken(rows, desired, u);
      LooseAscends(rows, desired, |rows|, u, u);
      SubsetFits(taken, all, loose[u]);
    }
  }

  /** Where there were no more rows than facilities, every row finds a place and the
      totals are exactly the declared ones. */
  lemma TotalsAreDeclared(rows: seq<Row>, desired: seq<Want>, next: nat)
    requires DistinctWants(desired) && |rows| <= |desired|
    ensures Total(Converged(rows, desired, next)) == Declared(desired, |desired|)
  {
    NoneSpare(rows, desired);
    forall p | 0 <= p < |rows|
      ensures p in Taken(rows, desired, |desired|)
    {
      OthersAreTaken(rows, desired, p);
    }
    RestOfAllTaken(rows, Taken(rows, desired, |desired|));
    TotalsAreConserved(rows, desired, next, |desired|);
  }

  lemma SameTargetElsewhere(rows: seq<Row>, desired: seq<Want>, next: nat, next': nat, j: nat)
    requires j < |desired|
    ensures var x, y, t := Filling(rows, desired, next, j), Filling(rows, desired, next', j), Target(rows, desired, j);
      if t < |rows| then x == y else y == x.(id := next' + (t - |rows|))
  {
  }

  /** The order in which items are visited only names new rows. */
  lemma OrderOnlyNamesNewRows(rows: seq<Row>, desired: seq<Want>, next: nat, next': nat, p: nat)
    requires DistinctWants(desired) && p < |Converged(rows, desired, next)|
    ensures |Converged(rows, desired, next')| == |Converged(rows, desired, next)|
    ensures var x, y := Converged(rows, desired, next)[p], Converged(rows, desired, next')[p];
      if p < |rows| then x == y else y == x.(id := next' + (p - |rows|))
  {
    MetSize(rows, desired, next, |desired|);
    MetSize(rows, desired, next', |desired|);
    var j := EachPosition(rows, desired, next, |desired|, p);
    if j >= 0 {
      SameTargetElsewhere(rows, desired, next, next', j);
      MetAtTarget(rows, desired, next', |desired|, j);
    } else {
      var j' := EachPosition(rows, desired, next', |desired|, p);
      if j' >= 0 {
        MetAtTarget(rows, desired, next, |desired|, j');
        SameTargetElsewhere(rows, desired, next, next', j');
      }
    }
  }
}
