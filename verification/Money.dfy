/**
 Rounding amounts to minor units, and how far rounding each part of a sum can take
 the sum of the rounded parts from the rounded sum. Amounts are exact decimals here.
 */
module Money {
  import opened Wrappers

  /** To the nearest integer, halves away from zero. */
  function Round(x: real): int {
    if x >= 0.0 then (x + 0.5).Floor else -((0.5 - x).Floor)
  }

  function ToMinor(amount: real): int {
    Round(amount * 100.0)
  }

  function Abs(x: real): real {
    if x >= 0.0 then x else -x
  }

  /** Nothing is nearer, and of two equally near the one further from zero is taken. */
  lemma RoundIsNearest(x: real, n: int)
    ensures Abs(Round(x) as real - x) <= 0.5
    ensures Abs(Round(x) as real - x) <= Abs(n as real - x)
    ensures n != Round(x) && Abs(Round(x) as real - x) == Abs(n as real - x) ==> Abs(n as real) < Abs(Round(x) as real)
    ensures Round(-x) == -Round(x)
  {
    if n < Round(x) {
      assert n as real <= Round(x) as real - 1.0;
    } else if n > Round(x) {
      assert n as real >= Round(x) as real + 1.0;
    }
  }

  function Sum(xs: seq<real>): real {
    if xs == [] then 0.0 else Sum(xs[..|xs| - 1]) + xs[|xs| - 1]
  }

  function SumOfMinor(xs: seq<real>): int {
    if xs == [] then 0 else SumOfMinor(xs[..|xs| - 1]) + ToMinor(xs[|xs| - 1])
  }

  lemma {:induction false} PartsDrift(xs: seq<real>)
    ensures Abs(SumOfMinor(xs) as real - Sum(xs) * 100.0) <= |xs| as real / 2.0
  {
    if xs != [] {
      var n := |xs| - 1;
      PartsDrift(xs[..n]);
      RoundIsNearest(xs[n] * 100.0, 0);
      assert Sum(xs) * 100.0 == Sum(xs[..n]) * 100.0 + xs[n] * 100.0;
      assert |xs| as real == n as real + 1.0;
    }
  }

  /** Converting the parts or converting the sum: at most (n + 1) / 2 minor units apart. */
  lemma SumDrift(xs: seq<real>, total: real)
    requires total == Sum(xs)
    ensures -(|xs| + 1) <= 2 * (ToMinor(total) - SumOfMinor(xs)) <= |xs| + 1
  {
    PartsDrift(xs);
    RoundIsNearest(total * 100.0, 0);
    var d := ToMinor(total) - SumOfMinor(xs);
    assert Abs(d as real) <= (|xs| as real + 1.0) / 2.0;
    assert (2 * d) as real == 2.0 * d as real && (|xs| + 1) as real == |xs| as real + 1.0;
  }

  /** A sum of one part is converted exactly; they can only differ from two parts on. */
  lemma OnePartIsExact(x: real)
    ensures ToMinor(Sum([x])) == SumOfMinor([x])
  {
    assert [x][..0] == [];
  }

  // ------------------------------------------------ a project's planned sum

  datatype BudgetLine = BudgetLine(category: string, planned: Option<real>)

  const LIMIT := 0x8000_0000_0000_0000

  /** Amounts beyond what minor units can hold are left out, like malformed ones. */
  predicate Representable(amount: real) {
    -LIMIT < ToMinor(amount) < LIMIT
  }

  function Planned(lines: seq<BudgetLine>, category: string): seq<real> {
    if lines == [] then []
    else
      var l, front := lines[|lines| - 1], Planned(lines[..|lines| - 1], category);
      if l.category == category && l.planned.Some? && Representable(l.planned.value) then front + [l.planned.value]
      else front
  }

  /** Scales each matching line, then sums; close to the scaled sum. */
  method PlannedMinor(lines: seq<BudgetLine>, category: string) returns (m: int)
    ensures m == SumOfMinor(Planned(lines, category))
    ensures var amounts := Planned(lines, category);
      -(|amounts| + 1) <= 2 * (ToMinor(Sum(amounts)) - m) <= |amounts| + 1
  {
    var amounts: seq<int> := [];
    for i := 0 to |lines|
      invariant Total(amounts) == SumOfMinor(Planned(lines[..i], category))
    {
      var l := lines[i];
      assert lines[..i + 1][..i] == lines[..i];
      if l.category != category || l.planned.None? || !Representable(l.planned.value) {
        continue;
      }
      var before := Planned(lines[..i], category);
      assert (before + [l.planned.value])[..|before|] == before;
      assert (amounts + [ToMinor(l.planned.value)])[..|amounts|] == amounts;
      amounts := amounts + [ToMinor(l.planned.value)];
    }
    assert lines[..|lines|] == lines;
    m := 0;
    for i := 0 to |amounts|
      invariant m == Total(amounts[..i])
    {
      assert amounts[..i + 1][..i] == amounts[..i];
      m := m + amounts[i];
    }
    assert amounts[..|amounts|] == amounts;
    SumDrift(Planned(lines, category), Sum(Planned(lines, category)));
  }

  function Total(ns: seq<int>): int {
    if ns == [] then 0 else Total(ns[..|ns| - 1]) + ns[|ns| - 1]
  }
}
