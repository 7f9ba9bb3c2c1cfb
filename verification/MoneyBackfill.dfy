/**
 Converting stored major-unit amounts to minor units, row by row over a whole table:
 order lines carry two such fields, orders one.
 */
module MoneyBackfill {
  import opened Money

  datatype Value = Number(x: real) | Other(text: string)

  type Fields = map<string, Value>

  datatype Record = Record(id: nat, version: nat, fields: Fields)

  const UNIT_PRICE := "unit_price"
  const LINE_TOTAL := "line_total"
  const TOTAL := "total"

  /** One field's verdict: nothing to write, a value to write, or in the way. */
  datatype Decision = Keep | Change(minor: int) | Blocked

  function Evaluate(fields: Fields, field: string, includeWhole: bool): Decision {
    if field !in fields then Keep
    else if fields[field].Other? then Blocked
    else
      var x := fields[field].x;
      if x == 0.0 then Keep
      else if x == x.Floor as real && !includeWhole then Blocked
      else Change(ToMinor(x))
  }

  function Write(fields: Fields, field: string, d: Decision): Fields {
    if d.Change? then fields[field := Number(d.minor as real)] else fields
  }

  datatype Action = Migrate(fields: Fields) | AlreadyDone | Skip

  function LineTransform(fields: Fields, includeWhole: bool): Action {
    var price, total := Evaluate(fields, UNIT_PRICE, includeWhole), Evaluate(fields, LINE_TOTAL, includeWhole);
    if price.Blocked? || total.Blocked? then Skip
    else if price.Keep? && total.Keep? then AlreadyDone
    else Migrate(Write(Write(fields, UNIT_PRICE, price), LINE_TOTAL, total))
  }

  function OrderTransform(fields: Fields, includeWhole: bool): Action {
    match Evaluate(fields, TOTAL, includeWhole)
    case Blocked => Skip
    case Keep => AlreadyDone
    case Change(minor) => Migrate(fields[TOTAL := Number(minor as real)])
  }

  // --------------------------------------------------- what one row becomes

  /** Every one of these fields that is present holds its own minor value now. */
  predicate Converted(before: Fields, after: Fields, money: set<string>) {
    && after.Keys == before.Keys
    && (forall f | f in before ::
          if f in money then before[f].Number? && after[f] == Number(ToMinor(before[f].x) as real)
          else after[f] == before[f])
  }

  lemma ZeroStaysZero()
    ensures ToMinor(0.0) == 0
  {
  }

  /** A line is converted in both of its amounts or not touched at all. */
  lemma LineIsAllOrNothing(fields: Fields, includeWhole: bool)
    ensures var a := LineTransform(fields, includeWhole);
      a.Migrate? ==> Converted(fields, a.fields, {UNIT_PRICE, LINE_TOTAL})
  {
    ZeroStaysZero();
  }

  lemma OrderIsConverted(fields: Fields, includeWhole: bool)
    ensures var a := OrderTransform(fields, includeWhole); a.Migrate? ==> Converted(fields, a.fields, {TOTAL})
  {
  }

  /** What has been converted is whole, so the default mode leaves it alone; forcing
      whole numbers converts it again exactly when an amount is not zero. */
  lemma LineAgain(fields: Fields, includeWhole: bool, again: bool)
    requires LineTransform(fields, includeWhole).Migrate?
    ensures var now := LineTransform(fields, includeWhole).fields;
      LineTransform(now, again).Migrate? <==>
        again && exists f | f in {UNIT_PRICE, LINE_TOTAL} :: f in now && now[f] != Number(0.0)
  {
    LineIsAllOrNothing(fields, includeWhole);
    var now := LineTransform(fields, includeWhole).fields;
    forall f | f in {UNIT_PRICE, LINE_TOTAL} && f in now
      ensures now[f].Number? && now[f].x == now[f].x.Floor as real
    {
    }
    assert UNIT_PRICE in {UNIT_PRICE, LINE_TOTAL} && LINE_TOTAL in {UNIT_PRICE, LINE_TOTAL};
  }

  lemma OrderAgain(fields: Fields, includeWhole: bool, again: bool)
    requires OrderTransform(fields, includeWhole).Migrate?
    ensures var now := OrderTransform(fields, includeWhole).fields;
      OrderTransform(now, again).Migrate? <==> again && now[TOTAL] != Number(0.0)
  {
    var now := OrderTransform(fields, includeWhole).fields;
    assert now[TOTAL].x == now[TOTAL].x.Floor as real;
  }

  // ------------------------------------------------------- the whole table

  /** A transform that never wants to migrate its own result. */
  ghost predicate Settles(transform: Fields -> Action) {
    forall f :: transform(f).Migrate? ==> !transform(transform(f).fields).Migrate?
  }

  predicate Migrates(r: Record, transform: Fields -> Action, validates: Fields -> bool) {
    transform(r.fields).Migrate? && validates(transform(r.fields).fields)
  }

  function Applied(r: Record, transform: Fields -> Action, validates: Fields -> bool): Record {
    if Migrates(r, transform, validates) then Record(r.id, r.version + 1, transform(r.fields).fields) else r
  }

  function AppliedAll(rs: seq<Record>, transform: Fields -> Action, validates: Fields -> bool): seq<Record> {
    seq(|rs|, i requires 0 <= i < |rs| => Applied(rs[i], transform, validates))
  }

  datatype Tally = Tally(migrated: nat, done: nat, skipped: nat)

  function Count(rs: seq<Record>, transform: Fields -> Action, validates: Fields -> bool): Tally {
    if rs == [] then Tally(0, 0, 0)
    else
      var r, t := rs[|rs| - 1], Count(rs[..|rs| - 1], transform, validates);
      if transform(r.fields).AlreadyDone? then t.(done := t.done + 1)
      else if Migrates(r, transform, validates) then t.(migrated := t.migrated + 1)
      else t.(skipped := t.skipped + 1)
  }

  /** The first n records of a table dealt with, the rest as they were. */
  function PartlyApplied(rs: seq<Record>, transform: Fields -> Action, validates: Fields -> bool, n: nat): seq<Record>
    requires n <= |rs|
  {
    AppliedAll(rs[..n], transform, validates) + rs[n..]
  }

  lemma PartlyAppliedNext(rs: seq<Record>, transform: Fields -> Action, validates: Fields -> bool, n: nat)
    requires n < |rs|
    ensures PartlyApplied(rs, transform, validates, n)[n] == rs[n]
    ensures PartlyApplied(rs, transform, validates, n + 1) ==
              PartlyApplied(rs, transform, validates, n)[n := Applied(rs[n], transform, validates)]
  {
  }

  /** A run cut short by the database and a complete one after it amount to one run. */
  lemma RepeatedRunCompletesTheFirst(rs: seq<Record>, transform: Fields -> Action, validates: Fields -> bool, n: nat)
    requires Settles(transform) && n <= |rs|
    ensures AppliedAll(PartlyApplied(rs, transform, validates, n), transform, validates) ==
              AppliedAll(rs, transform, validates)
  {
    var partial := PartlyApplied(rs, transform, validates, n);
    forall i | 0 <= i < |rs|
      ensures Applied(partial[i], transform, validates) == Applied(rs[i], transform, validates)
    {
      if i < n {
        assert partial[i] == Applied(rs[i], transform, validates);
      }
    }
  }

  /** By default, running again changes nothing anywhere in the table. */
  lemma DefaultRunIsIdempotent(rs: seq<Record>, validates: Fields -> bool)
    ensures var lines := (f: Fields) => LineTransform(f, false);
      && Settles(lines)
      && AppliedAll(AppliedAll(rs, lines, validates), lines, validates) == AppliedAll(rs, lines, validates)
    ensures var orders := (f: Fields) => OrderTransform(f, false);
      && Settles(orders)
      && AppliedAll(AppliedAll(rs, orders, validates), orders, validates) == AppliedAll(rs, orders, validates)
  {
    var lines := (f: Fields) => LineTransform(f, false);
    var orders := (f: Fields) => OrderTransform(f, false);
    forall f | lines(f).Migrate?
      ensures !lines(lines(f).fields).Migrate?
    {
      LineAgain(f, false, false);
    }
    forall f | orders(f).Migrate?
      ensures !orders(orders(f).fields).Migrate?
    {
      OrderAgain(f, false, false);
    }
    assert rs[..|rs|] == rs && rs[|rs|..] == [];
    RepeatedRunCompletesTheFirst(rs, lines, validates, |rs|);
    RepeatedRunCompletesTheFirst(rs, orders, validates, |rs|);
    assert AppliedAll(rs, lines, validates) + [] == AppliedAll(rs, lines, validates);
    assert AppliedAll(rs, orders, validates) + [] == AppliedAll(rs, orders, validates);
  }

  // ------------------------------------------------- an order and its lines

  /** Counted as skipped: an amount is in the way, or the result does not validate. */
  predicate HeldBack(r: Record, transform: Fields -> Action, validates: Fields -> bool) {
    var a := transform(r.fields);
    a.Skip? || (a.Migrate? && !validates(a.fields))
  }

  function Lines(includeWhole: bool): Fields -> Action {
    f => LineTransform(f, includeWhole)
  }

  function Orders(includeWhole: bool): Fields -> Action {
    f => OrderTransform(f, includeWhole)
  }

  lemma UnconvertedStays(x: real)
    requires x != 0.0
    ensures ToMinor(x) as real != x
  {
    if x == x.Floor as real {
      assert x * 100.0 == (x.Floor * 100) as real;
    }
  }

  /** A record is in minor units afterwards exactly when it was not held back. */
  lemma LineConvertedExactlyWhen(r: Record, includeWhole: bool, validates: Fields -> bool)
    ensures Converted(r.fields, Applied(r, Lines(includeWhole), validates).fields, {UNIT_PRICE, LINE_TOTAL})
            <==> !HeldBack(r, Lines(includeWhole), validates)
  {
    ZeroStaysZero();
    LineIsAllOrNothing(r.fields, includeWhole);
    forall f | f in r.fields && r.fields[f].Number? && r.fields[f].x != 0.0
      ensures ToMinor(r.fields[f].x) as real != r.fields[f].x
    {
      UnconvertedStays(r.fields[f].x);
    }
  }

  lemma OrderConvertedExactlyWhen(r: Record, includeWhole: bool, validates: Fields -> bool)
    ensures Converted(r.fields, Applied(r, Orders(includeWhole), validates).fields, {TOTAL})
            <==> !HeldBack(r, Orders(includeWhole), validates)
  {
    ZeroStaysZero();
    OrderIsConverted(r.fields, includeWhole);
    if TOTAL in r.fields && r.fields[TOTAL].Number? && r.fields[TOTAL].x != 0.0 {
      UnconvertedStays(r.fields[TOTAL].x);
    }
  }

  /** A missing amount counts as nothing. */
  function Amount(r: Record, field: string): real {
    if field in r.fields && r.fields[field].Number? then r.fields[field].x else 0.0
  }

  function Amounts(rs: seq<Record>, field: string): seq<real> {
    seq(|rs|, i requires 0 <= i < |rs| => Amount(rs[i], field))
  }

  /** What the totals of those lines add up to that were held back, or were not. */
  function SumHeld(lines: seq<Record>, transform: Fields -> Action, validates: Fields -> bool, held: bool): real {
    if lines == [] then 0.0
    else
      var l, before := lines[|lines| - 1], SumHeld(lines[..|lines| - 1], transform, validates, held);
      if HeldBack(l, transform, validates) == held then before + Amount(l, LINE_TOTAL) else before
  }

  /** How many of them were not: each is rounded once. */
  function Roundings(rs: seq<Record>, transform: Fields -> Action, validates: Fields -> bool): (n: nat)
    ensures n <= |rs|
  {
    if rs == [] then 0
    else
      Roundings(rs[..|rs| - 1], transform, validates) + if HeldBack(rs[|rs| - 1], transform, validates) then 0 else 1
  }

  predicate WholeCents(x: real) {
    ToMinor(x) as real == x * 100.0
  }

  /** x is y times a hundred, but for n roundings, and none where amounts are in cents. */
  predicate Rounded(x: real, y: real, n: nat, exact: bool) {
    && -(n as real) <= 2.0 * (x - y) <= n as real
    && (exact ==> x == y)
  }

  lemma RoundedAmount(x: real)
    ensures Rounded(ToMinor(x) as real, x * 100.0, 1, WholeCents(x))
  {
    RoundIsNearest(x * 100.0, 0);
  }

  lemma LineAfter(l: Record, includeWhole: bool, validates: Fields -> bool)
    ensures Amount(Applied(l, Lines(includeWhole), validates), LINE_TOTAL) ==
              if HeldBack(l, Lines(includeWhole), validates) then Amount(l, LINE_TOTAL)
              else ToMinor(Amount(l, LINE_TOTAL)) as real
  {
    ZeroStaysZero();
    LineConvertedExactlyWhen(l, includeWhole, validates);
  }

  lemma OrderAfter(o: Record, includeWhole: bool, validates: Fields -> bool)
    ensures Amount(Applied(o, Orders(includeWhole), validates), TOTAL) ==
              if HeldBack(o, Orders(includeWhole), validates) then Amount(o, TOTAL)
              else ToMinor(Amount(o, TOTAL)) as real
  {
    ZeroStaysZero();
    OrderConvertedExactlyWhen(o, includeWhole, validates);
  }

  predicate AllWholeCents(rs: seq<Record>, field: string) {
    forall i | 0 <= i < |rs| :: WholeCents(Amount(rs[i], field))
  }

  lemma RoundedAdd(x: real, y: real, n: nat, exact: bool, x': real, y': real, n': nat, exact': bool)
    requires Rounded(x, y, n, exact) && Rounded(x', y', n', exact')
    ensures Rounded(x + x', y + y', n + n', exact && exact')
  {
  }

  lemma SumOfAll(lines: seq<Record>, field: string)
    requires lines != []
    ensures var n := |lines| - 1;
      Sum(Amounts(lines, field)) == Sum(Amounts(lines[..n], field)) + Amount(lines[n], field)
  {
    assert Amounts(lines, field)[..|lines| - 1] == Amounts(lines[..|lines| - 1], field);
  }

  /** What the lines add up to afterwards. */
  function SumAfter(lines: seq<Record>, includeWhole: bool, validates: Fields -> bool): real {
    Sum(Amounts(AppliedAll(lines, Lines(includeWhole), validates), LINE_TOTAL))
  }

  lemma SumAfterNext(lines: seq<Record>, includeWhole: bool, validates: Fields -> bool)
    requires lines != []
    ensures var n := |lines| - 1;
      SumAfter(lines, includeWhole, validates) == SumAfter(lines[..n], includeWhole, validates)
        + Amount(Applied(lines[n], Lines(includeWhole), validates), LINE_TOTAL)
  {
    var after, n := AppliedAll(lines, Lines(includeWhole), validates), |lines| - 1;
    SumOfAll(after, LINE_TOTAL);
    assert after[..n] == AppliedAll(lines[..n], Lines(includeWhole), validates);
  }

  lemma {:induction false} HeldOrNot(lines: seq<Record>, transform: Fields -> Action, validates: Fields -> bool)
    ensures Sum(Amounts(lines, LINE_TOTAL)) ==
              SumHeld(lines, transform, validates, true) + SumHeld(lines, transform, validates, false)
  {
    if lines != [] {
      HeldOrNot(lines[..|lines| - 1], transform, validates);
      SumOfAll(lines, LINE_TOTAL);
    }
  }

  /** What was held back counts as it is, the rest a hundredfold. */
  lemma {:induction false} LinesAfter(lines: seq<Record>, includeWhole: bool, validates: Fields -> bool)
    ensures var t := Lines(includeWhole);
      Rounded(SumAfter(lines, includeWhole, validates),
              SumHeld(lines, t, validates, true) + 100.0 * SumHeld(lines, t, validates, false),
              Roundings(lines, t, validates), AllWholeCents(lines, LINE_TOTAL))
  {
    if lines != [] {
      var n, t := |lines| - 1, Lines(includeWhole);
      var front, x := lines[..n], Amount(lines[n], LINE_TOTAL);
      LinesAfter(front, includeWhole, validates);
      SumAfterNext(lines, includeWhole, validates);
      LineAfter(lines[n], includeWhole, validates);
      RoundedAmount(x);
      var heldBack := HeldBack(lines[n], t, validates);
      RoundedAdd(SumAfter(front, includeWhole, validates),
                 SumHeld(front, t, validates, true) + 100.0 * SumHeld(front, t, validates, false),
                 Roundings(front, t, validates), AllWholeCents(front, LINE_TOTAL),
                 if heldBack then x else ToMinor(x) as real, if heldBack then x else x * 100.0,
                 if heldBack then 0 else 1, WholeCents(x));
      assert AllWholeCents(lines, LINE_TOTAL) ==> AllWholeCents(front, LINE_TOTAL) && WholeCents(x);
    }
  }

  /** How far an order's total ends from the sum of its lines' totals. */
  function Drift(order: Record, lines: seq<Record>, includeWhole: bool, validates: Fields -> bool): real {
    Amount(Applied(order, Orders(includeWhole), validates), TOTAL)
    - SumAfter(lines, includeWhole, validates)
  }

  /** How far the records left in the other unit take them apart: the lines held back
      under an order that was converted, or those converted under one held back. */
  function Apart(order: Record, lines: seq<Record>, includeWhole: bool, validates: Fields -> bool): real {
    var heldBack, t := HeldBack(order, Orders(includeWhole), validates), Lines(includeWhole);
    if heldBack then -99.0 * SumHeld(lines, t, validates, false) else 99.0 * SumHeld(lines, t, validates, true)
  }

  function AllRoundings(order: Record, lines: seq<Record>, includeWhole: bool, validates: Fields -> bool): nat {
    Roundings(lines, Lines(includeWhole), validates)
    + if HeldBack(order, Orders(includeWhole), validates) then 0 else 1
  }

  lemma RoundWhole(n: int)
    ensures Round(n as real) == n
  {
  }

  lemma CentsAdd(x: real, y: real)
    requires WholeCents(x) && WholeCents(y)
    ensures WholeCents(x + y)
  {
    var n := ToMinor(x) + ToMinor(y);
    assert (x + y) * 100.0 == x * 100.0 + y * 100.0 == n as real;
    RoundWhole(n);
  }

  lemma {:induction false} SumInCents(lines: seq<Record>)
    requires AllWholeCents(lines, LINE_TOTAL)
    ensures WholeCents(Sum(Amounts(lines, LINE_TOTAL)))
  {
    if lines != [] {
      var n := |lines| - 1;
      SumInCents(lines[..n]);
      assert Amounts(lines, LINE_TOTAL)[..n] == Amounts(lines[..n], LINE_TOTAL);
      CentsAdd(Sum(Amounts(lines[..n], LINE_TOTAL)), Amount(lines[n], LINE_TOTAL));
    }
  }

  /** An order that was the sum of its lines ends as far from them as that, to within half
      a minor unit for each record converted, and exactly where amounts are in cents. */
  lemma DriftIsWhatIsApart(order: Record, lines: seq<Record>, includeWhole: bool, validates: Fields -> bool)
    requires Amount(order, TOTAL) == Sum(Amounts(lines, LINE_TOTAL))
    ensures Rounded(Drift(order, lines, includeWhole, validates), Apart(order, lines, includeWhole, validates),
                    AllRoundings(order, lines, includeWhole, validates), AllWholeCents(lines, LINE_TOTAL))
    ensures AllRoundings(order, lines, includeWhole, validates) <= |lines| + 1
  {
    HeldOrNot(lines, Lines(includeWhole), validates);
    LinesAfter(lines, includeWhole, validates);
    OrderAfter(order, includeWhole, validates);
    RoundedAmount(Amount(order, TOTAL));
    if AllWholeCents(lines, LINE_TOTAL) {
      SumInCents(lines);
    }
  }

  /** So in cents it still is their sum exactly when what was left in the other unit adds
      up to nothing. */
  lemma OrderAddsUpExactlyWhen(order: Record, lines: seq<Record>, includeWhole: bool, validates: Fields -> bool)
    requires Amount(order, TOTAL) == Sum(Amounts(lines, LINE_TOTAL)) && AllWholeCents(lines, LINE_TOTAL)
    ensures Drift(order, lines, includeWhole, validates) == 0.0 <==>
              SumHeld(lines, Lines(includeWhole), validates, !HeldBack(order, Orders(includeWhole), validates)) == 0.0
  {
    DriftIsWhatIsApart(order, lines, includeWhole, validates);
  }

  lemma {:induction false} NothingHeldExactlyWhen(lines: seq<Record>, transform: Fields -> Action,
                                                  validates: Fields -> bool, held: bool)
    requires forall i | 0 <= i < |lines| :: Amount(lines[i], LINE_TOTAL) >= 0.0
    ensures SumHeld(lines, transform, validates, held) >= 0.0
    ensures SumHeld(lines, transform, validates, held) == 0.0 <==>
              forall i | 0 <= i < |lines| && HeldBack(lines[i], transform, validates) == held ::
                Amount(lines[i], LINE_TOTAL) == 0.0
  {
    if lines != [] {
      var n := |lines| - 1;
      NothingHeldExactlyWhen(lines[..n], transform, validates, held);
      assert forall i | 0 <= i < n :: lines[..n][i] == lines[i];
    }
  }

  /** And with no amount negative, exactly when every line that has an amount was held
      back if the order was, and converted if it was. */
  lemma OrderAddsUpWhenAllAgree(order: Record, lines: seq<Record>, includeWhole: bool, validates: Fields -> bool)
    requires Amount(order, TOTAL) == Sum(Amounts(lines, LINE_TOTAL)) && AllWholeCents(lines, LINE_TOTAL)
    requires forall i | 0 <= i < |lines| :: Amount(lines[i], LINE_TOTAL) >= 0.0
    ensures Drift(order, lines, includeWhole, validates) == 0.0 <==>
              forall i | 0 <= i < |lines| && Amount(lines[i], LINE_TOTAL) > 0.0 ::
                HeldBack(lines[i], Lines(includeWhole), validates) == HeldBack(order, Orders(includeWhole), validates)
  {
    var heldBack := HeldBack(order, Orders(includeWhole), validates);
    OrderAddsUpExactlyWhen(order, lines, includeWhole, validates);
    NothingHeldExactlyWhen(lines, Lines(includeWhole), validates, !heldBack);
  }

  lemma {:induction false} NoneHeld(lines: seq<Record>, transform: Fields -> Action, validates: Fields -> bool)
    requires forall l | l in lines :: !HeldBack(l, transform, validates)
    ensures SumHeld(lines, transform, validates, true) == 0.0
  {
    if lines != [] {
      NoneHeld(lines[..|lines| - 1], transform, validates);
    }
  }

  /** For any amounts, an order that was the sum of its lines still is, to within
      (n + 1) / 2 minor units for n lines and exactly for one, if neither it nor a line
      was held back. */
  lemma OrderStillAddsUp(order: Record, lines: seq<Record>, includeWhole: bool, validates: Fields -> bool)
    requires Amount(order, TOTAL) == Sum(Amounts(lines, LINE_TOTAL))
    requires !HeldBack(order, Orders(includeWhole), validates)
    requires forall l | l in lines :: !HeldBack(l, Lines(includeWhole), validates)
    ensures var drift := Drift(order, lines, includeWhole, validates);
      -((|lines| + 1) as real) <= 2.0 * drift <= (|lines| + 1) as real && (|lines| == 1 ==> drift == 0.0)
  {
    DriftIsWhatIsApart(order, lines, includeWhole, validates);
    NoneHeld(lines, Lines(includeWhole), validates);
    if |lines| == 1 {
      OneLine(order, lines[0], includeWhole, validates);
      assert lines == [lines[0]];
    }
  }

  lemma OneLine(order: Record, line: Record, includeWhole: bool, validates: Fields -> bool)
    requires Amount(order, TOTAL) == Sum(Amounts([line], LINE_TOTAL))
    requires !HeldBack(order, Orders(includeWhole), validates) && !HeldBack(line, Lines(includeWhole), validates)
    ensures Drift(order, [line], includeWhole, validates) == 0.0
  {
    LineAfter(line, includeWhole, validates);
    OrderAfter(order, includeWhole, validates);
    OnePartIsExact(Amount(line, LINE_TOTAL));
    assert Amounts([line], LINE_TOTAL) == [Amount(line, LINE_TOTAL)];
    var after := Amounts(AppliedAll([line], Lines(includeWhole), validates), LINE_TOTAL);
    assert after == [ToMinor(Amount(line, LINE_TOTAL)) as real] && after[..0] == [];
    assert [Amount(line, LINE_TOTAL)][..0] == [];
  }

  /** A whole amount is held back by default, so an order of 10.5 with lines of 10 and 0.5
      comes apart: its total is in minor units and one of its lines is not. */
  lemma MixedOrderComesApart(validates: Fields -> bool)
    requires forall f :: validates(f)
    ensures var order := Record(0, 1, map[TOTAL := Number(10.5)]);
      var lines := [Record(1, 1, map[LINE_TOTAL := Number(10.0)]), Record(2, 1, map[LINE_TOTAL := Number(0.5)])];
      && Amount(order, TOTAL) == Sum(Amounts(lines, LINE_TOTAL))
      && HeldBack(lines[0], Lines(false), validates)
      && Applied(order, Orders(false), validates).fields == map[TOTAL := Number(1050.0)]
      && Applied(lines[0], Lines(false), validates).fields == map[LINE_TOTAL := Number(10.0)]
      && Applied(lines[1], Lines(false), validates).fields == map[LINE_TOTAL := Number(50.0)]
  {
    var lines := [Record(1, 1, map[LINE_TOTAL := Number(10.0)]), Record(2, 1, map[LINE_TOTAL := Number(0.5)])];
    var xs := Amounts(lines, LINE_TOTAL);
    assert xs == [10.0, 0.5] && xs[..1] == [10.0] && [10.0][..0] == [];
    assert ToMinor(10.5) == 1050 && ToMinor(0.5) == 50;
  }

  /** One of 10 with lines of 4 and 6 is held back with its lines, and stays their sum. */
  lemma WholeOrderIsLeftAlone(validates: Fields -> bool)
    ensures var order := Record(0, 1, map[TOTAL := Number(10.0)]);
      var lines := [Record(1, 1, map[LINE_TOTAL := Number(4.0)]), Record(2, 1, map[LINE_TOTAL := Number(6.0)])];
      && Applied(order, Orders(false), validates) == order && AppliedAll(lines, Lines(false), validates) == lines
      && Drift(order, lines, false, validates) == 0.0
  {
    var order := Record(0, 1, map[TOTAL := Number(10.0)]);
    var lines := [Record(1, 1, map[LINE_TOTAL := Number(4.0)]), Record(2, 1, map[LINE_TOTAL := Number(6.0)])];
    assert 10.0 == 10.0.Floor as real && 4.0 == 4.0.Floor as real && 6.0 == 6.0.Floor as real;
    assert Applied(order, Orders(false), validates) == order;
    assert AppliedAll(lines, Lines(false), validates) == lines;
    var xs := Amounts(lines, LINE_TOTAL);
    assert xs == [4.0, 6.0] && xs[..1] == [4.0] && [4.0][..0] == [];
    assert Sum(xs) == 10.0;
  }

  class Table {
    var records: seq<Record>

    /** A version-checked write, which the database may refuse. */
    method Update(i: nat, fields: Fields, refuses: bool) returns (ok: bool)
      requires i < |records|
      modifies this
      ensures ok == !refuses
      ensures records == if ok then old(records)[i := Record(old(records)[i].id, old(records)[i].version + 1, fields)]
                         else old(records)
    {
      ok := !refuses;
      if ok {
        records := records[i := Record(records[i].id, records[i].version + 1, fields)];
      }
    }

    /** One run. It stops at the first write refused; a dry run writes nothing and
        tallies what the real run would. */
    method Run(transform: Fields -> Action, validates: Fields -> bool, dryRun: bool, refuses: nat -> bool)
      returns (tally: Tally, stopped: nat)
      modifies this
      ensures stopped <= |old(records)|
      ensures dryRun ==> records == old(records) && stopped == |records|
      ensures !dryRun ==> records == PartlyApplied(old(records), transform, validates, stopped)
      ensures stopped < |old(records)| ==> refuses(stopped) && Migrates(old(records)[stopped], transform, validates)
      ensures tally == Count(old(records)[..stopped], transform, validates)
    {
      var listed := records;
      tally, stopped := Tally(0, 0, 0), 0;
      while stopped < |listed|
        invariant stopped <= |listed| == |records|
        invariant tally == Count(listed[..stopped], transform, validates)
        invariant dryRun ==> records == listed
        invariant !dryRun ==> records == PartlyApplied(listed, transform, validates, stopped)
      {
        PartlyAppliedNext(listed, transform, validates, stopped);
        var r := listed[stopped];
        assert listed[..stopped + 1][..stopped] == listed[..stopped];
        var action := transform(r.fields);
        if action.AlreadyDone? {
          tally := tally.(done := tally.done + 1);
        } else if action.Skip? || !validates(action.fields) {
          tally := tally.(skipped := tally.skipped + 1);
        } else {
          if !dryRun {
            var ok := Update(stopped, action.fields, refuses(stopped));
            if !ok {
              return;
            }
          }
          tally := tally.(migrated := tally.migrated + 1);
        }
        stopped := stopped + 1;
      }
    }
  }
}
