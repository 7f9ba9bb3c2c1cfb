/**
 Stock, receipts and seedings together: what each declared row holds is what the table
 says and what was credited to it, which is what the posted lines add up to until one of
 them is edited.
 */
module InventoryLedger {
  import opened Inventory
  import opened InventoryTheorems
  import opened InventoryReceipts
  import opened InventorySeeder

  /** What a seeding is given, the same every time. */
  datatype Demo = Demo(items: map<string, string>, facilities: map<string, string>, levels: map<string, seq<Entry>>)

  datatype Books = Books(stock: Stock, lines: seq<ReceiptLine>, receipts: map<string, string>)

  /** A seeding that was cut short has reached only some items; a posted line may open
      a row under a new id. */
  datatype Move =
    | NewReceipt(id: string, facility: string)
    | Post(line: ReceiptLine, rowId: nat)
    | EditLine(index: nat, to: ReceiptLine)
    | Reseed(done: set<string>)

  /** What the item's posted lines add up to at a facility. */
  function ReceivedAt(b: Books, item: string, f: string): real {
    Received(b.lines, b.receipts, item, f)
  }

  function Main(demo: Demo): string {
    At(demo.facilities, MAIN)
  }

  /** The items that were reached have converged, the rest are as they were. */
  ghost predicate Reseeds(demo: Demo, b: Books, after: Stock, done: set<string>) {
    forall sku | sku in demo.items ::
      var was, now := RowsOf(b.stock, demo.items[sku]), RowsOf(after, demo.items[sku]);
      if sku in done then
        Seeded(was, now, demo.levels, demo.facilities, sku, ReceivedAt(b, demo.items[sku], Main(demo)))
      else now == was
  }

  /** A receipt line is posted against a receipt with a facility, with a quantity that
      is not negative, and credits stock if it is positive. Editing it later posts
      nothing. */
  ghost predicate Moves(demo: Demo, b: Books, m: Move, b': Books) {
    match m
    case NewReceipt(id, f) =>
      && id !in b.receipts && (forall l | l in b.lines :: l.receipt != id)
      && b' == b.(receipts := b.receipts[id := f])
    case Post(l, rowId) =>
      && l.receipt != "" && At(b.receipts, l.receipt) != "" && l.qty >= 0.0
      && b' == b.(lines := b.lines + [l], stock := Credited(b, l, rowId))
    case EditLine(i, to) =>
      i < |b.lines| && to.qty >= 0.0 && b' == b.(lines := b.lines[i := to])
    case Reseed(done) =>
      b'.lines == b.lines && b'.receipts == b.receipts && Reseeds(demo, b, b'.stock, done)
  }

  function Credited(b: Books, l: ReceiptLine, rowId: nat): Stock {
    if l.qty > 0.0 then
      b.stock[l.item := Credit(RowsOf(b.stock, l.item), At(b.receipts, l.receipt), l.qty, rowId)]
    else b.stock
  }

  /** Whatever the seeder did, and in whatever order, is such a move. */
  lemma SeederReseeds(demo: Demo, b: Books, after: Stock, ok: bool) returns (done: set<string>)
    requires forall sku | sku in demo.items ::
               || Seeded(RowsOf(b.stock, demo.items[sku]), RowsOf(after, demo.items[sku]), demo.levels,
                         demo.facilities, sku, Received(b.lines, b.receipts, demo.items[sku], Main(demo)))
               || (!ok && RowsOf(after, demo.items[sku]) == RowsOf(b.stock, demo.items[sku]))
    ensures Moves(demo, b, Reseed(done), b.(stock := after))
    ensures ok ==> done == demo.items.Keys
  {
    done := set sku | sku in demo.items && Seeded(
                        RowsOf(b.stock, demo.items[sku]), RowsOf(after, demo.items[sku]), demo.levels,
                        demo.facilities, sku, Received(b.lines, b.receipts, demo.items[sku], Main(demo)));
  }

  // --------------------------------------------------------- one declared row

  /** What a seeding of these books folds into the row at this facility. */
  function Folded(demo: Demo, b: Books, item: string, f: string): real {
    var received := ReceivedAt(b, item, f);
    if f == Main(demo) && received > 0.0 then received else 0.0
  }

  /** One entry of one item's table. */
  predicate Declared(demo: Demo, sku: string, k: nat) {
    && WellDeclared(demo.levels, demo.facilities) && sku in demo.items && sku in demo.levels
    && AllSeeded(demo.levels[sku], demo.facilities) && k < |demo.levels[sku]|
  }

  function WantOf(demo: Demo, sku: string, k: nat): Want
    requires Declared(demo, sku, k)
  {
    Table(demo.levels[sku], demo.facilities)[k]
  }

  /** The row holds its declared level and this much more. */
  predicate HoldsExtra(demo: Demo, b: Books, sku: string, k: nat, extra: real)
    requires Declared(demo, sku, k)
  {
    Holds(RowsOf(b.stock, demo.items[sku]), WantOf(demo, sku, k), extra)
  }

  predicate PostedAt(b: Books, m: Move, item: string, f: string) {
    m.Post? && m.line.item == item && At(b.receipts, m.line.receipt) == f && m.line.qty > 0.0
  }

  function CreditOf(b: Books, m: Move, item: string, f: string): (qty: real)
    ensures qty >= 0.0
  {
    if PostedAt(b, m, item, f) then m.line.qty else 0.0
  }

  lemma {:induction false} NewReceiptAddsNothing(lines: seq<ReceiptLine>, receipts: map<string, string>,
                                                 id: string, g: string, item: string, f: string)
    requires forall l | l in lines :: l.receipt != id
    ensures Received(lines, receipts[id := g], item, f) == Received(lines, receipts, item, f)
  {
    if lines != [] {
      NewReceiptAddsNothing(lines[..|lines| - 1], receipts, id, g, item, f);
    }
  }

  /** A seeding leaves the row at its level, with what it folded in. */
  lemma ReseedHolds(demo: Demo, b: Books, done: set<string>, b': Books, sku: string, k: nat)
    requires Declared(demo, sku, k) && Moves(demo, b, Reseed(done), b') && sku in done
    ensures HoldsExtra(demo, b', sku, k, Folded(demo, b, demo.items[sku], WantOf(demo, sku, k).facility))
  {
    var item := demo.items[sku];
    var received := ReceivedAt(b, item, Main(demo));
    var desired := Desired(demo.levels[sku], demo.facilities, received);
    DesiredIsDistinct(demo.levels, demo.facilities, sku, received);
    assert Seeded(RowsOf(b.stock, item), RowsOf(b'.stock, item), demo.levels, demo.facilities, sku, received);
    var next: nat :| ConvergedTo(RowsOf(b.stock, item), RowsOf(b'.stock, item), desired, next);
    DeclaredLevelsHold(RowsOf(b.stock, item), desired, next, k);
  }

  /** Anything else but a seeding that reaches the item adds its credit. */
  lemma OthersCredit(demo: Demo, b: Books, m: Move, b': Books, sku: string, k: nat, extra: real)
    requires Declared(demo, sku, k) && Moves(demo, b, m, b') && HoldsExtra(demo, b, sku, k, extra)
    requires m.Reseed? ==> sku !in m.done
    ensures HoldsExtra(demo, b', sku, k, extra + CreditOf(b, m, demo.items[sku], WantOf(demo, sku, k).facility))
  {
    var w, item := WantOf(demo, sku, k), demo.items[sku];
    if m.Post? && m.line.item == item && m.line.qty > 0.0 {
      CreditHolds(RowsOf(b.stock, item), At(b.receipts, m.line.receipt), m.line.qty, m.rowId, w, extra);
    }
  }

  // ------------------------------------------------------------------- runs

  ghost predicate Run(demo: Demo, bs: seq<Books>, ms: seq<Move>) {
    |bs| == |ms| + 1 && forall i | 0 <= i < |ms| :: Moves(demo, bs[i], ms[i], bs[i + 1])
  }

  /** The j-th move was the last to seed this item. */
  predicate LastSeeded(ms: seq<Move>, j: nat, sku: string) {
    && j < |ms| && ms[j].Reseed? && sku in ms[j].done
    && forall i | j < i < |ms| :: ms[i].Reseed? ==> sku !in ms[i].done
  }

  /** What the item was credited with at a facility from the j-th books on. */
  function Credits(bs: seq<Books>, ms: seq<Move>, j: nat, item: string, f: string): (sum: real)
    requires |bs| == |ms| + 1
    ensures sum >= 0.0
    decreases |ms|
  {
    if |ms| <= j then 0.0
    else
      var n := |ms| - 1;
      Credits(bs[..|ms|], ms[..n], j, item, f) + CreditOf(bs[n], ms[n], item, f)
  }

  /** What edits of posted lines have changed their sum there by. */
  function Edits(bs: seq<Books>, ms: seq<Move>, j: nat, item: string, f: string): real
    requires |bs| == |ms| + 1
    decreases |ms|
  {
    if |ms| <= j then 0.0
    else
      var n := |ms| - 1;
      Edits(bs[..|ms|], ms[..n], j, item, f)
      + if ms[n].EditLine? then ReceivedAt(bs[n + 1], item, f) - ReceivedAt(bs[n], item, f) else 0.0
  }

  /** What the row at a declared facility holds over its level: what the last seeding
      folded in, and the credits since. */
  function Extra(demo: Demo, bs: seq<Books>, ms: seq<Move>, j: nat, item: string, f: string): real
    requires |bs| == |ms| + 1 && j <= |ms|
  {
    Folded(demo, bs[j], item, f) + Credits(bs, ms, j, item, f)
  }

  lemma ExtraNext(demo: Demo, bs: seq<Books>, ms: seq<Move>, j: nat, item: string, f: string)
    requires |bs| == |ms| + 1 && j < |ms|
    ensures var n := |ms| - 1;
      && Extra(demo, bs, ms, j, item, f) ==
         Extra(demo, bs[..|ms|], ms[..n], j, item, f) + CreditOf(bs[n], ms[n], item, f)
      && (j == n ==> Extra(demo, bs[..|ms|], ms[..n], j, item, f) == Folded(demo, bs[n], item, f))
  {
  }

  /** However receipts, posted lines, edits of them and seedings interleave, complete or
      cut short: the row at each declared facility holds its declared level, what the last
      seeding folded in, and what was credited since. */
  lemma {:induction false} RunKeepsReceived(demo: Demo, bs: seq<Books>, ms: seq<Move>, j: nat, sku: string, k: nat)
    requires Run(demo, bs, ms) && LastSeeded(ms, j, sku) && Declared(demo, sku, k)
    ensures HoldsExtra(demo, bs[|ms|], sku, k, Extra(demo, bs, ms, j, demo.items[sku], WantOf(demo, sku, k).facility))
    decreases |ms|
  {
    var n, item, f := |ms| - 1, demo.items[sku], WantOf(demo, sku, k).facility;
    assert Moves(demo, bs[n], ms[n], bs[n + 1]);
    ExtraNext(demo, bs, ms, j, item, f);
    if j == n {
      ReseedHolds(demo, bs[n], ms[n].done, bs[n + 1], sku, k);
    } else {
      RunKeepsReceived(demo, bs[..|ms|], ms[..n], j, sku, k);
      OthersCredit(demo, bs[n], ms[n], bs[n + 1], sku, k, Extra(demo, bs[..|ms|], ms[..n], j, item, f));
    }
  }

  lemma SumMoves(demo: Demo, b: Books, m: Move, b': Books, item: string, f: string)
    requires Moves(demo, b, m, b') && !m.EditLine?
    ensures ReceivedAt(b', item, f) == ReceivedAt(b, item, f) + CreditOf(b, m, item, f)
  {
    match m
    case NewReceipt(id, g) => NewReceiptAddsNothing(b.lines, b.receipts, id, g, item, f);
    case Post(l, _) => PostingAdds(b.lines, l, b.receipts, item, f);
    case Reseed(_) =>
  }

  /** The lines' sum moves by the credits and by the edits. */
  lemma {:induction false} SumsMove(demo: Demo, bs: seq<Books>, ms: seq<Move>, j: nat, item: string, f: string)
    requires Run(demo, bs, ms) && j <= |ms|
    ensures ReceivedAt(bs[|ms|], item, f) ==
              ReceivedAt(bs[j], item, f) + Credits(bs, ms, j, item, f) + Edits(bs, ms, j, item, f)
    decreases |ms|
  {
    if j < |ms| {
      var n := |ms| - 1;
      assert Moves(demo, bs[n], ms[n], bs[n + 1]);
      SumsMove(demo, bs[..|ms|], ms[..n], j, item, f);
      if !ms[n].EditLine? {
        SumMoves(demo, bs[n], ms[n], bs[n + 1], item, f);
      }
    }
  }

  /** So a declared row agrees with the posted lines, holding what was folded in and what
      they have grown by since, exactly when the edits of them cancel out. */
  lemma RowAgreesWithLinesExactlyWhen(demo: Demo, bs: seq<Books>, ms: seq<Move>, j: nat, sku: string, k: nat)
    requires Run(demo, bs, ms) && LastSeeded(ms, j, sku) && Declared(demo, sku, k)
    ensures var item, f := demo.items[sku], WantOf(demo, sku, k).facility;
      var grown := ReceivedAt(bs[|ms|], item, f) - ReceivedAt(bs[j], item, f);
      HoldsExtra(demo, bs[|ms|], sku, k, Folded(demo, bs[j], item, f) + grown) <==> Edits(bs, ms, j, item, f) == 0.0
  {
    RunKeepsReceived(demo, bs, ms, j, sku, k);
    SumsMove(demo, bs, ms, j, demo.items[sku], WantOf(demo, sku, k).facility);
  }

  predicate Outstanding(bs: seq<Books>, ms: seq<Move>, j: nat, item: string, f: string)
    requires |bs| == |ms| + 1
  {
    exists i | j <= i < |ms| :: PostedAt(bs[i], ms[i], item, f)
  }

  /** Nothing is credited exactly while nothing is posted there. */
  lemma {:induction false} NothingReceivedExactlyWhen(bs: seq<Books>, ms: seq<Move>, j: nat, item: string, f: string)
    requires |bs| == |ms| + 1 && j <= |ms|
    ensures Credits(bs, ms, j, item, f) == 0.0 <==> !Outstanding(bs, ms, j, item, f)
    decreases |ms|
  {
    if j < |ms| {
      var n := |ms| - 1;
      NothingReceivedExactlyWhen(bs[..|ms|], ms[..n], j, item, f);
      assert forall i | j <= i < n :: ms[..n][i] == ms[i] && bs[..|ms|][i] == bs[i];
      if Outstanding(bs[..|ms|], ms[..n], j, item, f) {
        var i :| j <= i < n && PostedAt(bs[..|ms|][i], ms[..n][i], item, f);
        assert PostedAt(bs[i], ms[i], item, f);
      }
    }
  }

  /** A seeding would leave a declared row as it is. */
  predicate Settles(demo: Demo, bs: seq<Books>, ms: seq<Move>, j: nat, item: string, f: string)
    requires |bs| == |ms| + 1 && j <= |ms|
  {
    if f == Main(demo) then Extra(demo, bs, ms, j, item, f) == Folded(demo, bs[|ms|], item, f)
    else !Outstanding(bs, ms, j, item, f)
  }

  /** For the main one, as long as no sum is negative, that is: no edit moved the sum. */
  lemma MainSettlesExactlyWhen(demo: Demo, bs: seq<Books>, ms: seq<Move>, j: nat, item: string)
    requires Run(demo, bs, ms) && j <= |ms|
    requires ReceivedAt(bs[j], item, Main(demo)) >= 0.0 && ReceivedAt(bs[|ms|], item, Main(demo)) >= 0.0
    ensures Settles(demo, bs, ms, j, item, Main(demo)) <==> Edits(bs, ms, j, item, Main(demo)) == 0.0
  {
    SumsMove(demo, bs, ms, j, item, Main(demo));
  }

  /** What a seeding would make of one declared row is what it holds already. */
  lemma RowIsRightExactlyWhen(demo: Demo, bs: seq<Books>, ms: seq<Move>, j: nat, sku: string, k: nat)
    requires Run(demo, bs, ms) && LastSeeded(ms, j, sku) && Declared(demo, sku, k)
    ensures var now, item, f := bs[|ms|], demo.items[sku], WantOf(demo, sku, k).facility;
      var want := Desired(demo.levels[sku], demo.facilities, ReceivedAt(now, item, Main(demo)))[k];
      && Covered(RowsOf(now.stock, item), f)
      && (RowsOf(now.stock, item)[FirstAt(RowsOf(now.stock, item), f)].level == want.level <==>
          Settles(demo, bs, ms, j, item, f))
  {
    RunKeepsReceived(demo, bs, ms, j, sku, k);
    NothingReceivedExactlyWhen(bs, ms, j, demo.items[sku], WantOf(demo, sku, k).facility);
  }

  /** Seeding again writes nothing to an item exactly when, since it was last seeded,
      nothing of it was posted at another declared facility, and at the main one no edit
      has moved the sum of its lines. */
  lemma ReseedIsQuietExactlyWhen(demo: Demo, bs: seq<Books>, ms: seq<Move>, j: nat, sku: string, next: nat)
    requires Run(demo, bs, ms) && LastSeeded(ms, j, sku)
    requires WellDeclared(demo.levels, demo.facilities) && sku in demo.items && sku in demo.levels
    requires AllSeeded(demo.levels[sku], demo.facilities)
    ensures var now, item := bs[|ms|], demo.items[sku];
      var desired := Desired(demo.levels[sku], demo.facilities, ReceivedAt(now, item, Main(demo)));
      ConvergedTo(RowsOf(now.stock, item), RowsOf(now.stock, item), desired, next) <==>
        forall k | 0 <= k < |desired| :: Settles(demo, bs, ms, j, item, desired[k].facility)
  {
    var now, item := bs[|ms|], demo.items[sku];
    var rows, received := RowsOf(now.stock, item), ReceivedAt(now, item, Main(demo));
    var desired := Desired(demo.levels[sku], demo.facilities, received);
    DesiredIsDistinct(demo.levels, demo.facilities, sku, received);
    forall k: nat | k < |desired|
      ensures Covered(rows, desired[k].facility)
      ensures rows[FirstAt(rows, desired[k].facility)].level == desired[k].level <==>
                Settles(demo, bs, ms, j, item, desired[k].facility)
    {
      assert Declared(demo, sku, k);
      RowIsRightExactlyWhen(demo, bs, ms, j, sku, k);
    }
    if k :| 0 <= k < |desired| && !Settles(demo, bs, ms, j, item, desired[k].facility) {
      DeclaredLevelsHold(rows, desired, next, k);
    } else {
      NothingToDo(rows, desired, next, |desired|);
    }
  }

  /** For instance: one item at two facilities, seeded, and five received at the other one. */
  function TwoFacilities(): Demo {
    Demo(map["sku" := "item"], map["MAIN" := "main", "EAST" := "east"],
         map["sku" := [Entry("MAIN", Level(1.0, 1.0)), Entry("EAST", Level(2.0, 2.0))]])
  }

  function FiveMoves(): seq<Move> {
    [Reseed({"sku"}), NewReceipt("r", "east"), Post(ReceiptLine("item", "r", 5.0), 9)]
  }

  function FiveBooks(): seq<Books> {
    var demo, empty, line := TwoFacilities(), Books(map["item" := []], [], map[]), ReceiptLine("item", "r", 5.0);
    var seeded := empty.(stock := map["item" := Converged([], Desired(demo.levels["sku"], demo.facilities, 0.0), 0)]);
    var arrived := seeded.(receipts := map["r" := "east"]);
    [empty, seeded, arrived, arrived.(lines := [line], stock := Credited(arrived, line, 9))]
  }

  lemma FiveIsARun()
    ensures Run(TwoFacilities(), FiveBooks(), FiveMoves()) && LastSeeded(FiveMoves(), 0, "sku")
  {
    var demo, bs, ms := TwoFacilities(), FiveBooks(), FiveMoves();
    var desired := Desired(demo.levels["sku"], demo.facilities, 0.0);
    assert ConvergedTo(RowsOf(bs[0].stock, "item"), RowsOf(bs[1].stock, "item"), desired, 0);
    assert Moves(demo, bs[0], ms[0], bs[1]);
    assert Moves(demo, bs[1], ms[1], bs[2]);
    assert [] + [ms[2].line] == bs[3].lines;
    assert Moves(demo, bs[2], ms[2], bs[3]);
  }

  lemma FiveReceived()
    ensures ReceivedAt(FiveBooks()[3], "item", "main") == ReceivedAt(FiveBooks()[0], "item", "main") == 0.0
    ensures ReceivedAt(FiveBooks()[0], "item", "east") == 0.0 && ReceivedAt(FiveBooks()[3], "item", "east") == 5.0
  {
    assert [ReceiptLine("item", "r", 5.0)][..0] == [];
  }

  lemma FiveAreCredited()
    ensures Credits(FiveBooks(), FiveMoves(), 0, "item", "east") == 5.0
  {
    var bs, ms := FiveBooks(), FiveMoves();
    FiveIsARun();
    FiveReceived();
    SumsMove(TwoFacilities(), bs, ms, 0, "item", "east");
    assert Edits(bs[..1], ms[..0], 0, "item", "east") == 0.0;
    assert bs[..3][..2] == bs[..2] && ms[..2][..1] == ms[..1] && bs[..2][..1] == bs[..1] && ms[..1][..0] == ms[..0];
    assert Edits(bs[..2], ms[..1], 0, "item", "east") == 0.0;
    assert Edits(bs[..3], ms[..2], 0, "item", "east") == 0.0;
  }

  lemma EastIsDeclared()
    ensures Declared(TwoFacilities(), "sku", 1)
    ensures WantOf(TwoFacilities(), "sku", 1) == Want("east", Level(2.0, 2.0))
  {
  }

  lemma FiveAreHeld()
    ensures Holds(RowsOf(FiveBooks()[3].stock, "item"), Want("east", Level(2.0, 2.0)), 5.0)
  {
    FiveIsARun();
    FiveReceived();
    FiveAreCredited();
    EastIsDeclared();
    RunKeepsReceived(TwoFacilities(), FiveBooks(), FiveMoves(), 0, "sku", 1);
  }

  /** Seeding again takes the five back. */
  lemma FiveAreTakenBack(next: nat)
    ensures var rows := RowsOf(FiveBooks()[3].stock, "item");
      var again := Converged(rows, Desired(TwoFacilities().levels["sku"], TwoFacilities().facilities, 0.0), next);
      && Covered(rows, "east") && rows[FirstAt(rows, "east")].level == Level(7.0, 7.0)
      && Covered(again, "east") && again[FirstAt(again, "east")].level == Level(2.0, 2.0)
  {
    var demo := TwoFacilities();
    FiveAreHeld();
    var desired := Desired(demo.levels["sku"], demo.facilities, 0.0);
    DeclaredLevelsHold(RowsOf(FiveBooks()[3].stock, "item"), desired, next, 1);
  }

  /** And if the line is corrected to two instead, nothing tells the stock. */
  lemma CorrectionIsNotCredited()
    ensures var b := FiveBooks()[3];
      var corrected := b.(lines := [ReceiptLine("item", "r", 2.0)]);
      && Moves(TwoFacilities(), b, EditLine(0, ReceiptLine("item", "r", 2.0)), corrected)
      && ReceivedAt(b, "item", "east") == 5.0 && ReceivedAt(corrected, "item", "east") == 2.0
      && corrected.stock == b.stock
  {
    FiveReceived();
    assert FiveBooks()[3].lines[0 := ReceiptLine("item", "r", 2.0)] == [ReceiptLine("item", "r", 2.0)];
    assert [ReceiptLine("item", "r", 2.0)][..0] == [];
  }
}
