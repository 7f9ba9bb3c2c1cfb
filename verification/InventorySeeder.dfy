/**
 The seeder itself: one pass over the declared table, item by item, writing through
 to the tenant's records.
 */
module InventorySeeder {
  import opened Wrappers
  import opened Inventory
  import opened InventoryTheorems
  import opened InventoryReceipts

  /** A posted line; its receipt is empty when it names none. */
  datatype ReceiptLine = ReceiptLine(item: string, receipt: string, qty: real)

  /** One row of the declared table, by facility code. */
  datatype Entry = Entry(code: string, level: Level)

  function At(receipts: map<string, string>, receipt: string): string {
    if receipt in receipts then receipts[receipt] else ""
  }

  /** What an item's lines at a facility add up to. */
  function Received(lines: seq<ReceiptLine>, receipts: map<string, string>, item: string, facility: string): real {
    if lines == [] then 0.0
    else
      var l, before := lines[|lines| - 1], Received(lines[..|lines| - 1], receipts, item, facility);
      if l.item == item && l.receipt != "" && At(receipts, l.receipt) == facility then before + l.qty else before
  }

  /** Posting a line adds it to its own item's sum at its receipt's facility only. */
  lemma PostingAdds(lines: seq<ReceiptLine>, l: ReceiptLine, receipts: map<string, string>,
                    item: string, facility: string)
    ensures Received(lines + [l], receipts, item, facility) ==
              Received(lines, receipts, item, facility) +
              if l.item == item && l.receipt != "" && At(receipts, l.receipt) == facility then l.qty else 0.0
  {
    assert (lines + [l])[..|lines|] == lines;
  }

  predicate Injective(m: map<string, string>) {
    forall x, y | x in m && y in m && m[x] == m[y] :: x == y
  }

  /** A line of a known item whose receipt cannot be read, which ends the run. */
  predicate Unreadable(lines: seq<ReceiptLine>, receipts: map<string, string>, items: map<string, string>) {
    exists i | 0 <= i < |lines| ::
      lines[i].item in items.Values && lines[i].receipt != "" && lines[i].receipt !in receipts
  }

  function Qty(out: map<string, real>, sku: string): real {
    if sku in out then out[sku] else 0.0
  }

  method Invert(items: map<string, string>) returns (skus: map<string, string>)
    requires Injective(items)
    ensures forall id :: id in skus <==> id in items.Values
    ensures forall id | id in skus :: skus[id] in items && items[skus[id]] == id
  {
    skus := map[];
    var todo := items.Keys;
    while todo != {}
      invariant todo <= items.Keys
      invariant forall sku | sku in items && sku !in todo :: items[sku] in skus
      invariant forall id | id in skus :: skus[id] in items && items[skus[id]] == id
      decreases |todo|
    {
      var sku :| sku in todo;
      todo := todo - {sku};
      skus := skus[items[sku] := sku];
    }
  }

  /** Sums received quantities per item, looking each receipt's facility up once. */
  method ReceivedQtyBySku(items: map<string, string>, lines: seq<ReceiptLine>, receipts: map<string, string>,
                          facility: string, published: bool)
    returns (r: Option<map<string, real>>)
    requires Injective(items)
    ensures r.None? <==> published && Unreadable(lines, receipts, items)
    ensures r.Some? ==> forall sku | sku in items ::
              Qty(r.value, sku) == if published then Received(lines, receipts, items[sku], facility) else 0.0
  {
    var out: map<string, real> := map[];
    if !published {
      return Some(out);
    }
    var skus := Invert(items);
    var facilityByReceipt: map<string, string> := map[];
    for i := 0 to |lines|
      invariant forall g | g in facilityByReceipt :: g in receipts && facilityByReceipt[g] == receipts[g]
      invariant forall k | 0 <= k < i && lines[k].item in items.Values && lines[k].receipt != "" ::
                  lines[k].receipt in receipts
      invariant forall sku | sku in items :: Qty(out, sku) == Received(lines[..i], receipts, items[sku], facility)
    {
      var line := lines[i];
      assert lines[..i + 1][..i] == lines[..i];
      if line.item !in skus || line.receipt == "" {
        continue;
      }
      if line.receipt !in facilityByReceipt {
        if line.receipt !in receipts {
          return None;
        }
        facilityByReceipt := facilityByReceipt[line.receipt := receipts[line.receipt]];
      }
      if facilityByReceipt[line.receipt] == facility {
        var sku := skus[line.item];
        out := out[sku := Qty(out, sku) + line.qty];
      }
    }
    assert lines[..|lines|] == lines;
    return Some(out);
  }

  /** The table in terms of facility ids. */
  function Table(entries: seq<Entry>, facilities: map<string, string>): (table: seq<Want>)
    ensures |table| == |entries|
  {
    seq(|entries|, k requires 0 <= k < |entries| => Want(At(facilities, entries[k].code), entries[k].level))
  }

  type Stock = map<string, seq<Row>>

  function RowsOf(stock: Stock, item: string): seq<Row> {
    if item in stock then stock[item] else []
  }

  predicate OnlyChanges(before: Stock, after: Stock, item: string) {
    && item in after && after.Keys == before.Keys + {item}
    && forall x | x in before && x != item :: after[x] == before[x]
  }

  const MAIN := "MAIN"

  /** The declared tables: facility codes are distinct within an item's, and two codes
      never stand for the same facility. */
  predicate WellDeclared(levels: map<string, seq<Entry>>, facilities: map<string, string>) {
    && Injective(facilities)
    && forall sku | sku in levels ::
         forall i, j | 0 <= i < j < |levels[sku]| :: levels[sku][i].code != levels[sku][j].code
  }

  predicate AllSeeded(entries: seq<Entry>, facilities: map<string, string>) {
    forall k | 0 <= k < |entries| :: At(facilities, entries[k].code) != ""
  }

  function Desired(entries: seq<Entry>, facilities: map<string, string>, received: real): seq<Want> {
    WithReceived(Table(entries, facilities), At(facilities, MAIN), received)
  }

  lemma DesiredIsDistinct(levels: map<string, seq<Entry>>, facilities: map<string, string>, sku: string, received: real)
    requires WellDeclared(levels, facilities) && sku in levels && AllSeeded(levels[sku], facilities)
    ensures DistinctWants(Desired(levels[sku], facilities, received))
  {
  }

  predicate ConvergedTo(before: seq<Row>, after: seq<Row>, desired: seq<Want>, next: nat) {
    after == Converged(before, desired, next)
  }

  /** Converged, with ids drawn from somewhere for the new rows. */
  ghost predicate Settled(before: seq<Row>, after: seq<Row>, desired: seq<Want>) {
    exists next: nat :: ConvergedTo(before, after, desired, next)
  }

  /** An item with a table has converged on it, any other is as it was. */
  ghost predicate Seeded(before: seq<Row>, after: seq<Row>, levels: map<string, seq<Entry>>,
                         facilities: map<string, string>, sku: string, received: real) {
    if sku in levels then Settled(before, after, Desired(levels[sku], facilities, received)) else after == before
  }

  predicate CanPlace(size: nat, w: Want, at: map<string, nat>, loose: seq<nat>) {
    if w.facility in at then at[w.facility] < size else loose != [] ==> loose[0] < size
  }

  /** What placing one want does to the rows, the next id and the loose rows. */
  predicate Placed(rows: seq<Row>, next: nat, w: Want, at: map<string, nat>, loose: seq<nat>,
                   rows': seq<Row>, next': nat, loose': seq<nat>)
    requires CanPlace(|rows|, w, at, loose)
  {
    var own := w.facility in at;
    var p := if own then at[w.facility] else if loose != [] then loose[0] else |rows|;
    && rows' == (if p < |rows| then rows[p := Put(rows[p], w)] else rows + [Fresh(next, w)])
    && next' == next + (if p < |rows| then 0 else 1)
    && loose' == if !own && loose != [] then loose[1..] else loose
  }

  class Seeder {
    var stock: Stock
    var nextId: nat

    /** Corrects a listed row, unless it is right already. */
    method SetRow(item: string, p: nat, w: Want)
      requires item in stock && p < |stock[item]|
      modifies this`stock
      ensures OnlyChanges(old(stock), stock, item) && stock[item] == old(stock)[item][p := Put(old(stock)[item][p], w)]
    {
      var row := stock[item][p];
      if row.facility == w.facility && row.level == w.level {
        assert stock[item][p := row] == stock[item];
        return;
      }
      stock := stock[item := stock[item][p := Row(row.id, row.version + 1, w.facility, w.level)]];
    }

    method CreateRow(item: string, w: Want)
      requires item in stock
      modifies this
      ensures OnlyChanges(old(stock), stock, item) && stock[item] == old(stock)[item] + [Fresh(old(nextId), w)]
      ensures nextId == old(nextId) + 1
    {
      stock := stock[item := stock[item] + [Fresh(nextId, w)]];
      nextId := nextId + 1;
    }

    /** One want: its own row, else the next loose one, else a new one. */
    method Place(item: string, w: Want, at: map<string, nat>, loose: seq<nat>) returns (rest: seq<nat>)
      requires item in stock && CanPlace(|stock[item]|, w, at, loose)
      modifies this
      ensures OnlyChanges(old(stock), stock, item)
      ensures Placed(old(stock)[item], old(nextId), w, at, loose, stock[item], nextId, rest)
    {
      rest := loose;
      if w.facility in at {
        SetRow(item, at[w.facility], w);
      } else if |loose| > 0 {
        SetRow(item, loose[0], w);
        rest := loose[1..];
      } else {
        CreateRow(item, w);
      }
    }

    /** Brings one item to what is desired of it. */
    method Converge(item: string, desired: seq<Want>)
      requires item in stock && DistinctWants(desired)
      modifies this
      ensures OnlyChanges(old(stock), stock, item)
      ensures stock[item] == Converged(old(stock)[item], desired, old(nextId))
      ensures nextId == old(nextId) + (|stock[item]| - |old(stock)[item]|)
    {
      var existing := stock[item];
      ghost var before, next0 := stock, nextId;
      var at, loose := Sift(existing, desired);
      for k := 0 to |desired|
        invariant OnlyChanges(before, stock, item)
        invariant Reached(existing, desired, next0, k, stock[item], nextId, loose)
      {
        ReachedCanPlace(existing, desired, next0, k, stock[item], nextId, at, loose);
        ghost var rows, next, was := stock[item], nextId, loose;
        loose := Place(item, desired[k], at, loose);
        ReachNext(existing, desired, next0, k, rows, next, at, was, stock[item], nextId, loose);
      }
    }

    /** Lists one item's rows, none if it has none, and converges them. */
    method SeedItem(item: string, desired: seq<Want>)
      requires DistinctWants(desired)
      modifies this
      ensures forall x | x != item :: RowsOf(stock, x) == RowsOf(old(stock), x)
      ensures Settled(RowsOf(old(stock), item), RowsOf(stock, item), desired)
    {
      if item !in stock {
        stock := stock[item := []];
      }
      ghost var next := nextId;
      Converge(item, desired);
      assert ConvergedTo(RowsOf(old(stock), item), RowsOf(stock, item), desired, next);
    }

    /** One entry of the outer loop; an item without a table is passed over. */
    method SeedSku(sku: string, item: string, facilities: map<string, string>, levels: map<string, seq<Entry>>,
                   received: real)
      returns (ok: bool)
      requires WellDeclared(levels, facilities)
      modifies this
      ensures forall x | x != item || !ok :: RowsOf(stock, x) == RowsOf(old(stock), x)
      ensures ok <==> (sku in levels ==> AllSeeded(levels[sku], facilities))
      ensures ok ==> Seeded(RowsOf(old(stock), item), RowsOf(stock, item), levels, facilities, sku, received)
    {
      ok := true;
      if sku in levels {
        ok := AllSeeded(levels[sku], facilities);
        if ok {
          DesiredIsDistinct(levels, facilities, sku, received);
          SeedItem(item, Desired(levels[sku], facilities, received));
        }
      }
    }

    /** The whole pass, item by item in whatever order. It stops at a receipt it cannot
        read or a facility nobody seeded, leaving the remaining items as they were. */
    method SeedInventory(items: map<string, string>, facilities: map<string, string>, levels: map<string, seq<Entry>>,
                         lines: seq<ReceiptLine>, receipts: map<string, string>, published: bool) returns (ok: bool)
      requires Injective(items) && WellDeclared(levels, facilities)
      modifies this
      ensures forall id | id !in items.Values :: RowsOf(stock, id) == RowsOf(old(stock), id)
      ensures forall sku | sku in items ::
                var received := if published then Received(lines, receipts, items[sku], At(facilities, MAIN)) else 0.0;
                || Seeded(RowsOf(old(stock), items[sku]), RowsOf(stock, items[sku]), levels, facilities, sku, received)
                || (!ok && RowsOf(stock, items[sku]) == RowsOf(old(stock), items[sku]))
      ensures ok <==> !(published && Unreadable(lines, receipts, items))
                      && forall sku | sku in items && sku in levels :: AllSeeded(levels[sku], facilities)
    {
      var sums := ReceivedQtyBySku(items, lines, receipts, At(facilities, MAIN), published);
      if sums.None? {
        return false;
      }
      ghost var before := stock;
      var todo := items.Keys;
      while todo != {}
        invariant todo <= items.Keys
        invariant Pass(before, stock, items, facilities, levels, sums.value, todo)
        decreases |todo|
      {
        var sku :| sku in todo;
        ghost var was := stock;
        ok := SeedSku(sku, items[sku], facilities, levels, Qty(sums.value, sku));
        if !ok {
          return;
        }
        PassNext(before, was, stock, items, facilities, levels, sums.value, todo, sku);
        todo := todo - {sku};
      }
      return true;
    }
  }

  /** How far the pass has come: what is still to do is as before, the rest seeded. */
  ghost predicate Pass(before: Stock, now: Stock, items: map<string, string>, facilities: map<string, string>,
                       levels: map<string, seq<Entry>>, sums: map<string, real>, todo: set<string>) {
    && (forall id | id !in items.Values :: RowsOf(now, id) == RowsOf(before, id))
    && (forall sku | sku in items && sku in todo :: RowsOf(now, items[sku]) == RowsOf(before, items[sku]))
    && (forall sku | sku in items && sku !in todo ::
          && Seeded(RowsOf(before, items[sku]), RowsOf(now, items[sku]), levels, facilities, sku, Qty(sums, sku))
          && (sku in levels ==> AllSeeded(levels[sku], facilities)))
  }

  lemma PassNext(before: Stock, was: Stock, now: Stock, items: map<string, string>, facilities: map<string, string>,
                 levels: map<string, seq<Entry>>, sums: map<string, real>, todo: set<string>, sku: string)
    requires Injective(items) && Pass(before, was, items, facilities, levels, sums, todo) && sku in todo && sku in items
    requires forall x | x != items[sku] :: RowsOf(now, x) == RowsOf(was, x)
    requires sku in levels ==> AllSeeded(levels[sku], facilities)
    requires Seeded(RowsOf(was, items[sku]), RowsOf(now, items[sku]), levels, facilities, sku, Qty(sums, sku))
    ensures Pass(before, now, items, facilities, levels, sums, todo - {sku})
  {
  }

  function StillLoose(rows: seq<Row>, desired: seq<Want>, k: nat): seq<nat>
    requires k <= |desired|
  {
    var u, loose := Uncovered(rows, desired, k), Loose(rows, desired);
    if u < |loose| then loose[u..] else []
  }

  ghost predicate Sifted(existing: seq<Row>, desired: seq<Want>, at: map<string, nat>) {
    && (forall f :: f in at <==> Declares(desired, f) && Covered(existing, f))
    && (forall f | f in at :: at[f] == FirstAt(existing, f))
  }

  /** The loop has met the first k wants. */
  predicate Reached(existing: seq<Row>, desired: seq<Want>, next0: nat, k: nat,
                    rows: seq<Row>, next: nat, loose: seq<nat>)
    requires k <= |desired|
  {
    && rows == Met(existing, desired, next0, k)
    && next == next0 + (|rows| - |existing|)
    && loose == StillLoose(existing, desired, k)
  }

  lemma ReachedCanPlace(existing: seq<Row>, desired: seq<Want>, next0: nat, k: nat,
                        rows: seq<Row>, next: nat, at: map<string, nat>, loose: seq<nat>)
    requires DistinctWants(desired) && k < |desired| && Sifted(existing, desired, at)
    requires Reached(existing, desired, next0, k, rows, next, loose)
    ensures CanPlace(|rows|, desired[k], at, loose)
  {
    assert Declares(desired, desired[k].facility);
    TargetKinds(existing, desired, k);
  }

  /** Taking loose rows off the front meets each want where Target says. */
  lemma ReachNext(existing: seq<Row>, desired: seq<Want>, next0: nat, k: nat,
                  rows: seq<Row>, next: nat, at: map<string, nat>, loose: seq<nat>,
                  rows': seq<Row>, next': nat, loose': seq<nat>)
    requires DistinctWants(desired) && k < |desired| && Sifted(existing, desired, at)
    requires Reached(existing, desired, next0, k, rows, next, loose) && CanPlace(|rows|, desired[k], at, loose)
    requires Placed(rows, next, desired[k], at, loose, rows', next', loose')
    ensures Reached(existing, desired, next0, k + 1, rows', next', loose')
  {
    assert Declares(desired, desired[k].facility);
    MetStep(existing, desired, next0, k);
    TargetKinds(existing, desired, k);
    UntouchedSoFar(existing, desired, next0, k);
    MetSize(existing, desired, next0, k);
  }

  lemma CoveredNext(rows: seq<Row>, i: nat, g: string)
    requires i < |rows|
    ensures Covered(rows[..i + 1], g) <==> Covered(rows[..i], g) || g == rows[i].facility
  {
    var front, longer := rows[..i], rows[..i + 1];
    assert forall k | 0 <= k < i :: front[k] == longer[k];
    assert longer[i] == rows[i];
    if Covered(front, g) {
      var k :| 0 <= k < |front| && front[k].facility == g;
      assert longer[k].facility == g;
    }
  }

  /** Sorts the listed rows into those in place, by facility, and the loose ones. */
  method Sift(existing: seq<Row>, desired: seq<Want>) returns (at: map<string, nat>, loose: seq<nat>)
    requires DistinctWants(desired)
    ensures Sifted(existing, desired, at)
    ensures loose == Loose(existing, desired)
  {
    at, loose := map[], [];
    for i := 0 to |existing|
      invariant SiftedUpTo(existing, desired, i, at)
      invariant loose == LooseBelow(existing, desired, i)
    {
      var f := existing[i].facility;
      var declared := exists k | 0 <= k < |desired| :: desired[k].facility == f;
      SiftNext(existing, desired, i, at);
      if f != "" && declared && f !in at {
        at := at[f := i];
      } else {
        loose := loose + [i];
      }
    }
    assert existing[..|existing|] == existing;
  }

  ghost predicate SiftedUpTo(existing: seq<Row>, desired: seq<Want>, i: nat, at: map<string, nat>)
    requires i <= |existing|
  {
    && (forall f :: f in at <==> Declares(desired, f) && Covered(existing[..i], f))
    && (forall f | f in at :: Covered(existing, f) && at[f] == FirstAt(existing, f))
  }

  lemma SiftNext(existing: seq<Row>, desired: seq<Want>, i: nat, at: map<string, nat>)
    requires i < |existing| && SiftedUpTo(existing, desired, i, at)
    ensures var f := existing[i].facility;
      if Declares(desired, f) && f !in at then
        !IsLoose(existing, desired, i) && SiftedUpTo(existing, desired, i + 1, at[f := i])
      else IsLoose(existing, desired, i) && SiftedUpTo(existing, desired, i + 1, at)
  {
    var f := existing[i].facility;
    forall g: string
      ensures Covered(existing[..i + 1], g) <==> Covered(existing[..i], g) || g == f
    {
      CoveredNext(existing, i, g);
    }
    if Declares(desired, f) && f !in at {
      assert forall k | 0 <= k < i :: existing[..i][k] == existing[k];
      FirstIs(existing, f, i);
    }
  }
}
