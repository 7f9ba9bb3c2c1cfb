/**
 What was received: goods receipts credit the row at their facility, and a seeding
 folds what the main facility received into its declared levels.
 */
module InventoryReceipts {
  import opened Inventory
  import opened InventoryTheorems

  /** The declared levels, with what was received added at the receiving facility. */
  function WithReceived(table: seq<Want>, receiving: string, received: real): (desired: seq<Want>)
    ensures |desired| == |table|
    ensures forall k | 0 <= k < |table| :: desired[k].facility == table[k].facility
  {
    seq(|table|, k requires 0 <= k < |table| =>
      if table[k].facility == receiving && received > 0.0 then
        Want(receiving, Plus(table[k].level, Level(received, received)))
      else table[k])
  }

  /** A posted receipt line credits the oldest row at its facility, or opens one. */
  function Credit(rows: seq<Row>, facility: string, qty: real, next: nat): seq<Row> {
    if Covered(rows, facility) then
      var i := FirstAt(rows, facility);
      rows[i := Row(rows[i].id, rows[i].version + 1, facility, Plus(rows[i].level, Level(qty, qty)))]
    else rows + [Fresh(next, Want(facility, Level(qty, qty)))]
  }

  predicate Holds(rows: seq<Row>, w: Want, extra: real) {
    Covered(rows, w.facility) && rows[FirstAt(rows, w.facility)].level == Plus(w.level, Level(extra, extra))
  }

  /** A credit shows up where it was received and nowhere else. */
  lemma CreditHolds(rows: seq<Row>, facility: string, qty: real, next: nat, w: Want, extra: real)
    requires Holds(rows, w, extra)
    ensures Holds(Credit(rows, facility, qty, next), w, if w.facility == facility then extra + qty else extra)
  {
    var now, i := Credit(rows, facility, qty, next), FirstAt(rows, w.facility);
    forall k | 0 <= k < i
      ensures now[k].facility != w.facility
    {
      if rows[k].facility == w.facility {
        NoneBeforeFirst(rows, w.facility, k);
      }
    }
    FirstIs(now, w.facility, i);
  }
}
