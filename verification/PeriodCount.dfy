/**
 Backfilling FixedAsset.posted_period_count while the depreciation worker posts.
 The tool lists the assets once, then for each reads the schedule rows, compares,
 and writes under a version check; the worker, and people editing assets, run
 between any two of these calls.
 */
module PeriodCount {
  import opened Wrappers

  /** `other` stands for every field but the counter; a counter that was never
      written reads as zero. */
  datatype Asset = Asset(count: Option<int>, version: nat, other: string)

  datatype ScheduleRow = ScheduleRow(asset: nat, postedAt: string)

  datatype Books = Books(assets: seq<Asset>, rows: seq<ScheduleRow>)

  function Stored(a: Asset): int {
    if a.count.Some? then a.count.value else 0
  }

  /** The true count: this asset's rows with a posting date. */
  function Posted(rows: seq<ScheduleRow>, a: nat): nat {
    if rows == [] then 0
    else
      var last := rows[|rows| - 1];
      Posted(rows[..|rows| - 1], a) + if last.asset == a && last.postedAt != "" then 1 else 0
  }

  /** How far the counter is behind the rows it stands for. */
  function Deficit(b: Books, a: nat): int
    requires a < |b.assets|
  {
    Posted(b.rows, a) - Stored(b.assets[a])
  }

  // --------------------------------------------------- what others may do

  /** Posting dates a row and advances its asset's counter and version in one
      transaction; an edit changes the other fields and keeps the counter. A save may
      set the counter to anything, and a row may be edited in any way without its asset
      being touched; a deleted row is one moved to no asset. */
  datatype Event =
    | Post(row: nat, date: string)
    | Edit(asset: nat, other: string)
    | AddRow(asset: nat)
    | Save(asset: nat, count: Option<int>, other: string)
    | EditRow(row: nat, to: ScheduleRow)

  function Apply(b: Books, e: Event): (r: Books)
    ensures |r.assets| == |b.assets|
  {
    match e
    case Post(k, date) =>
      if k < |b.rows| && b.rows[k].postedAt == "" && date != "" && b.rows[k].asset < |b.assets| then
        var a := b.rows[k].asset;
        Books(b.assets[a := Asset(Some(Stored(b.assets[a]) + 1), b.assets[a].version + 1, b.assets[a].other)],
              b.rows[k := ScheduleRow(a, date)])
      else b
    case Edit(a, other) =>
      if a < |b.assets| then
        b.(assets := b.assets[a := b.assets[a].(other := other, version := b.assets[a].version + 1)])
      else b
    case AddRow(a) => b.(rows := b.rows + [ScheduleRow(a, "")])
    case Save(a, count, other) =>
      if a < |b.assets| then b.(assets := b.assets[a := Asset(count, b.assets[a].version + 1, other)]) else b
    case EditRow(k, to) => if k < |b.rows| then b.(rows := b.rows[k := to]) else b
  }

  /** The events that can change how far an asset's counter is behind its rows. */
  predicate Disturbs(b: Books, e: Event, a: nat) {
    match e
    case Save(x, _, _) => x == a
    case EditRow(k, to) => k < |b.rows| && (b.rows[k].asset == a || to.asset == a)
    case _ => false
  }

  function ApplyAll(b: Books, es: seq<Event>): (r: Books)
    ensures |r.assets| == |b.assets|
  {
    if es == [] then b else Apply(ApplyAll(b, es[..|es| - 1]), es[|es| - 1])
  }

  lemma {:induction false} ApplyAllAppend(b: Books, es: seq<Event>, fs: seq<Event>)
    ensures ApplyAll(b, es + fs) == ApplyAll(ApplyAll(b, es), fs)
  {
    if fs == [] {
      assert es + fs == es;
    } else {
      assert (es + fs)[..|es + fs| - 1] == es + fs[..|fs| - 1];
      ApplyAllAppend(b, es, fs[..|fs| - 1]);
    }
  }

  lemma {:induction false} PostedAfterPosting(rows: seq<ScheduleRow>, k: nat, date: string, a: nat)
    requires k < |rows| && rows[k].postedAt == "" && date != ""
    ensures Posted(rows[k := ScheduleRow(rows[k].asset, date)], a) ==
              Posted(rows, a) + if rows[k].asset == a then 1 else 0
  {
    var n := |rows| - 1;
    var rows' := rows[k := ScheduleRow(rows[k].asset, date)];
    if k == n {
      assert rows'[..n] == rows[..n];
    } else {
      assert rows'[..n] == rows[..n][k := ScheduleRow(rows[k].asset, date)];
      PostedAfterPosting(rows[..n], k, date, a);
    }
  }

  lemma {:induction false} PostedElsewhere(rows: seq<ScheduleRow>, k: nat, to: ScheduleRow, a: nat)
    requires k < |rows| && rows[k].asset != a && to.asset != a
    ensures Posted(rows[k := to], a) == Posted(rows, a)
  {
    var n := |rows| - 1;
    if k == n {
      assert rows[k := to][..n] == rows[..n];
    } else {
      assert rows[k := to][..n] == rows[..n][k := to];
      PostedElsewhere(rows[..n], k, to, a);
    }
  }

  /** A version that did not move means that the asset did not. Short of a save or an
      edited row nobody but the tool changes a deficit, posted rows never go away, and
      none is posted while the version stands still. */
  lemma ApplyEffect(b: Books, e: Event, a: nat)
    requires a < |b.assets|
    ensures b.assets[a].version <= Apply(b, e).assets[a].version
    ensures Apply(b, e).assets[a].version == b.assets[a].version ==>
              Apply(b, e).assets[a] == b.assets[a] && !(e.Save? && e.asset == a)
    ensures !Disturbs(b, e, a) ==> Steady(b, Apply(b, e), a)
  {
    match e
    case Post(k, date) =>
      if k < |b.rows| && b.rows[k].postedAt == "" && date != "" {
        PostedAfterPosting(b.rows, k, date, a);
      }
    case Edit(_, _) =>
    case AddRow(x) => assert (b.rows + [ScheduleRow(x, "")])[..|b.rows|] == b.rows;
    case Save(_, _, _) =>
    case EditRow(k, to) =>
      if k < |b.rows| && !Disturbs(b, e, a) {
        PostedElsewhere(b.rows, k, to, a);
      }
  }

  /** The deficit is the same, no row was un-posted, and none was posted if the version
      stood still. */
  predicate Steady(b: Books, b': Books, a: nat)
    requires a < |b.assets| && a < |b'.assets|
  {
    && Deficit(b', a) == Deficit(b, a)
    && Posted(b.rows, a) <= Posted(b'.rows, a)
    && (b'.assets[a].version == b.assets[a].version ==> Posted(b'.rows, a) == Posted(b.rows, a))
  }

  predicate Undisturbed(b: Books, es: seq<Event>, a: nat) {
    es == []
    || (Undisturbed(b, es[..|es| - 1], a) && !Disturbs(ApplyAll(b, es[..|es| - 1]), es[|es| - 1], a))
  }

  predicate SavedIn(es: seq<Event>, a: nat) {
    exists i | 0 <= i < |es| :: es[i].Save? && es[i].asset == a
  }

  lemma {:induction false} ApplyAllVersion(b: Books, es: seq<Event>, a: nat)
    requires a < |b.assets|
    ensures b.assets[a].version <= ApplyAll(b, es).assets[a].version
    ensures ApplyAll(b, es).assets[a].version == b.assets[a].version ==>
              ApplyAll(b, es).assets[a] == b.assets[a] && !SavedIn(es, a)
  {
    if es != [] {
      var n := |es| - 1;
      ApplyAllVersion(b, es[..n], a);
      ApplyEffect(ApplyAll(b, es[..n]), es[n], a);
      assert forall i | 0 <= i < n :: es[i] == es[..n][i];
    }
  }

  lemma {:induction false} ApplyAllEffect(b: Books, es: seq<Event>, a: nat)
    requires a < |b.assets| && Undisturbed(b, es, a)
    ensures Steady(b, ApplyAll(b, es), a)
  {
    if es != [] {
      var n := |es| - 1;
      ApplyAllVersion(b, es[..n], a);
      ApplyAllEffect(b, es[..n], a);
      ApplyEffect(ApplyAll(b, es[..n]), es[n], a);
    }
  }

  lemma {:induction false} UndisturbedPrefix(b: Books, es: seq<Event>, m: nat, a: nat)
    requires Undisturbed(b, es, a) && m <= |es|
    ensures Undisturbed(b, es[..m], a)
  {
    if m == |es| {
      assert es[..m] == es;
    } else {
      assert es[..|es| - 1][..m] == es[..m];
      UndisturbedPrefix(b, es[..|es| - 1], m, a);
    }
  }

  /** The same books but for counters and versions: what edits and postings wrote. */
  predicate SameElsewhere(x: Books, y: Books) {
    && |x.assets| == |y.assets| && x.rows == y.rows
    && forall i | 0 <= i < |x.assets| :: x.assets[i].other == y.assets[i].other
  }

  /** Events do the same to books that differ in counters and versions only: an asset on
      which they agree stays one, and counters stay as far apart as they were until a
      save makes them the same. */
  lemma {:induction false} ApplyAllAgrees(x: Books, y: Books, es: seq<Event>)
    requires SameElsewhere(x, y)
    ensures SameElsewhere(ApplyAll(x, es), ApplyAll(y, es))
    ensures forall a | 0 <= a < |x.assets| && a < |y.assets| && x.assets[a] == y.assets[a] ::
              ApplyAll(x, es).assets[a] == ApplyAll(y, es).assets[a]
  {
    if es != [] {
      ApplyAllAgrees(x, y, es[..|es| - 1]);
    }
  }

  lemma ApplyApart(x: Books, y: Books, e: Event, a: nat)
    requires SameElsewhere(x, y) && a < |x.assets|
    ensures Stored(Apply(x, e).assets[a]) - Stored(Apply(y, e).assets[a]) ==
              if e.Save? && e.asset == a then 0 else Stored(x.assets[a]) - Stored(y.assets[a])
  {
  }

  lemma {:induction false} ApplyAllApart(x: Books, y: Books, es: seq<Event>, a: nat)
    requires SameElsewhere(x, y) && a < |x.assets|
    ensures Stored(ApplyAll(x, es).assets[a]) - Stored(ApplyAll(y, es).assets[a]) ==
              if SavedIn(es, a) then 0 else Stored(x.assets[a]) - Stored(y.assets[a])
  {
    if es != [] {
      var n := |es| - 1;
      ApplyAllAgrees(x, y, es[..n]);
      ApplyAllApart(x, y, es[..n], a);
      ApplyApart(ApplyAll(x, es[..n]), ApplyAll(y, es[..n]), es[n], a);
      SavedInAppend(es[..n], [es[n]], a);
      assert es == es[..n] + [es[n]] && [es[n]][0] == es[n];
    }
  }

  lemma SavedInAppend(es: seq<Event>, fs: seq<Event>, a: nat)
    ensures SavedIn(es + fs, a) <==> SavedIn(es, a) || SavedIn(fs, a)
  {
    if SavedIn(fs, a) {
      var i :| 0 <= i < |fs| && fs[i].Save? && fs[i].asset == a;
      assert (es + fs)[|es| + i] == fs[i];
    }
    if SavedIn(es, a) {
      var i :| 0 <= i < |es| && es[i].Save? && es[i].asset == a;
      assert (es + fs)[i] == es[i];
    }
  }

  // ------------------------------------------------------------- the tool

  datatype Verdict = AlreadyCorrect | Migrated | Invalid | ChangedMeanwhile

  /** The verdict when nothing else happens. */
  function QuietVerdict(b: Books, a: nat, validates: string -> bool): Verdict
    requires a < |b.assets|
  {
    if Deficit(b, a) == 0 then AlreadyCorrect
    else if !validates(b.assets[a].other) then Invalid
    else Migrated
  }

  /** The first n stretches of what the others do, one before each call. */
  function Meanwhile(turns: nat -> seq<Event>, n: nat): seq<Event> {
    if n == 0 then [] else Meanwhile(turns, n - 1) + turns(n - 1)
  }

  /** A write of the count on top of an unmoved version: the counter is off by what has
      changed its distance to its rows since they were counted, which is nothing unless
      somebody edited a row; every other field and asset is as the others left it. */
  lemma WriteIsExact(b0: Books, es: seq<Event>, mid: nat, a: nat, now: Books)
    requires a < |b0.assets| && mid <= |es| && SameElsewhere(now, ApplyAll(b0, es))
    requires now.assets[a] == ApplyAll(b0, es).assets[a] && now.assets[a].version == b0.assets[a].version
    ensures var count := Posted(ApplyAll(b0, es[..mid]).rows, a);
      var now' := now.(assets := now.assets[a := Asset(Some(count), now.assets[a].version + 1, b0.assets[a].other)]);
      && SameElsewhere(now', now) && !SavedIn(es[mid..], a)
      && Deficit(now', a) == Deficit(ApplyAll(b0, es), a) - Deficit(ApplyAll(b0, es[..mid]), a)
      && (Undisturbed(b0, es, a) ==> Deficit(now', a) == 0)
  {
    assert es[..mid] + es[mid..] == es;
    ApplyAllAppend(b0, es[..mid], es[mid..]);
    ApplyAllVersion(b0, es, a);
    ApplyAllVersion(b0, es[..mid], a);
    ApplyAllVersion(ApplyAll(b0, es[..mid]), es[mid..], a);
    if Undisturbed(b0, es, a) {
      UndisturbedPrefix(b0, es, mid, a);
      ApplyAllEffect(b0, es, a);
      ApplyAllEffect(b0, es[..mid], a);
    }
  }

  /** A recount that equals the listed counter is right about an asset that is only
      posted to, whatever else happened in between, exactly when the listed counter was
      not ahead of its rows: one that was can be caught up with between the listing and
      the recount, and is then wrongly passed. */
  lemma SettledVerdictIsRightExactlyWhen(b0: Books, a: nat)
    requires a < |b0.assets|
    ensures (forall es | Undisturbed(b0, es, a) && Stored(b0.assets[a]) == Posted(ApplyAll(b0, es).rows, a) ::
               Deficit(ApplyAll(b0, es), a) == 0)
            <==> Deficit(b0, a) >= 0
  {
    if Deficit(b0, a) >= 0 {
      forall es | Undisturbed(b0, es, a) && Stored(b0.assets[a]) == Posted(ApplyAll(b0, es).rows, a)
        ensures Deficit(ApplyAll(b0, es), a) == 0
      {
        ApplyAllEffect(b0, es, a);
      }
    } else {
      var es := CatchUp(b0, a, -Deficit(b0, a));
      ApplyAllEffect(b0, es, a);
      assert Stored(b0.assets[a]) == Posted(ApplyAll(b0, es).rows, a);
    }
  }

  lemma OneMorePosted(b: Books, es: seq<Event>, a: nat) returns (es': seq<Event>)
    requires a < |b.assets| && Undisturbed(b, es, a)
    ensures Undisturbed(b, es', a) && Posted(ApplyAll(b, es').rows, a) == Posted(ApplyAll(b, es).rows, a) + 1
  {
    var b1 := ApplyAll(b, es);
    var b2 := Apply(b1, AddRow(a));
    assert b2.rows[..|b1.rows|] == b1.rows;
    PostedAfterPosting(b2.rows, |b1.rows|, "today", a);
    var added := es + [AddRow(a)];
    assert added[..|es|] == es;
    assert ApplyAll(b, added) == b2 && Undisturbed(b, added, a);
    es' := added + [Post(|b1.rows|, "today")];
    assert es'[..|added|] == added;
  }

  /** n new rows of an asset, each posted. */
  lemma {:induction false} CatchUp(b: Books, a: nat, n: nat) returns (es: seq<Event>)
    requires a < |b.assets|
    ensures Undisturbed(b, es, a) && Posted(ApplyAll(b, es).rows, a) == Posted(b.rows, a) + n
  {
    es := [];
    if n > 0 {
      es := CatchUp(b, a, n - 1);
      es := OneMorePosted(b, es, a);
    }
  }

  /** One row to be posted and a counter of one already: if the row is posted before it is
      counted, the asset is passed as correct and ends one ahead. */
  lemma WronglyPassed()
    ensures var b0 := Books([Asset(Some(1), 1, "")], [ScheduleRow(0, "")]);
      var world := ApplyAll(b0, [Post(0, "today")]);
      && Deficit(b0, 0) == -1 && Undisturbed(b0, [Post(0, "today")], 0)
      && Stored(b0.assets[0]) == Posted(world.rows, 0) && Stored(world.assets[0]) == 2 && Deficit(world, 0) == -1
  {
    var b0 := Books([Asset(Some(1), 1, "")], [ScheduleRow(0, "")]);
    assert [Post(0, "today")][..0] == [];
    assert ApplyAll(b0, [Post(0, "today")]) == Apply(b0, Post(0, "today"));
    assert [ScheduleRow(0, "")][..0] == [] && [ScheduleRow(0, "today")][..0] == [];
  }

  /** One posted row and no counter: if the row is un-posted by hand after it was counted,
      no version moves, and the write makes the counter one. */
  lemma EditGoesUnnoticed()
    ensures var b0, es := Books([Asset(None, 1, "")], [ScheduleRow(0, "today")]), [EditRow(0, ScheduleRow(0, ""))];
      var world := ApplyAll(b0, es);
      && world.assets == b0.assets && Posted(ApplyAll(b0, es[..0]).rows, 0) == 1
      && Deficit(world.(assets := [Asset(Some(1), 2, "")]), 0) == -1
  {
    var b0, es := Books([Asset(None, 1, "")], [ScheduleRow(0, "today")]), [EditRow(0, ScheduleRow(0, ""))];
    assert es[..0] == [];
    assert ApplyAll(b0, es) == Apply(b0, es[0]);
    assert [ScheduleRow(0, "")][..0] == [] && [ScheduleRow(0, "today")][..0] == [];
  }

  /** What has become of an asset: its verdict, and how much of what the others did came
      before its rows were counted. */
  datatype Turn = Pending | Taken(verdict: Verdict, counted: nat)

  function TurnOf(report: seq<Verdict>, counted: seq<nat>, a: nat): Turn
    requires |counted| == |report|
  {
    if a < |report| then Taken(report[a], counted[a]) else Pending
  }

  predicate Written(t: Turn, dryRun: bool) {
    t.Taken? && t.verdict == Migrated && !dryRun
  }

  /** Where the run stands after the first |report| assets, against the books as the
      others alone would have left them. */
  ghost predicate Progress(b0: Books, es: seq<Event>, now: Books, report: seq<Verdict>, counted: seq<nat>,
                           dryRun: bool)
  {
    && |counted| == |report| <= |b0.assets| == |now.assets|
    && SameElsewhere(now, ApplyAll(b0, es))
    && (forall a: nat | a < |b0.assets| ::
          AssetStands(b0, es, now.assets[a], a, TurnOf(report, counted, a), dryRun))
  }

  /** An asset the run did not write is as the others left it. One it wrote is off by what
      they have changed its distance to its rows by since these were counted, or if it
      was saved since, as the save and what followed left it. An asset is passed as
      correct only if its count was what had been listed, and reported as changed only
      if its version moved. */
  ghost predicate AssetStands(b0: Books, es: seq<Event>, x: Asset, a: nat, t: Turn, dryRun: bool)
    requires a < |b0.assets|
  {
    var other := ApplyAll(b0, es).assets[a];
    && (t.Taken? ==> t.counted <= |es|)
    && (if Written(t, dryRun) then Stored(x) - Stored(other) == Correction(b0, es, a, t.counted) else x == other)
    && (t.Taken? && t.verdict == AlreadyCorrect ==> PassesAsCorrect(b0, es[..t.counted], a))
    && (t.Taken? && t.verdict == ChangedMeanwhile ==> other.version > b0.assets[a].version)
  }

  /** What a write of the count adds to the counter, until the next save. */
  ghost function Correction(b0: Books, es: seq<Event>, a: nat, counted: nat): int
    requires a < |b0.assets| && counted <= |es|
  {
    if SavedIn(es[counted..], a) then 0 else Deficit(ApplyAll(b0, es[..counted]), a)
  }

  /** The recount of asset a, made once es has happened, finds what was listed. */
  ghost predicate PassesAsCorrect(b0: Books, es: seq<Event>, a: nat)
    requires a < |b0.assets|
  {
    Stored(b0.assets[a]) == Posted(ApplyAll(b0, es).rows, a)
  }

  lemma OthersKeepCorrection(b0: Books, es: seq<Event>, fs: seq<Event>, a: nat, counted: nat)
    requires a < |b0.assets| && counted <= |es|
    ensures (es + fs)[..counted] == es[..counted]
    ensures Correction(b0, es + fs, a, counted) == if SavedIn(fs, a) then 0 else Correction(b0, es, a, counted)
  {
    assert (es + fs)[..counted] == es[..counted];
    assert (es + fs)[counted..] == es[counted..] + fs;
    SavedInAppend(es[counted..], fs, a);
  }

  lemma OthersKeepAsset(b0: Books, es: seq<Event>, fs: seq<Event>, now: Books, a: nat, t: Turn, dryRun: bool)
    requires a < |b0.assets| == |now.assets| && SameElsewhere(now, ApplyAll(b0, es))
    requires AssetStands(b0, es, now.assets[a], a, t, dryRun)
    ensures AssetStands(b0, es + fs, ApplyAll(now, fs).assets[a], a, t, dryRun)
  {
    var world := ApplyAll(b0, es);
    ApplyAllAppend(b0, es, fs);
    ApplyAllAgrees(now, world, fs);
    ApplyAllApart(now, world, fs, a);
    ApplyAllVersion(world, fs, a);
    if t.Taken? {
      OthersKeepCorrection(b0, es, fs, a, t.counted);
    }
  }

  lemma OthersKeepProgress(b0: Books, es: seq<Event>, fs: seq<Event>, now: Books,
                           report: seq<Verdict>, counted: seq<nat>, dryRun: bool)
    requires Progress(b0, es, now, report, counted, dryRun)
    ensures Progress(b0, es + fs, ApplyAll(now, fs), report, counted, dryRun)
  {
    ApplyAllAppend(b0, es, fs);
    ApplyAllAgrees(now, ApplyAll(b0, es), fs);
    forall a: nat | a < |b0.assets|
      ensures AssetStands(b0, es + fs, ApplyAll(now, fs).assets[a], a, TurnOf(report, counted, a), dryRun)
    {
      OthersKeepAsset(b0, es, fs, now, a, TurnOf(report, counted, a), dryRun);
    }
  }

  /** What this says of an asset nobody saved or edited the rows of: written, it is exact;
      otherwise it keeps its deficit; and passed as correct, it is not behind. */
  lemma UndisturbedStands(b0: Books, es: seq<Event>, now: Books, a: nat, t: Turn, dryRun: bool)
    requires a < |b0.assets| == |now.assets| && SameElsewhere(now, ApplyAll(b0, es)) && Undisturbed(b0, es, a)
    requires AssetStands(b0, es, now.assets[a], a, t, dryRun)
    ensures Deficit(now, a) == if Written(t, dryRun) then 0 else Deficit(b0, a)
    ensures t.Taken? && t.verdict == AlreadyCorrect ==> Deficit(b0, a) <= 0
  {
    ApplyAllEffect(b0, es, a);
    if t.Taken? {
      UndisturbedPrefix(b0, es, t.counted, a);
      ApplyAllEffect(b0, es[..t.counted], a);
      NeverSaved(b0, es, t.counted, a);
    }
  }

  /** And of one that was written, whatever was done to it: it is exact exactly when the
      last save since its rows were counted left it so, or without one, when nothing
      has changed its distance to them since. */
  lemma MigratedIsExactExactlyWhen(b0: Books, es: seq<Event>, now: Books, a: nat, t: Turn)
    requires a < |b0.assets| == |now.assets| && SameElsewhere(now, ApplyAll(b0, es))
    requires AssetStands(b0, es, now.assets[a], a, t, false) && Written(t, false)
    ensures Deficit(now, a) == 0 <==>
              if SavedIn(es[t.counted..], a) then Deficit(ApplyAll(b0, es), a) == 0
              else Deficit(ApplyAll(b0, es), a) == Deficit(ApplyAll(b0, es[..t.counted]), a)
  {
  }

  lemma {:induction false} NeverSaved(b: Books, es: seq<Event>, m: nat, a: nat)
    requires Undisturbed(b, es, a) && m <= |es|
    ensures !SavedIn(es[m..], a)
  {
    if m < |es| {
      var n := |es| - 1;
      NeverSaved(b, es[..n], m, a);
      assert es[m..] == es[..n][m..] + [es[n]];
      SavedInAppend(es[..n][m..], [es[n]], a);
    }
  }

  /** A verdict that writes nothing. */
  lemma PassedOver(b0: Books, es: seq<Event>, now: Books, report: seq<Verdict>, counted: seq<nat>, dryRun: bool,
                   v: Verdict, mid: nat)
    requires Progress(b0, es, now, report, counted, dryRun) && |report| < |b0.assets| && mid <= |es|
    requires v == Migrated ==> dryRun
    requires v == AlreadyCorrect ==> PassesAsCorrect(b0, es[..mid], |report|)
    requires v == ChangedMeanwhile ==> ApplyAll(b0, es).assets[|report|].version > b0.assets[|report|].version
    ensures Progress(b0, es, now, report + [v], counted + [mid], dryRun)
  {
    forall a: nat | a < |b0.assets|
      ensures AssetStands(b0, es, now.assets[a], a, TurnOf(report + [v], counted + [mid], a), dryRun)
    {
      assert AssetStands(b0, es, now.assets[a], a, TurnOf(report, counted, a), dryRun);
    }
  }

  /** Asset |report|'s turn, after the others' two stretches, when it is written. */
  lemma TurnIsWritten(b0: Books, es: seq<Event>, mid: nat, now: Books, report: seq<Verdict>, counted: seq<nat>,
                      now': Books)
    requires Progress(b0, es, now, report, counted, false) && |report| < |b0.assets| && mid <= |es|
    requires now.assets[|report|].version == b0.assets[|report|].version
    requires now' == now.(assets := now.assets[|report| := Asset(
               Some(Posted(ApplyAll(b0, es[..mid]).rows, |report|)), now.assets[|report|].version + 1,
               b0.assets[|report|].other)])
    ensures Progress(b0, es, now', report + [Migrated], counted + [mid], false)
  {
    assert AssetStands(b0, es, now.assets[|report|], |report|, TurnOf(report, counted, |report|), false);
    WriteIsExact(b0, es, mid, |report|, now);
    forall a: nat | a < |b0.assets|
      ensures AssetStands(b0, es, now'.assets[a], a, TurnOf(report + [Migrated], counted + [mid], a), false)
    {
      assert AssetStands(b0, es, now.assets[a], a, TurnOf(report, counted, a), false);
    }
  }

  lemma TurnIsStale(b0: Books, es: seq<Event>, mid: nat, now: Books, report: seq<Verdict>, counted: seq<nat>)
    requires Progress(b0, es, now, report, counted, false) && |report| < |b0.assets| && mid <= |es|
    requires now.assets[|report|].version != b0.assets[|report|].version
    ensures es != [] && Progress(b0, es, now, report + [ChangedMeanwhile], counted + [mid], false)
  {
    assert AssetStands(b0, es, now.assets[|report|], |report|, TurnOf(report, counted, |report|), false);
    ApplyAllVersion(b0, es, |report|);
    PassedOver(b0, es, now, report, counted, false, ChangedMeanwhile, mid);
  }

  /** One asset's turn takes in two stretches. */
  lemma MeanwhileTwo(turns: nat -> seq<Event>, i: nat)
    ensures Meanwhile(turns, 2 * i + 1) == Meanwhile(turns, 2 * i) + turns(2 * i)
    ensures Meanwhile(turns, 2 * (i + 1)) == Meanwhile(turns, 2 * i) + turns(2 * i) + turns(2 * i + 1)
  {
  }

  /** The verdicts so far: an invalid one is of an asset that does not validate, and
      with no one else about they are the quiet ones. */
  ghost predicate VerdictsFit(b0: Books, report: seq<Verdict>, validates: string -> bool, quiet: bool) {
    && |report| <= |b0.assets|
    && forall a: nat | a < |report| ::
         && (report[a] == Invalid ==> !validates(b0.assets[a].other))
         && (quiet ==> report[a] == QuietVerdict(b0, a, validates))
  }

  lemma NextVerdictFits(b0: Books, es: seq<Event>, first: seq<Event>, second: seq<Event>,
                        report: seq<Verdict>, validates: string -> bool, v: Verdict)
    requires VerdictsFit(b0, report, validates, es == []) && |report| < |b0.assets|
    requires v == ChangedMeanwhile ==> es + first + second != []
    requires v == AlreadyCorrect <==> PassesAsCorrect(b0, es + first, |report|)
    requires v == Invalid <==> v != AlreadyCorrect && !validates(b0.assets[|report|].other)
    ensures VerdictsFit(b0, report + [v], validates, es + first + second == [])
  {
  }

  class Tenant {
    var assets: seq<Asset>
    var rows: seq<ScheduleRow>

    ghost function Now(): (b: Books)
      reads this
    {
      Books(assets, rows)
    }

    method LetOthersRun(es: seq<Event>)
      modifies this
      ensures Now() == ApplyAll(old(Now()), es)
    {
      ghost var b0 := Now();
      for i := 0 to |es|
        invariant Now() == ApplyAll(b0, es[..i])
      {
        assert es[..i + 1][..i] == es[..i];
        var b := Apply(Books(assets, rows), es[i]);
        assets, rows := b.assets, b.rows;
      }
      assert es[..|es|] == es;
    }

    /** Counts an asset's schedule rows that carry a posting date. */
    method Recount(a: nat) returns (count: nat)
      ensures count == Posted(rows, a)
    {
      count := 0;
      for i := 0 to |rows|
        invariant count == Posted(rows[..i], a)
      {
        assert rows[..i + 1][..i] == rows[..i];
        if rows[i].asset == a && rows[i].postedAt != "" {
          count := count + 1;
        }
      }
      assert rows[..|rows|] == rows;
    }

    /** A version-checked replacement of the whole record. */
    method UpdateAsset(a: nat, count: int, other: string, version: nat) returns (ok: bool)
      requires a < |assets|
      modifies this`assets
      ensures ok <==> old(assets)[a].version == version
      ensures assets == if ok then old(assets)[a := Asset(Some(count), version + 1, other)] else old(assets)
    {
      ok := assets[a].version == version;
      if ok {
        assets := assets[a := Asset(Some(count), version + 1, other)];
      }
    }

    /** The others run before the asset's schedule is counted, and again before the
        record is written. */
    method CountMeanwhile(ghost dryRun: bool, ghost report: seq<Verdict>, ghost counted: seq<nat>, a: nat,
                          first: seq<Event>, second: seq<Event>, ghost b0: Books, ghost es: seq<Event>)
      returns (trueCount: nat)
      requires Progress(b0, es, Now(), report, counted, dryRun)
      modifies this
      ensures Progress(b0, es + first + second, Now(), report, counted, dryRun)
      ensures trueCount == Posted(ApplyAll(b0, es + first).rows, a)
    {
      OthersKeepProgress(b0, es, first, Now(), report, counted, dryRun);
      LetOthersRun(first);
      trueCount := Recount(a);
      OthersKeepProgress(b0, es + first, second, Now(), report, counted, dryRun);
      LetOthersRun(second);
    }

    /** What the count then leads to. */
    method Settle(dryRun: bool, validates: string -> bool, listed: Asset, report: seq<Verdict>, trueCount: nat,
                  ghost b0: Books, ghost es: seq<Event>, ghost counted: seq<nat>, ghost mid: nat)
      returns (v: Verdict)
      requires Progress(b0, es, Now(), report, counted, dryRun) && |report| < |b0.assets| && mid <= |es|
      requires listed == b0.assets[|report|] && trueCount == Posted(ApplyAll(b0, es[..mid]).rows, |report|)
      modifies this
      ensures Progress(b0, es, Now(), report + [v], counted + [mid], dryRun)
      ensures v == AlreadyCorrect <==> Stored(listed) == trueCount
      ensures v == Invalid <==> v != AlreadyCorrect && !validates(listed.other)
      ensures v == ChangedMeanwhile ==> es != []
    {
      if Stored(listed) == trueCount {
        PassedOver(b0, es, Now(), report, counted, dryRun, AlreadyCorrect, mid);
        return AlreadyCorrect;
      }
      if !validates(listed.other) {
        PassedOver(b0, es, Now(), report, counted, dryRun, Invalid, mid);
        return Invalid;
      }
      if dryRun {
        PassedOver(b0, es, Now(), report, counted, dryRun, Migrated, mid);
        return Migrated;
      }
      ghost var now := Now();
      var ok := UpdateAsset(|report|, trueCount, listed.other, listed.version);
      if !ok {
        TurnIsStale(b0, es, mid, now, report, counted);
        return ChangedMeanwhile;
      }
      TurnIsWritten(b0, es, mid, now, report, counted, Now());
      return Migrated;
    }

    /** Asset |report|'s turn in the loop. */
    method BackfillOne(dryRun: bool, validates: string -> bool, listed: Asset, report: seq<Verdict>,
                       first: seq<Event>, second: seq<Event>,
                       ghost b0: Books, ghost es: seq<Event>, ghost counted: seq<nat>)
      returns (v: Verdict)
      requires Progress(b0, es, Now(), report, counted, dryRun) && |report| < |b0.assets|
      requires listed == b0.assets[|report|]
      modifies this
      ensures Progress(b0, es + first + second, Now(), report + [v], counted + [|es + first|], dryRun)
      ensures v == AlreadyCorrect <==> PassesAsCorrect(b0, es + first, |report|)
      ensures v == Invalid <==> v != AlreadyCorrect && !validates(listed.other)
      ensures v == ChangedMeanwhile ==> es + first + second != []
    {
      var trueCount := CountMeanwhile(dryRun, report, counted, |report|, first, second, b0, es);
      assert (es + first + second)[..|es + first|] == es + first;
      v := Settle(dryRun, validates, listed, report, trueCount, b0, es + first + second, counted, |es + first|);
    }

    /** One pass over the assets, whatever anybody else does meanwhile. Of an asset
        nobody saves or edits the rows of: migrated, it ends exactly right and stays so,
        otherwise it keeps its deficit, and reported correct it is exact unless its
        counter was ahead when listed. Of any other Progress says by how much it is off.
        Nobody's edit or posting is lost, a dry run writes nothing, and with no one else
        about the verdicts are the quiet ones. */
    method Backfill(dryRun: bool, validates: string -> bool, turns: nat -> seq<Event>)
      returns (report: seq<Verdict>, ghost counted: seq<nat>)
      modifies this
      ensures |report| == |counted| == |assets| == old(|assets|)
      ensures forall a | 0 <= a < |assets| :: counted[a] == |Meanwhile(turns, 2 * a + 1)|
      ensures Progress(old(Now()), Meanwhile(turns, 2 * |assets|), Now(), report, counted, dryRun)
      ensures forall a | 0 <= a < |assets| && Undisturbed(old(Now()), Meanwhile(turns, 2 * |assets|), a) ::
                && Deficit(Now(), a) == (if report[a] == Migrated && !dryRun then 0 else Deficit(old(Now()), a))
                && (report[a] == AlreadyCorrect ==> Deficit(old(Now()), a) <= 0)
      ensures forall a | 0 <= a < |assets| :: report[a] == Invalid ==> !validates(old(assets)[a].other)
      ensures Meanwhile(turns, 2 * |assets|) == [] ==>
                forall a | 0 <= a < |assets| :: report[a] == QuietVerdict(old(Now()), a, validates)
    {
      ghost var b0 := Now();
      var listed := assets;
      report, counted := [], [];
      for i := 0 to |listed|
        invariant |report| == |counted| == i && |assets| == |listed|
        invariant forall a | 0 <= a < i :: counted[a] == |Meanwhile(turns, 2 * a + 1)|
        invariant Progress(b0, Meanwhile(turns, 2 * i), Now(), report, counted, dryRun)
        invariant VerdictsFit(b0, report, validates, Meanwhile(turns, 2 * i) == [])
      {
        ghost var es := Meanwhile(turns, 2 * i);
        MeanwhileTwo(turns, i);
        var v := BackfillOne(dryRun, validates, listed[i], report, turns(2 * i), turns(2 * i + 1), b0, es, counted);
        NextVerdictFits(b0, es, turns(2 * i), turns(2 * i + 1), report, validates, v);
        report, counted := report + [v], counted + [|es + turns(2 * i)|];
      }
      forall a: nat | a < |assets| && Undisturbed(b0, Meanwhile(turns, 2 * |assets|), a)
        ensures Deficit(Now(), a) == if report[a] == Migrated && !dryRun then 0 else Deficit(b0, a)
        ensures report[a] == AlreadyCorrect ==> Deficit(b0, a) <= 0
      {
        UndisturbedStands(b0, Meanwhile(turns, 2 * |assets|), Now(), a, TurnOf(report, counted, a), dryRun);
      }
    }
  }
}
