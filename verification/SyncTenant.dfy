/**
 Syncing one tenant: what it has is read off its registry, and only that is
 brought up to the binary's definitions, or, on a dry run, reported.
 */
module SyncTenant {
  import opened SyncRegistry
  import opened SyncPlanner

  const FOUNDATION := "foundation"

  /** The binary: foundation, and the modules a tenant may have besides. */
  datatype Binary = Binary(foundation: Publisher, optional: map<string, Publisher>)

  datatype Outcome =
    | Skipped
    | Reported(synced: bool, present: seq<string>, changes: seq<Change>, blocked: seq<Blocked>)

  function Itself(m: string): string { m }

  ghost predicate ListsModules(present: seq<string>, rows: Registry) {
    Lists(present, Itself, m => m in Modules(rows))
  }

  /** What is published for a tenant that has these modules: foundation first, then
      the optional ones in order; a module the binary does not know is left alone. */
  function OptionalOf(bin: Binary, present: seq<string>): seq<Publisher> {
    if present == [] then []
    else
      var m := present[0];
      (if m != FOUNDATION && m in bin.optional then [bin.optional[m]] else []) + OptionalOf(bin, present[1..])
  }

  function PlanOf(bin: Binary, present: seq<string>): seq<Publisher> {
    [bin.foundation] + OptionalOf(bin, present)
  }

  function DefinitionsOf(bin: Binary, present: seq<string>): seq<Definition> {
    AllDefinitions(PlanOf(bin, present))
  }

  class Tenant {
    var rows: Registry
    var left: nat
    const lands: bool

    ghost function Now(): Store
      reads this
    {
      Store(rows, left, lands)
    }

    /** One write to the registry's database. */
    method Put(k: Key, row: Row) returns (ok: bool)
      modifies this
      ensures Progress(Now(), ok) == Write(Progress(old(Now()), true), k, row)
    {
      ok := left > 0;
      if ok || lands {
        rows := rows[k := row];
      }
      if ok {
        left := left - 1;
      }
    }

    /** A call that does not write the entity registry. */
    method Call() returns (ok: bool)
      modifies this`left
      ensures Progress(Now(), ok) == Other(Progress(old(Now()), true))
    {
      ok := left > 0;
      if ok {
        left := left - 1;
      }
    }

    method PublishDefinition(d: Definition) returns (ok: bool)
      modifies this
      ensures Progress(Now(), ok) == PublishOne(old(Now()), d)
    {
      var k := Slot(d);
      ok := Call();
      if !ok {
        return;
      }
      if k !in rows {
        ok := Put(k, Row(Draft, d.home));
        if !ok {
          return;
        }
      }
      if rows[k].status == Published || rows[k].status == RolledBack {
        return;
      }
      if rows[k].status == Draft {
        ok := Put(k, rows[k].(status := Approved));
        if !ok {
          return;
        }
      }
      ok := Put(k, rows[k].(status := Published));
    }

    method PublishDefinitions(defs: seq<Definition>) returns (ok: bool)
      modifies this
      ensures Progress(Now(), ok) == PublishAll(old(Now()), defs)
    {
      for i := 0 to |defs|
        invariant PublishAll(Now(), defs[i..]) == PublishAll(old(Now()), defs)
      {
        assert defs[i..][1..] == defs[i + 1..];
        ok := PublishDefinition(defs[i]);
        if !ok {
          return;
        }
      }
      ok := true;
    }

    method Publish(m: Publisher) returns (ok: bool)
      modifies this
      ensures Progress(Now(), ok) == PublishModule(old(Now()), m)
    {
      ok := PublishDefinitions(m.definitions);
      if !ok {
        return;
      }
      ok := Call();
      if ok && m.hasStatuses {
        ok := Call();
      }
    }

    /** Foundation, then each optional module until one fails. */
    method PublishPresent(bin: Binary, optional: seq<Publisher>) returns (ok: bool)
      modifies this
      ensures Progress(Now(), ok) == PublishModules(old(Now()), [bin.foundation] + optional)
    {
      assert ([bin.foundation] + optional)[1..] == optional;
      ok := Publish(bin.foundation);
      ghost var st := Now();
      ghost var ok0 := ok;
      var i := 0;
      while ok && i < |optional|
        invariant i <= |optional|
        invariant ok ==> ok0 && PublishModules(Now(), optional[i..]) == PublishModules(st, optional)
        invariant !ok && ok0 ==> Progress(Now(), false) == PublishModules(st, optional)
        invariant !ok0 ==> Now() == st
        decreases |optional| - i
      {
        assert optional[i..][1..] == optional[i + 1..];
        ok := Publish(optional[i]);
        i := i + 1;
      }
    }

    /** The distinct modules with something published, in order. */
    method PublishedModules() returns (present: seq<string>)
      ensures ListsModules(present, rows)
    {
      var todo := Modules(rows);
      ghost var all := todo;
      ghost var wanted := (m: string) => m in all;
      present := [];
      while todo != {}
        invariant todo <= Modules(rows)
        invariant Collected(present, Itself, wanted, todo)
        decreases |todo|
      {
        var m :| m in todo;
        CollectOne(present, Itself, wanted, todo, m);
        todo := todo - {m};
        present := present + [m];
      }
      present := Sort(present, Itself, wanted);
    }

    /** Per published type, its highest published version. */
    method PublishedVersions() returns (m: Versions)
      ensures m == CurrentOf(rows)
    {
      m := map[];
      var todo := rows.Keys;
      while todo != {}
        invariant todo <= rows.Keys
        invariant forall k | k in rows && k !in todo && rows[k].status == Published ::
                    k.entityType in m && k.version <= m[k.entityType]
        invariant forall t | t in m :: Key(t, m[t]) in rows && rows[Key(t, m[t])].status == Published
        decreases |todo|
      {
        var k :| k in todo;
        todo := todo - {k};
        if rows[k].status == Published && (k.entityType in m ==> m[k.entityType] < k.version) {
          m := m[k.entityType := k.version];
        }
      }
      CurrentIsUnique(rows, m, CurrentOf(rows));
    }

    /** Publishes what this tenant has, or reports what that would do. Without
        foundation it touches nothing. */
    method Sync(bin: Binary, dryRun: bool) returns (o: Outcome)
      modifies this
      ensures o == Skipped <==> FOUNDATION !in Modules(old(rows))
      ensures o == Skipped || dryRun ==> Now() == old(Now())
      ensures o != Skipped ==> ListsModules(o.present, old(rows))
      ensures o != Skipped && dryRun ==>
                o.synced && PlanReport(rows, DefinitionsOf(bin, o.present), o.changes, o.blocked)
      ensures o != Skipped && !dryRun ==>
                && Progress(Now(), o.synced) == PublishModules(old(Now()), PlanOf(bin, o.present))
                && RunReport(old(rows), rows, DefinitionsOf(bin, o.present), o.changes, o.blocked)
    {
      var present := PublishedModules();
      if FOUNDATION !in present {
        return Skipped;
      }
      var optional := OptionalModules(bin, present);
      var defs := AllDefinitions([bin.foundation] + optional);
      var before := PublishedVersions();
      if dryRun {
        var changes, blocked := PlannedChanges(rows, before, defs);
        return Reported(true, present, changes, blocked);
      }
      var ok := PublishPresent(bin, optional);
      var after := PublishedVersions();
      var changes := DiffVersions(before, after);
      var blocked := BlockedAfterPublish(rows, after, defs);
      return Reported(ok, present, changes, blocked);
    }
  }

  /** Of the modules a tenant has, those the binary publishes besides foundation. */
  method OptionalModules(bin: Binary, present: seq<string>) returns (optional: seq<Publisher>)
    ensures optional == OptionalOf(bin, present)
  {
    optional := [];
    for i := 0 to |present|
      invariant optional + OptionalOf(bin, present[i..]) == OptionalOf(bin, present)
    {
      var m := present[i];
      assert present[i..][0] == m && present[i..][1..] == present[i + 1..];
      if m != FOUNDATION && m in bin.optional {
        optional := optional + [bin.optional[m]];
      }
    }
  }

  /** What the binary would publish, by type. */
  method WantedVersions(defs: seq<Definition>) returns (want: Versions)
    ensures want == Wanted(defs)
  {
    want := map[];
    for i := 0 to |defs|
      invariant want == Wanted(defs[..i])
    {
      assert defs[..i + 1][..i] == defs[..i];
      want := want[defs[i].entityType := defs[i].version];
    }
    assert defs[..|defs|] == defs;
  }

  method DiffVersions(before: Versions, after: Versions) returns (changes: seq<Change>)
    ensures Lists(changes, ChangeType, c => Moved(before, after, c))
  {
    ghost var wanted := c => Moved(before, after, c);
    changes := [];
    var todo := after.Keys;
    while todo != {}
      invariant todo <= after.Keys
      invariant Collected(changes, ChangeType, wanted, todo)
      decreases |todo|
    {
      var t :| t in todo;
      if t !in before {
        CollectOne(changes, ChangeType, wanted, todo, Change(t, 0, after[t]));
        changes := changes + [Change(t, 0, after[t])];
      } else if after[t] != before[t] {
        CollectOne(changes, ChangeType, wanted, todo, Change(t, before[t], after[t]));
        changes := changes + [Change(t, before[t], after[t])];
      } else {
        CollectNone(changes, ChangeType, wanted, todo, t);
      }
      todo := todo - {t};
    }
    changes := Sort(changes, ChangeType, wanted);
  }

  method PlannedChanges(rows: Registry, before: Versions, defs: seq<Definition>)
    returns (changes: seq<Change>, blocked: seq<Blocked>)
    ensures Lists(changes, ChangeType, c => Planned(rows, before, Wanted(defs), c))
    ensures Lists(blocked, BlockedType, b => Stuck(rows, before, Wanted(defs), b))
  {
    var want := WantedVersions(defs);
    ghost var planned := c => Planned(rows, before, Wanted(defs), c);
    ghost var stuck := b => Stuck(rows, before, Wanted(defs), b);
    changes, blocked := [], [];
    var todo := want.Keys;
    while todo != {}
      invariant todo <= want.Keys
      invariant Collected(changes, ChangeType, planned, todo)
      invariant Collected(blocked, BlockedType, stuck, todo)
      decreases |todo|
    {
      var t :| t in todo;
      if t in before && want[t] <= before[t] {
        CollectNone(changes, ChangeType, planned, todo, t);
        CollectNone(blocked, BlockedType, stuck, todo, t);
      } else if RolledBackAt(rows, t, want[t]) {
        CollectNone(changes, ChangeType, planned, todo, t);
        CollectOne(blocked, BlockedType, stuck, todo, Blocked(t, want[t]));
        blocked := blocked + [Blocked(t, want[t])];
      } else {
        var from := if t in before then before[t] else 0;
        CollectOne(changes, ChangeType, planned, todo, Change(t, from, want[t]));
        CollectNone(blocked, BlockedType, stuck, todo, t);
        changes := changes + [Change(t, from, want[t])];
      }
      todo := todo - {t};
    }
    changes := Sort(changes, ChangeType, planned);
    blocked := Sort(blocked, BlockedType, stuck);
  }

  method BlockedAfterPublish(rows: Registry, after: Versions, defs: seq<Definition>) returns (blocked: seq<Blocked>)
    ensures Lists(blocked, BlockedType, b => Stuck(rows, after, Wanted(defs), b))
  {
    var want := WantedVersions(defs);
    ghost var stuck := b => Stuck(rows, after, Wanted(defs), b);
    blocked := [];
    var todo := want.Keys;
    while todo != {}
      invariant todo <= want.Keys
      invariant Collected(blocked, BlockedType, stuck, todo)
      decreases |todo|
    {
      var t :| t in todo;
      if !(t in after && after[t] >= want[t]) && RolledBackAt(rows, t, want[t]) {
        CollectOne(blocked, BlockedType, stuck, todo, Blocked(t, want[t]));
        blocked := blocked + [Blocked(t, want[t])];
      } else {
        CollectNone(blocked, BlockedType, stuck, todo, t);
      }
      todo := todo - {t};
    }
    blocked := Sort(blocked, BlockedType, stuck);
  }

  /** Every built-in definition carries the key of the module that publishes it. */
  predicate AtHome(bin: Binary) {
    && (forall d | d in bin.foundation.definitions :: d.home == FOUNDATION)
    && (forall m | m in bin.optional :: forall d | d in bin.optional[m].definitions :: d.home == m)
  }

  lemma {:induction false} OptionalIsAtHome(bin: Binary, present: seq<string>)
    requires AtHome(bin)
    ensures forall d | d in AllDefinitions(OptionalOf(bin, present)) :: d.home in present
    decreases |present|
  {
    if present != [] {
      OptionalIsAtHome(bin, present[1..]);
      var m, rest := present[0], OptionalOf(bin, present[1..]);
      if m != FOUNDATION && m in bin.optional {
        assert ([bin.optional[m]] + rest)[1..] == rest;
      } else {
        assert [] + rest == rest;
      }
    }
  }

  lemma PlanIsAtHome(bin: Binary, present: seq<string>, rows: Registry)
    requires AtHome(bin) && ListsModules(present, rows) && FOUNDATION in Modules(rows)
    ensures forall d | d in DefinitionsOf(bin, present) :: d.home in Modules(rows)
  {
    OptionalIsAtHome(bin, present);
    assert PlanOf(bin, present)[1..] == OptionalOf(bin, present);
    assert DefinitionsOf(bin, present) == bin.foundation.definitions + AllDefinitions(OptionalOf(bin, present));
    assert forall m | m in present :: m in Modules(rows);
  }

  /** Syncing never grants a module, wherever it stops, exactly when no draft at a
      wanted version was left by a module the tenant does not have. */
  lemma SyncGrantsNoModule(bin: Binary, present: seq<string>, rows: Registry)
    requires AtHome(bin) && ListsModules(present, rows) && FOUNDATION in Modules(rows)
    ensures (forall left: nat, lands ::
               Modules(PublishModules(Store(rows, left, lands), PlanOf(bin, present)).store.rows) == Modules(rows))
            <==> OwnDrafts(rows, DefinitionsOf(bin, present))
  {
    PlanIsAtHome(bin, present, rows);
    RunGrantsNoModule(rows, PlanOf(bin, present));
  }
}
