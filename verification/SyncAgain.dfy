/**
 Syncing a tenant a second time. The modules it has are read anew, and the first run
 may have added one: publishing a draft another module left at a version the run
 wanted. Then the second run has that module's definitions to publish as well.
 */
module SyncAgain {
  import opened SyncRegistry
  import opened SyncPlanner
  import opened SyncTenant

  // --------------------------------------------------- the modules, read off

  lemma {:induction false} InsertInOrder(s: seq<string>, m: string) returns (t: seq<string>)
    requires DistinctKeys(s, Itself) && Sorted(s, Itself) && m !in s
    ensures DistinctKeys(t, Itself) && Sorted(t, Itself) && forall x :: x in t <==> x in s || x == m
    decreases |s|
  {
    if s == [] {
      t := [m];
      LessTotal(m, m);
    } else if Less(m, s[0]) {
      t := [m] + s;
      forall i | 0 <= i < |s|
        ensures !Less(s[i], m)
      {
        LessTotal(s[i], m);
        LessTotal(s[0], s[0]);
        LessTrans(s[i], m, s[0]);
      }
    } else {
      var rest := InsertInOrder(s[1..], m);
      assert s == [s[0]] + s[1..];
      t := [s[0]] + rest;
      assert forall i | 0 <= i < |rest| :: rest[i] in rest && (rest[i] in s[1..] || rest[i] == m);
    }
  }

  lemma {:induction false} InOrder(ms: set<string>) returns (s: seq<string>)
    ensures Lists(s, Itself, m => m in ms)
    decreases |ms|
  {
    if ms == {} {
      s := [];
    } else {
      var m :| m in ms;
      s := InOrder(ms - {m});
      s := InsertInOrder(s, m);
    }
  }

  /** The modules a sync finds, in order. */
  ghost function PresentOf(rows: Registry): (present: seq<string>)
    ensures ListsModules(present, rows)
  {
    assert exists present :: ListsModules(present, rows) by {
      var present := InOrder(Modules(rows));
      assert ListsModules(present, rows);
    }
    var present :| ListsModules(present, rows);
    present
  }

  lemma PresentIsUnique(rows: Registry, present: seq<string>)
    requires ListsModules(present, rows)
    ensures present == PresentOf(rows)
  {
    ListsIsUnique(present, PresentOf(rows), Itself, m => m in Modules(rows));
  }

  /** What a sync of this registry would publish. */
  ghost function Offered(bin: Binary, rows: Registry): seq<Definition> {
    DefinitionsOf(bin, PresentOf(rows))
  }

  /** A sync that publishes, from what the registry holds when it starts. */
  ghost function SyncOnce(bin: Binary, st: Store): Progress {
    PublishModules(st, PlanOf(bin, PresentOf(st.rows)))
  }

  /** That is what the method publishes, whatever list of the modules it made. */
  lemma SyncPublishesOnce(bin: Binary, st: Store, present: seq<string>)
    requires ListsModules(present, st.rows)
    ensures PublishModules(st, PlanOf(bin, present)) == SyncOnce(bin, st)
    ensures DefinitionsOf(bin, present) == Offered(bin, st.rows)
  {
    PresentIsUnique(st.rows, present);
  }

  // ------------------------------------------------------- what is published

  /** This definition is published for a tenant with these modules. */
  predicate Offers(bin: Binary, modules: set<string>, d: Definition) {
    || d in bin.foundation.definitions
    || exists m | m in modules :: Brings(bin, m, d)
  }

  /** It comes with this optional module. */
  predicate Brings(bin: Binary, m: string, d: Definition) {
    m != FOUNDATION && m in bin.optional && d in bin.optional[m].definitions
  }

  lemma {:induction false} OptionalBrings(bin: Binary, present: seq<string>, d: Definition)
    ensures d in AllDefinitions(OptionalOf(bin, present)) <==> exists m | m in present :: Brings(bin, m, d)
    decreases |present|
  {
    if present != [] {
      var m, rest := present[0], OptionalOf(bin, present[1..]);
      OptionalBrings(bin, present[1..], d);
      assert forall x :: x in present <==> x == m || x in present[1..];
      if m != FOUNDATION && m in bin.optional {
        assert ([bin.optional[m]] + rest)[1..] == rest;
        assert AllDefinitions(OptionalOf(bin, present)) == bin.optional[m].definitions + AllDefinitions(rest);
      } else {
        assert [] + rest == rest;
      }
      if d in AllDefinitions(OptionalOf(bin, present)) && !Brings(bin, m, d) {
        assert d in AllDefinitions(rest);
      }
    }
  }

  lemma OfferedIsOffers(bin: Binary, rows: Registry, d: Definition)
    ensures d in Offered(bin, rows) <==> Offers(bin, Modules(rows), d)
  {
    var present := PresentOf(rows);
    OptionalBrings(bin, present, d);
    assert PlanOf(bin, present)[1..] == OptionalOf(bin, present);
    assert Offered(bin, rows) == bin.foundation.definitions + AllDefinitions(OptionalOf(bin, present));
    assert forall m :: m in present <==> m in Modules(rows);
  }

  lemma WantsIs(defs: seq<Definition>, k: Key)
    ensures Wants(defs, k) <==> exists d | d in defs :: Slot(d) == k
  {
    if d :| d in defs && Slot(d) == k {
      var i :| 0 <= i < |defs| && defs[i] == d;
      assert Slot(defs[i]) == k;
    }
  }

  // -------------------------------------------------- what a run may add

  /** The modules, not the tenant's, whose drafts a run of these definitions publishes. */
  function Gained(rows: Registry, defs: seq<Definition>): set<string> {
    set k | k in rows && !Settled(rows, k) && Wants(defs, k) && rows[k].home != "" && rows[k].home !in Modules(rows) ::
      rows[k].home
  }

  lemma ModulesAfter(bin: Binary, rows: Registry)
    requires AtHome(bin) && FOUNDATION in Modules(rows)
    ensures Modules(Advance(rows, Offered(bin, rows))) == Modules(rows) + Gained(rows, Offered(bin, rows))
  {
    var defs := Offered(bin, rows);
    var after := Advance(rows, defs);
    PlanIsAtHome(bin, PresentOf(rows), rows);
    AdvanceSettles(rows, defs);
    ModulesGrow(rows, after);
    forall m | m in Modules(after)
      ensures m in Modules(rows) + Gained(rows, defs)
    {
      var k :| k in after && after[k].status == Published && after[k].home == m && m != "";
      AdvanceRowByRow(rows, defs, k);
    }
    forall m | m in Gained(rows, defs)
      ensures m in Modules(after)
    {
      var k :| k in rows && !Settled(rows, k) && Wants(defs, k) && rows[k].home == m && m != "";
      AdvanceRowByRow(rows, defs, k);
    }
  }

  /** Cut short anywhere, a run has added no more than that. */
  lemma ModulesMeanwhile(bin: Binary, rows: Registry, left: nat, lands: bool)
    requires AtHome(bin) && FOUNDATION in Modules(rows)
    ensures var partial := SyncOnce(bin, Store(rows, left, lands)).store.rows;
      && Modules(rows) <= Modules(partial) <= Modules(rows) + Gained(rows, Offered(bin, rows))
      && Advance(partial, Offered(bin, rows)) == Advance(rows, Offered(bin, rows))
      && SettledStays(rows, partial)
  {
    var defs, partial := Offered(bin, rows), SyncOnce(bin, Store(rows, left, lands)).store.rows;
    PublishModulesAdvances(Store(rows, left, lands), PlanOf(bin, PresentOf(rows)));
    ModulesGrow(rows, partial);
    AdvanceSettles(partial, defs);
    ModulesGrow(partial, Advance(partial, defs));
    ModulesAfter(bin, rows);
  }

  // ------------------------------------------------ what the second plans

  predicate Defines(bin: Binary, d: Definition) {
    Offers(bin, bin.optional.Keys, d)
  }

  /** The binary defines no type at two versions. */
  ghost predicate OneVersion(bin: Binary) {
    forall d, e :: Defines(bin, d) && Defines(bin, e) && d.entityType == e.entityType ==> d.version == e.version
  }

  /** No two of its modules define the same version of a type. */
  ghost predicate OneHome(bin: Binary) {
    forall d, e :: Defines(bin, d) && Defines(bin, e) && Slot(d) == Slot(e) ==> d.home == e.home
  }

  lemma OfferedIsDefined(bin: Binary, rows: Registry, d: Definition)
    requires d in Offered(bin, rows)
    ensures Defines(bin, d)
  {
    OfferedIsOffers(bin, rows, d);
  }

  /** The version a sync wants of a type is that of any definition of it. */
  lemma WantedVersion(bin: Binary, rows: Registry, t: string) returns (d: Definition)
    requires OneVersion(bin)
    ensures var want := Wanted(Offered(bin, rows));
      && (t in want ==> d in Offered(bin, rows) && d.entityType == t)
      && (t in want ==> forall e | Defines(bin, e) && e.entityType == t :: e.version == want[t])
      && (t !in want ==> forall e | e in Offered(bin, rows) :: e.entityType != t)
  {
    var defs := Offered(bin, rows);
    var i := WantedIsLast(defs, t);
    d := Definition(t, 0, "");
    if t in Wanted(defs) {
      d := defs[i];
      OfferedIsDefined(bin, rows, d);
    }
  }

  /** Rolled back at this version, or there already. */
  ghost predicate UpToDate(rows: Registry, t: string, v: nat) {
    RolledBackAt(rows, t, v) || (t in CurrentOf(rows) && v <= CurrentOf(rows)[t])
  }

  predicate Plans(rows: Registry, before: Versions, want: Versions, t: string) {
    Behind(before, want, t) && !RolledBackAt(rows, t, want[t])
  }

  /** What the first run wanted it has left up to date. */
  lemma WantedIsUpToDate(rows: Registry, defs: seq<Definition>, d: Definition)
    requires d in defs
    ensures UpToDate(Advance(rows, defs), d.entityType, d.version)
  {
    WantsIs(defs, Slot(d));
    AdvanceRowByRow(rows, defs, Slot(d));
  }

  /** And of a type it did not want nothing has changed. */
  lemma UnwantedIsAsBefore(rows: Registry, defs: seq<Definition>, t: string, v: nat)
    requires forall e | e in defs :: e.entityType != t
    ensures UpToDate(Advance(rows, defs), t, v) <==> UpToDate(rows, t, v)
  {
    var after := Advance(rows, defs);
    forall w: nat
      ensures (Key(t, w) in after <==> Key(t, w) in rows) && (Key(t, w) in rows ==> after[Key(t, w)] == rows[Key(t, w)])
    {
      AdvanceRowByRow(rows, defs, Key(t, w));
    }
    if t in CurrentOf(rows) {
      assert Key(t, CurrentOf(rows)[t]) in after;
    }
    if t in CurrentOf(after) {
      assert Key(t, CurrentOf(after)[t]) in rows;
    }
  }

  /** A definition that comes with a module the first run added, and that it left undone. */
  ghost predicate Undone(bin: Binary, rows: Registry, m: string, d: Definition) {
    && m in Gained(rows, Offered(bin, rows)) && Brings(bin, m, d)
    && d.entityType !in Wanted(Offered(bin, rows)) && !UpToDate(rows, d.entityType, d.version)
  }

  lemma PlannedIsUndone(bin: Binary, rows: Registry, t: string) returns (m: string, d: Definition)
    requires AtHome(bin) && OneVersion(bin) && FOUNDATION in Modules(rows)
    requires var after := Advance(rows, Offered(bin, rows));
      Plans(after, CurrentOf(after), Wanted(Offered(bin, after)), t)
    ensures Undone(bin, rows, m, d)
  {
    var defs := Offered(bin, rows);
    var after := Advance(rows, defs);
    d := WantedVersion(bin, after, t);
    OfferedIsDefined(bin, after, d);
    assert !UpToDate(after, t, d.version);
    var e := WantedVersion(bin, rows, t);
    if t in Wanted(defs) {
      OfferedIsDefined(bin, rows, e);
      WantedIsUpToDate(rows, defs, e);
    }
    UnwantedIsAsBefore(rows, defs, t, d.version);
    OfferedIsOffers(bin, after, d);
    OfferedIsOffers(bin, rows, d);
    m :| m in Modules(after) && Brings(bin, m, d);
    ModulesAfter(bin, rows);
  }

  lemma UndoneIsPlanned(bin: Binary, rows: Registry, m: string, d: Definition)
    requires AtHome(bin) && OneVersion(bin) && FOUNDATION in Modules(rows) && Undone(bin, rows, m, d)
    ensures var after := Advance(rows, Offered(bin, rows));
      Plans(after, CurrentOf(after), Wanted(Offered(bin, after)), d.entityType)
  {
    var defs := Offered(bin, rows);
    var after := Advance(rows, defs);
    ModulesAfter(bin, rows);
    OfferedIsOffers(bin, after, d);
    OfferedIsDefined(bin, after, d);
    var _ := WantedVersion(bin, after, d.entityType);
    var _ := WantedVersion(bin, rows, d.entityType);
    UnwantedIsAsBefore(rows, defs, d.entityType, d.version);
  }

  /** After a complete run another plans nothing, exactly when every definition of a
      known module that the first run added was wanted by that run too, or was
      already published or rolled back. */
  lemma SecondSyncIsQuietExactlyWhen(bin: Binary, rows: Registry, changes: seq<Change>, blocked: seq<Blocked>)
    requires AtHome(bin) && OneVersion(bin) && FOUNDATION in Modules(rows)
    requires var after := Advance(rows, Offered(bin, rows)); PlanReport(after, Offered(bin, after), changes, blocked)
    ensures changes == [] <==> forall m, d :: !Undone(bin, rows, m, d)
  {
    var after := Advance(rows, Offered(bin, rows));
    var before, want := CurrentOf(after), Wanted(Offered(bin, after));
    if changes != [] {
      assert changes[0] in changes;
      var m, d := PlannedIsUndone(bin, rows, changes[0].entityType);
    }
    forall m, d | Undone(bin, rows, m, d)
      ensures changes != []
    {
      UndoneIsPlanned(bin, rows, m, d);
      var c := Change(d.entityType, From(before, d.entityType), want[d.entityType]);
      assert Planned(after, before, want, c);
      assert c in changes;
    }
  }

  /** Where the first run was stuck the second is, and elsewhere only at types that come
      with a module the first run added. */
  lemma SecondSyncIsStuckAgain(bin: Binary, rows: Registry, b: Blocked)
    requires AtHome(bin) && OneVersion(bin) && FOUNDATION in Modules(rows)
    ensures var after := Advance(rows, Offered(bin, rows));
      && (Stuck(after, CurrentOf(after), Wanted(Offered(bin, rows)), b) ==>
          Stuck(after, CurrentOf(after), Wanted(Offered(bin, after)), b))
      && (Stuck(after, CurrentOf(after), Wanted(Offered(bin, after)), b) ==>
          || Stuck(after, CurrentOf(after), Wanted(Offered(bin, rows)), b)
          || exists m, d | m in Gained(rows, Offered(bin, rows)) && Brings(bin, m, d) :: d.entityType == b.entityType)
  {
    var after := Advance(rows, Offered(bin, rows));
    ModulesAfter(bin, rows);
    var d := WantedVersion(bin, rows, b.entityType);
    var e := WantedVersion(bin, after, b.entityType);
    OfferedIsOffers(bin, rows, d);
    OfferedIsOffers(bin, after, d);
    OfferedIsOffers(bin, rows, e);
    OfferedIsOffers(bin, after, e);
    if b.entityType in Wanted(Offered(bin, rows)) {
      OfferedIsDefined(bin, rows, d);
    }
  }

  lemma NothingGainedExactlyWhen(rows: Registry, defs: seq<Definition>)
    ensures Gained(rows, defs) == {} <==> OwnDrafts(rows, defs)
  {
    if k :| k in rows && !Settled(rows, k) && Wants(defs, k) && rows[k].home != "" && rows[k].home !in Modules(rows) {
      assert rows[k].home in Gained(rows, defs);
    }
  }

  /** If the first run adds no module, the second plans nothing and reports the same as stuck. */
  lemma NothingGainedNothingNew(bin: Binary, rows: Registry, changes: seq<Change>, blocked: seq<Blocked>,
                                changes': seq<Change>, blocked': seq<Blocked>)
    requires AtHome(bin) && OneVersionPerType(Offered(bin, rows)) && FOUNDATION in Modules(rows)
    requires OwnDrafts(rows, Offered(bin, rows))
    requires var after := Advance(rows, Offered(bin, rows));
      && RunReport(rows, after, Offered(bin, rows), changes, blocked)
      && PlanReport(after, Offered(bin, after), changes', blocked')
    ensures changes' == [] && blocked' == blocked
  {
    var after := Advance(rows, Offered(bin, rows));
    NothingGainedExactlyWhen(rows, Offered(bin, rows));
    ModulesAfter(bin, rows);
    SameLists(PresentOf(rows), PresentOf(after), Itself, m => m in Modules(rows), m => m in Modules(after));
    SecondRunIsQuiet(rows, Offered(bin, rows), changes, blocked, changes', blocked');
  }

  // -------------------------------------------- resuming with the second run

  /** A definition that comes with a module the first run may add, of a version that
      run neither wants nor finds settled. */
  ghost predicate Beyond(bin: Binary, rows: Registry, m: string, d: Definition) {
    && m in Gained(rows, Offered(bin, rows)) && Brings(bin, m, d)
    && !Wants(Offered(bin, rows), Slot(d)) && !Settled(rows, Slot(d))
  }

  /** Row by row: more definitions than were wanted make no difference where they are
      settled, and where they are wanted too the home is the same. */
  lemma SameAdvance(rows: Registry, few: seq<Definition>, more: seq<Definition>)
    requires forall k | Wants(few, k) :: Wants(more, k)
    requires forall k | Wants(more, k) :: Wants(few, k) || Settled(rows, k)
    requires forall d, e | d in few && e in more && Slot(d) == Slot(e) :: d.home == e.home
    ensures Advance(rows, more) == Advance(rows, few)
  {
    forall k
      ensures k in Advance(rows, more) <==> k in Advance(rows, few)
      ensures k in Advance(rows, few) ==> Advance(rows, more)[k] == Advance(rows, few)[k]
    {
      AdvanceRowByRow(rows, few, k);
      AdvanceRowByRow(rows, more, k);
    }
  }

  lemma ResumedIsComplete(bin: Binary, rows: Registry, left: nat, lands: bool)
    requires AtHome(bin) && OneHome(bin) && FOUNDATION in Modules(rows)
    requires forall m, d :: !Beyond(bin, rows, m, d)
    ensures var partial := SyncOnce(bin, Store(rows, left, lands)).store.rows;
      Advance(partial, Offered(bin, partial)) == Advance(rows, Offered(bin, rows))
  {
    var partial := SyncOnce(bin, Store(rows, left, lands)).store.rows;
    var few, more := Offered(bin, rows), Offered(bin, partial);
    ModulesMeanwhile(bin, rows, left, lands);
    forall k | Wants(few, k)
      ensures Wants(more, k)
    {
      WantsIs(few, k);
      var d :| d in few && Slot(d) == k;
      OfferedIsOffers(bin, rows, d);
      OfferedIsOffers(bin, partial, d);
      WantsIs(more, k);
    }
    forall k | Wants(more, k)
      ensures Wants(few, k) || Settled(partial, k)
    {
      WantsIs(more, k);
      var d :| d in more && Slot(d) == k;
      ExtraIsSettled(bin, rows, partial, d);
    }
    forall d, e | d in few && e in more && Slot(d) == Slot(e)
      ensures d.home == e.home
    {
      OfferedIsDefined(bin, rows, d);
      OfferedIsDefined(bin, partial, e);
    }
    SameAdvance(partial, few, more);
  }

  lemma ExtraIsSettled(bin: Binary, rows: Registry, partial: Registry, d: Definition)
    requires Modules(partial) <= Modules(rows) + Gained(rows, Offered(bin, rows)) && SettledStays(rows, partial)
    requires forall m, e :: !Beyond(bin, rows, m, e)
    requires d in Offered(bin, partial)
    ensures Wants(Offered(bin, rows), Slot(d)) || Settled(partial, Slot(d))
  {
    OfferedIsOffers(bin, partial, d);
    OfferedIsOffers(bin, rows, d);
    WantsIs(Offered(bin, rows), Slot(d));
    if d !in Offered(bin, rows) {
      var m :| m in Modules(partial) && Brings(bin, m, d);
      assert !Beyond(bin, rows, m, d);
    }
  }

  /** A sync cut short anywhere and then repeated to completion reaches the registry one
      complete sync would have reached, exactly when no module it may add brings a
      version that it neither wants nor finds settled. */
  lemma RepeatedSyncCompletesTheFirstExactlyWhen(bin: Binary, rows: Registry)
    requires AtHome(bin) && OneHome(bin) && FOUNDATION in Modules(rows)
    ensures (forall left: nat, lands, left': nat, lands' ::
               var partial := SyncOnce(bin, Store(rows, left, lands)).store.rows;
               var again := SyncOnce(bin, Store(partial, left', lands'));
               again.ok ==> again.store.rows == Advance(rows, Offered(bin, rows)))
            <==> forall m, d :: !Beyond(bin, rows, m, d)
  {
    if m, d :| Beyond(bin, rows, m, d) {
      SecondGoesBeyond(bin, rows, m, d);
    } else {
      forall left: nat, lands, left': nat, lands'
        ensures var partial := SyncOnce(bin, Store(rows, left, lands)).store.rows;
          var again := SyncOnce(bin, Store(partial, left', lands'));
          again.ok ==> again.store.rows == Advance(rows, Offered(bin, rows))
      {
        var partial := SyncOnce(bin, Store(rows, left, lands)).store.rows;
        ResumedIsComplete(bin, rows, left, lands);
        PublishModulesAdvances(Store(partial, left', lands'), PlanOf(bin, PresentOf(partial)));
      }
    }
  }

  lemma SecondGoesBeyond(bin: Binary, rows: Registry, m: string, d: Definition)
    requires AtHome(bin) && FOUNDATION in Modules(rows) && Beyond(bin, rows, m, d)
    ensures exists left: nat, lands, left': nat, lands' ::
              var partial := SyncOnce(bin, Store(rows, left, lands)).store.rows;
              var again := SyncOnce(bin, Store(partial, left', lands'));
              again.ok && again.store.rows != Advance(rows, Offered(bin, rows))
  {
    var after := Advance(rows, Offered(bin, rows));
    var left := CallsNeeded(PlanOf(bin, PresentOf(rows)));
    EnoughCallsComplete(Store(rows, left, false), PlanOf(bin, PresentOf(rows)));
    PublishModulesAdvances(Store(rows, left, false), PlanOf(bin, PresentOf(rows)));
    assert SyncOnce(bin, Store(rows, left, false)).store.rows == after;
    var left' := CallsNeeded(PlanOf(bin, PresentOf(after)));
    EnoughCallsComplete(Store(after, left', false), PlanOf(bin, PresentOf(after)));
    PublishModulesAdvances(Store(after, left', false), PlanOf(bin, PresentOf(after)));
    ModulesAfter(bin, rows);
    OfferedIsOffers(bin, after, d);
    WantsIs(Offered(bin, after), Slot(d));
    AdvanceRowByRow(rows, Offered(bin, rows), Slot(d));
    AdvanceRowByRow(after, Offered(bin, after), Slot(d));
  }

  // ------------------------------------------------------ such a registry

  /** Foundation defines F and A, the optional module m defines B. */
  function SmallBinary(): Binary {
    Binary(Publisher([Definition("F", 1, FOUNDATION), Definition("A", 1, FOUNDATION)], false),
           map["m" := Publisher([Definition("B", 1, "m")], false)])
  }

  /** F is published, and somebody left a draft of A under m. */
  function ForeignDraft(): Registry {
    map[Key("F", 1) := Row(Published, FOUNDATION), Key("A", 1) := Row(Draft, "m")]
  }

  lemma SmallBinaryDefines(d: Definition)
    ensures Defines(SmallBinary(), d) <==>
              d in {Definition("F", 1, FOUNDATION), Definition("A", 1, FOUNDATION), Definition("B", 1, "m")}
  {
    assert Brings(SmallBinary(), "m", Definition("B", 1, "m"));
  }

  lemma SmallBinaryIsSound()
    ensures AtHome(SmallBinary()) && OneVersion(SmallBinary()) && OneHome(SmallBinary())
  {
    forall d
      ensures Defines(SmallBinary(), d) <==>
                d in {Definition("F", 1, FOUNDATION), Definition("A", 1, FOUNDATION), Definition("B", 1, "m")}
    {
      SmallBinaryDefines(d);
    }
  }

  lemma ForeignDraftModules()
    ensures Modules(ForeignDraft()) == {FOUNDATION}
  {
    assert ForeignDraft()[Key("F", 1)].home in Modules(ForeignDraft());
  }

  lemma ForeignDraftOffered()
    ensures Offered(SmallBinary(), ForeignDraft()) == SmallBinary().foundation.definitions
  {
    ForeignDraftModules();
    var present := [FOUNDATION];
    assert ListsModules(present, ForeignDraft());
    SyncPublishesOnce(SmallBinary(), Store(ForeignDraft(), 0, false), present);
    assert OptionalOf(SmallBinary(), present) == [];
    assert PlanOf(SmallBinary(), present) == [SmallBinary().foundation];
    assert [SmallBinary().foundation][1..] == [];
  }

  lemma ForeignDraftGains()
    ensures Gained(ForeignDraft(), Offered(SmallBinary(), ForeignDraft())) == {"m"}
  {
    var defs := Offered(SmallBinary(), ForeignDraft());
    ForeignDraftOffered();
    ForeignDraftModules();
    assert Slot(defs[1]) == Key("A", 1);
    assert ForeignDraft()[Key("A", 1)].home in Gained(ForeignDraft(), defs);
  }

  lemma ForeignDraftLeavesB(b: Definition)
    requires b == Definition("B", 1, "m")
    ensures b.entityType !in Wanted(Offered(SmallBinary(), ForeignDraft()))
    ensures !Wants(Offered(SmallBinary(), ForeignDraft()), Slot(b))
    ensures !UpToDate(ForeignDraft(), "B", 1) && !Settled(ForeignDraft(), Slot(b))
  {
    ForeignDraftOffered();
    var _ := WantedIsLast(Offered(SmallBinary(), ForeignDraft()), "B");
  }

  /** The sync publishes that draft, which gives the tenant m; B comes with m, so the
      next sync has it to publish, and does. */
  lemma ForeignDraftAddsAModule()
    ensures AtHome(SmallBinary()) && OneVersion(SmallBinary()) && OneHome(SmallBinary())
    ensures var defs, b := Offered(SmallBinary(), ForeignDraft()), Definition("B", 1, "m");
      && !OwnDrafts(ForeignDraft(), defs)
      && Modules(ForeignDraft()) == {FOUNDATION} && Modules(Advance(ForeignDraft(), defs)) == {FOUNDATION, "m"}
      && Undone(SmallBinary(), ForeignDraft(), "m", b) && Beyond(SmallBinary(), ForeignDraft(), "m", b)
  {
    SmallBinaryIsSound();
    ForeignDraftModules();
    ForeignDraftGains();
    ModulesAfter(SmallBinary(), ForeignDraft());
    NothingGainedExactlyWhen(ForeignDraft(), Offered(SmallBinary(), ForeignDraft()));
    ForeignDraftLeavesB(Definition("B", 1, "m"));
    assert Brings(SmallBinary(), "m", Definition("B", 1, "m"));
  }
}
