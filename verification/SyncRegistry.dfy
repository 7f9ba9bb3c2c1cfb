/**
 The definition registry of one tenant, and publishing into it.
 A version goes draft, approved, published; publishing a batch of definitions
 picks each one up wherever an earlier, interrupted run left it.
 */
module SyncRegistry {
  datatype Status = Draft | Approved | Published | RolledBack

  datatype Key = Key(entityType: string, version: nat)

  /** `home` is the module key inside the stored definition, empty if it has none. */
  datatype Row = Row(status: Status, home: string)

  type Registry = map<Key, Row>

  datatype Definition = Definition(entityType: string, version: nat, home: string)

  datatype Publisher = Publisher(definitions: seq<Definition>, hasStatuses: bool)

  function Slot(d: Definition): Key {
    Key(d.entityType, d.version)
  }

  predicate Settled(rows: Registry, k: Key) {
    k in rows && (rows[k].status == Published || rows[k].status == RolledBack)
  }

  // ------------------------------------------- publishing, call by call

  /** A registry whose database will answer `left` more calls and then fail; the
      failing call, if a write, may or may not have taken effect. */
  datatype Store = Store(rows: Registry, left: nat, lands: bool)

  datatype Progress = Progress(store: Store, ok: bool)

  function Write(p: Progress, k: Key, row: Row): Progress {
    var st := p.store;
    if !p.ok then p
    else if st.left == 0 then Progress(if st.lands then st.(rows := st.rows[k := row]) else st, false)
    else Progress(st.(rows := st.rows[k := row], left := st.left - 1), true)
  }

  /** A call that leaves the entity registry alone. */
  function Other(p: Progress): Progress {
    if !p.ok then p
    else if p.store.left == 0 then p.(ok := false)
    else p.(store := p.store.(left := p.store.left - 1))
  }

  function PublishOne(st: Store, d: Definition): Progress {
    var k := Slot(d);
    var p := Other(Progress(st, true));
    if !p.ok || Settled(st.rows, k) then p
    else
      var home := if k in st.rows then st.rows[k].home else d.home;
      var drafted := if k in st.rows then p else Write(p, k, Row(Draft, home));
      var approved := if k in st.rows && st.rows[k].status == Approved then p
                      else Write(drafted, k, Row(Approved, home));
      Write(approved, k, Row(Published, home))
  }

  function PublishAll(st: Store, defs: seq<Definition>): Progress
    decreases |defs|
  {
    if defs == [] then Progress(st, true)
    else
      var p := PublishOne(st, defs[0]);
      if p.ok then PublishAll(p.store, defs[1..]) else p
  }

  /** One module: its entities, then its forms, then its status graph if it has one. */
  function PublishModule(st: Store, m: Publisher): Progress {
    var p := Other(PublishAll(st, m.definitions));
    if m.hasStatuses then Other(p) else p
  }

  function PublishModules(st: Store, ms: seq<Publisher>): Progress
    decreases |ms|
  {
    if ms == [] then Progress(st, true)
    else
      var p := PublishModule(st, ms[0]);
      if p.ok then PublishModules(p.store, ms[1..]) else p
  }

  // ------------------------------------------------ what publishing means

  /** Every wanted version ends published, save one that was rolled back. */
  function AdvanceOne(rows: Registry, d: Definition): Registry {
    var k := Slot(d);
    if Settled(rows, k) then rows
    else rows[k := Row(Published, if k in rows then rows[k].home else d.home)]
  }

  function Advance(rows: Registry, defs: seq<Definition>): Registry
    decreases |defs|
  {
    if defs == [] then rows else Advance(AdvanceOne(rows, defs[0]), defs[1..])
  }

  function AllDefinitions(ms: seq<Publisher>): seq<Definition> {
    if ms == [] then [] else ms[0].definitions + AllDefinitions(ms[1..])
  }

  predicate Wants(defs: seq<Definition>, k: Key) {
    exists i | 0 <= i < |defs| :: Slot(defs[i]) == k
  }

  predicate SettledStays(x: Registry, y: Registry) {
    forall k | k in x && Settled(x, k) :: k in y && y[k] == x[k]
  }

  lemma {:induction false} AdvanceAppend(rows: Registry, ds: seq<Definition>, es: seq<Definition>)
    ensures Advance(rows, ds + es) == Advance(Advance(rows, ds), es)
    decreases |ds|
  {
    if ds == [] {
      assert ds + es == es;
    } else {
      assert (ds + es)[1..] == ds[1..] + es;
      AdvanceAppend(AdvanceOne(rows, ds[0]), ds[1..], es);
    }
  }

  /** Row by row: what is settled or unwanted stays, the rest ends published, under
      the home it had or else that of a definition asking for it. */
  lemma {:induction false} AdvanceRowByRow(rows: Registry, defs: seq<Definition>, k: Key)
    ensures Settled(rows, k) || !Wants(defs, k) ==>
              (k in Advance(rows, defs) <==> k in rows) && (k in rows ==> Advance(rows, defs)[k] == rows[k])
    ensures Wants(defs, k) && !Settled(rows, k) ==>
              k in Advance(rows, defs) && Advance(rows, defs)[k].status == Published
    ensures Wants(defs, k) && k in rows ==> Advance(rows, defs)[k].home == rows[k].home
    ensures Wants(defs, k) && k !in rows ==>
              exists i | 0 <= i < |defs| :: Slot(defs[i]) == k && Advance(rows, defs)[k].home == defs[i].home
    decreases |defs|
  {
    if defs != [] {
      var next := AdvanceOne(rows, defs[0]);
      AdvanceRowByRow(next, defs[1..], k);
      assert Wants(defs, k) <==> Slot(defs[0]) == k || Wants(defs[1..], k) by {
        assert forall i | 0 <= i < |defs[1..]| :: defs[1..][i] == defs[i + 1];
        assert forall i | 0 < i < |defs| :: defs[i] == defs[1..][i - 1];
      }
      if Wants(defs, k) && k !in rows && Slot(defs[0]) != k {
        var i :| 0 <= i < |defs[1..]|
                 && Slot(defs[1..][i]) == k && Advance(next, defs[1..])[k].home == defs[1..][i].home;
        assert defs[1..][i] == defs[i + 1];
      }
    }
  }

  lemma AdvanceSettles(rows: Registry, defs: seq<Definition>)
    ensures SettledStays(rows, Advance(rows, defs))
  {
    forall k | k in rows && Settled(rows, k)
      ensures k in Advance(rows, defs) && Advance(rows, defs)[k] == rows[k]
    {
      AdvanceRowByRow(rows, defs, k);
    }
  }

  lemma PublishOneAdvances(st: Store, d: Definition)
    ensures var p := PublishOne(st, d);
      && AdvanceOne(p.store.rows, d) == AdvanceOne(st.rows, d)
      && (p.ok ==> p.store.rows == AdvanceOne(st.rows, d))
      && SettledStays(st.rows, p.store.rows)
  {
  }

  /** Wherever publishing stops, what is left to do leads to the same registry. */
  lemma {:induction false} PublishAllAdvances(st: Store, defs: seq<Definition>)
    ensures var p := PublishAll(st, defs);
      && Advance(p.store.rows, defs) == Advance(st.rows, defs)
      && (p.ok ==> p.store.rows == Advance(st.rows, defs))
      && SettledStays(st.rows, p.store.rows)
    decreases |defs|
  {
    if defs != [] {
      PublishOneAdvances(st, defs[0]);
      var p := PublishOne(st, defs[0]);
      if p.ok {
        PublishAllAdvances(p.store, defs[1..]);
        assert Settled(p.store.rows, Slot(defs[0]));
      }
    }
  }

  lemma {:induction false} PublishModulesAdvances(st: Store, ms: seq<Publisher>)
    ensures var p := PublishModules(st, ms);
      && Advance(p.store.rows, AllDefinitions(ms)) == Advance(st.rows, AllDefinitions(ms))
      && (p.ok ==> p.store.rows == Advance(st.rows, AllDefinitions(ms)))
      && SettledStays(st.rows, p.store.rows)
    decreases |ms|
  {
    if ms != [] {
      var defs, rest := ms[0].definitions, AllDefinitions(ms[1..]);
      PublishAllAdvances(st, defs);
      var p := PublishModule(st, ms[0]);
      assert p.store.rows == PublishAll(st, defs).store.rows;
      AdvanceAppend(st.rows, defs, rest);
      AdvanceAppend(PublishModules(st, ms).store.rows, defs, rest);
      if p.ok {
        PublishModulesAdvances(p.store, ms[1..]);
        StaysAdvanced(st.rows, PublishModules(st, ms).store.rows, defs);
      }
    }
  }

  /** A registry that keeps everything an advance settled has nothing left of it to do. */
  lemma StaysAdvanced(rows: Registry, later: Registry, defs: seq<Definition>)
    requires SettledStays(Advance(rows, defs), later)
    ensures Advance(later, defs) == later
  {
    forall i | 0 <= i < |defs|
      ensures Settled(later, Slot(defs[i]))
    {
      AdvanceRowByRow(rows, defs, Slot(defs[i]));
      assert Wants(defs, Slot(defs[i]));
    }
    NothingToAdvance(later, defs);
  }

  lemma {:induction false} NothingToAdvance(rows: Registry, defs: seq<Definition>)
    requires forall i | 0 <= i < |defs| :: Settled(rows, Slot(defs[i]))
    ensures Advance(rows, defs) == rows
    decreases |defs|
  {
    if defs != [] {
      assert Settled(rows, Slot(defs[0]));
      assert forall i | 0 <= i < |defs[1..]| :: defs[1..][i] == defs[i + 1];
      NothingToAdvance(rows, defs[1..]);
    }
  }

  // ---------------------------------------------------- a tenant's modules

  function Modules(rows: Registry): set<string> {
    set k | k in rows && rows[k].status == Published && rows[k].home != "" :: rows[k].home
  }

  /** What publishing would newly publish is under no module the tenant lacks. */
  predicate GrantsNothing(rows: Registry, defs: seq<Definition>) {
    forall k | k in Advance(rows, defs) && !Settled(rows, k) && Wants(defs, k) ::
      Advance(rows, defs)[k].home == "" || Advance(rows, defs)[k].home in Modules(rows)
  }

  lemma ModulesGrow(x: Registry, y: Registry)
    requires SettledStays(x, y)
    ensures Modules(x) <= Modules(y)
  {
    forall m | m in Modules(x)
      ensures m in Modules(y)
    {
      var k :| k in x && x[k].status == Published && x[k].home == m && m != "";
      assert Settled(x, k);
    }
  }

  lemma AdvanceGrantsNothingExactlyWhen(rows: Registry, defs: seq<Definition>)
    ensures Modules(Advance(rows, defs)) == Modules(rows) <==> GrantsNothing(rows, defs)
  {
    var after := Advance(rows, defs);
    AdvanceSettles(rows, defs);
    ModulesGrow(rows, after);
    if GrantsNothing(rows, defs) {
      forall k | k in after && after[k].status == Published && after[k].home != ""
        ensures after[k].home in Modules(rows)
      {
        AdvanceRowByRow(rows, defs, k);
      }
    } else {
      var k :| k in after && !Settled(rows, k) && Wants(defs, k)
               && after[k].home != "" && after[k].home !in Modules(rows);
      AdvanceRowByRow(rows, defs, k);
      assert after[k].home in Modules(after);
    }
  }

  /** Definitions that carry their own module's key, one the tenant has, can only
      grant a module by publishing a draft somebody else left at a wanted version. */
  predicate OwnDrafts(rows: Registry, defs: seq<Definition>) {
    forall k | k in rows && !Settled(rows, k) && Wants(defs, k) :: rows[k].home == "" || rows[k].home in Modules(rows)
  }

  /** A run that stops anywhere, followed by one that completes, reaches the
      registry that one complete run would have reached. */
  lemma ResumedRunReachesTheSame(rows: Registry, ms: seq<Publisher>, left: nat, lands: bool, left': nat, lands': bool)
    requires var partial := PublishModules(Store(rows, left, lands), ms).store.rows;
      PublishModules(Store(partial, left', lands'), ms).ok
    ensures var partial := PublishModules(Store(rows, left, lands), ms).store.rows;
      PublishModules(Store(partial, left', lands'), ms).store.rows == Advance(rows, AllDefinitions(ms))
  {
    PublishModulesAdvances(Store(rows, left, lands), ms);
    var partial := PublishModules(Store(rows, left, lands), ms).store.rows;
    PublishModulesAdvances(Store(partial, left', lands'), ms);
  }

  /** And every run can be completed: enough answered calls make it succeed. */
  lemma {:induction false} EnoughCallsComplete(st: Store, ms: seq<Publisher>)
    requires st.left >= CallsNeeded(ms)
    ensures PublishModules(st, ms).ok
    decreases |ms|
  {
    if ms != [] {
      EnoughCallsForModule(st, ms[0].definitions);
      EnoughCallsComplete(PublishModule(st, ms[0]).store, ms[1..]);
    }
  }

  function CallsNeeded(ms: seq<Publisher>): nat {
    if ms == [] then 0 else 4 * |ms[0].definitions| + 2 + CallsNeeded(ms[1..])
  }

  lemma {:induction false} EnoughCallsForModule(st: Store, defs: seq<Definition>)
    requires st.left >= 4 * |defs|
    ensures PublishAll(st, defs).ok && PublishAll(st, defs).store.left >= st.left - 4 * |defs|
    decreases |defs|
  {
    if defs != [] {
      EnoughCallsForModule(PublishOne(st, defs[0]).store, defs[1..]);
    }
  }

  /** No run, complete or cut short, adds or loses a module, exactly when no draft
      at a wanted version is under a module the tenant lacks. */
  lemma RunGrantsNoModule(rows: Registry, ms: seq<Publisher>)
    requires forall d | d in AllDefinitions(ms) :: d.home in Modules(rows)
    ensures (forall left: nat, lands ::
               Modules(PublishModules(Store(rows, left, lands), ms).store.rows) == Modules(rows))
            <==> OwnDrafts(rows, AllDefinitions(ms))
  {
    var defs := AllDefinitions(ms);
    OwnDraftsGrantNothing(rows, defs);
    AdvanceGrantsNothingExactlyWhen(rows, defs);
    if OwnDrafts(rows, defs) {
      forall left: nat, lands
        ensures Modules(PublishModules(Store(rows, left, lands), ms).store.rows) == Modules(rows)
      {
        var r := PublishModules(Store(rows, left, lands), ms).store.rows;
        PublishModulesAdvances(Store(rows, left, lands), ms);
        ModulesGrow(rows, r);
        AdvanceSettles(r, defs);
        ModulesGrow(r, Advance(r, defs));
      }
    } else {
      var st := Store(rows, CallsNeeded(ms), false);
      EnoughCallsComplete(st, ms);
      PublishModulesAdvances(st, ms);
      assert Modules(PublishModules(st, ms).store.rows) != Modules(rows);
    }
  }

  lemma OwnDraftsGrantNothing(rows: Registry, defs: seq<Definition>)
    requires forall d | d in defs :: d.home in Modules(rows)
    ensures GrantsNothing(rows, defs) <==> OwnDrafts(rows, defs)
  {
    forall k | Wants(defs, k) && !Settled(rows, k)
      ensures k in Advance(rows, defs)
      ensures if k in rows then Advance(rows, defs)[k].home == rows[k].home
              else Advance(rows, defs)[k].home in Modules(rows)
    {
      AdvanceRowByRow(rows, defs, k);
    }
  }
}
