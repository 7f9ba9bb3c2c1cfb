/**
 What a sync reports, planned beforehand or read off the registry afterwards.
 The tool walks Go maps, whose order is arbitrary, and sorts what it collected.
 */
module SyncPlanner {
  import opened SyncRegistry

  datatype Change = Change(entityType: string, from: nat, to: nat)

  datatype Blocked = Blocked(entityType: string, version: nat)

  type Versions = map<string, nat>

  // ---------------------------------------------------------------- order

  /** Go's < on strings: by character, a proper prefix first. */
  predicate Less(a: string, b: string) {
    if b == "" then false
    else if a == "" then true
    else a[0] < b[0] || (a[0] == b[0] && Less(a[1..], b[1..]))
  }

  lemma {:induction false} LessTrans(a: string, b: string, c: string)
    ensures Less(a, b) && Less(b, c) ==> Less(a, c)
    ensures !Less(a, b) && !Less(b, c) ==> !Less(a, c)
    decreases |a|
  {
    if a != "" && b != "" && c != "" {
      LessTrans(a[1..], b[1..], c[1..]);
    }
  }

  lemma {:induction false} LessTotal(a: string, b: string)
    ensures !Less(a, a)
    ensures a == b || Less(a, b) || Less(b, a)
    ensures !(Less(a, b) && Less(b, a))
    decreases |a|
  {
    if a != "" && b != "" {
      LessTotal(a[1..], b[1..]);
      assert a[1..] == b[1..] && a[0] == b[0] ==> a == b by {
        assert a == [a[0]] + a[1..] && b == [b[0]] + b[1..];
      }
    } else if a != "" {
      LessTotal(a[1..], a[1..]);
    }
  }

  predicate DistinctKeys<T>(s: seq<T>, key: T -> string) {
    forall i, j | 0 <= i < j < |s| :: key(s[i]) != key(s[j])
  }

  predicate Sorted<T>(s: seq<T>, key: T -> string) {
    forall i, j | 0 <= i < j < |s| :: !Less(key(s[j]), key(s[i]))
  }

  /** s lists exactly the lines that are wanted, each once, in order. */
  ghost predicate Lists<T(!new)>(s: seq<T>, key: T -> string, wanted: T -> bool) {
    && DistinctKeys(s, key) && Sorted(s, key)
    && (forall x :: x in s <==> wanted(x))
  }

  /** There is only one such sequence. */
  lemma {:induction false} ListsIsUnique<T(!new)>(s: seq<T>, t: seq<T>, key: T -> string, wanted: T -> bool)
    requires Lists(s, key, wanted) && Lists(t, key, wanted)
    ensures s == t
    decreases |s|
  {
    if s == [] {
      assert forall i | 0 <= i < |t| :: t[i] in s;
    } else {
      assert wanted(s[0]) && s[0] in t;
      assert wanted(t[0]) && t[0] in s;
      FirstIsLeast(s, key, t[0]);
      FirstIsLeast(t, key, s[0]);
      LessTotal(key(s[0]), key(t[0]));
      OnlyFirstHasItsKey(s, key, t[0]);
      assert s[0] == t[0];
      var rest := (x: T) => wanted(x) && x != s[0];
      RestLists(s, key, wanted, rest);
      RestLists(t, key, wanted, rest);
      ListsIsUnique(s[1..], t[1..], key, rest);
      assert s == [s[0]] + s[1..] && t == [t[0]] + t[1..];
    }
  }

  lemma FirstIsLeast<T>(s: seq<T>, key: T -> string, x: T)
    requires Sorted(s, key) && x in s
    ensures !Less(key(x), key(s[0]))
  {
    LessTotal(key(x), key(x));
  }

  lemma OnlyFirstHasItsKey<T>(s: seq<T>, key: T -> string, x: T)
    requires DistinctKeys(s, key) && x in s && key(x) == key(s[0])
    ensures x == s[0]
  {
  }

  lemma RestLists<T(!new)>(s: seq<T>, key: T -> string, wanted: T -> bool, rest: T -> bool)
    requires Lists(s, key, wanted) && s != []
    requires forall x :: rest(x) <==> wanted(x) && x != s[0]
    ensures Lists(s[1..], key, rest)
  {
    assert s == [s[0]] + s[1..];
    forall x
      ensures x in s[1..] <==> rest(x)
    {
      if x in s[1..] {
        var i :| 0 <= i < |s[1..]| && s[1..][i] == x;
        assert s[i + 1] == x && key(s[0]) != key(s[i + 1]);
      }
    }
  }

  function Swapped<T>(s: seq<T>, j: nat): seq<T>
    requires 0 < j < |s|
  {
    s[j := s[j - 1]][j - 1 := s[j]]
  }

  /** All but the element at j are in order up to i, and it belongs before those after it. */
  predicate InsertingAt<T>(s: seq<T>, key: T -> string, j: nat, i: nat)
    requires j <= i < |s|
  {
    forall p, q | 0 <= p < q <= i && q != j :: !Less(key(s[q]), key(s[p]))
  }

  lemma SwapStep<T>(s: seq<T>, key: T -> string, j: nat, i: nat)
    requires 0 < j <= i < |s| && InsertingAt(s, key, j, i) && Less(key(s[j]), key(s[j - 1]))
    ensures InsertingAt(Swapped(s, j), key, j - 1, i)
  {
    LessTotal(key(s[j]), key(s[j - 1]));
  }

  lemma SwapKeeps<T>(s: seq<T>, key: T -> string, j: nat)
    requires 0 < j < |s|
    ensures multiset(Swapped(s, j)) == multiset(s)
    ensures DistinctKeys(s, key) ==> DistinctKeys(Swapped(s, j), key)
  {
  }

  lemma InsertedInPlace<T>(s: seq<T>, key: T -> string, j: nat, i: nat)
    requires j <= i < |s| && InsertingAt(s, key, j, i)
    requires j > 0 ==> !Less(key(s[j]), key(s[j - 1]))
    ensures Sorted(s[..i + 1], key)
  {
    forall p, q | 0 <= p < q < i + 1
      ensures !Less(key(s[q]), key(s[p]))
    {
      if q == j && p < j - 1 {
        assert !Less(key(s[j - 1]), key(s[p]));
        LessTrans(key(s[j]), key(s[j - 1]), key(s[p]));
      }
    }
  }

  /** The in-place insertion sort the tool uses for both of its lists. */
  method SortByType<T(==)>(a: array<T>, key: T -> string)
    modifies a
    ensures multiset(a[..]) == multiset(old(a[..]))
    ensures Sorted(a[..], key)
    ensures DistinctKeys(old(a[..]), key) ==> DistinctKeys(a[..], key)
  {
    ghost var was := a[..];
    var i := 1;
    while i < a.Length
      invariant 1 <= i
      invariant Sorted(a[..if i <= a.Length then i else a.Length], key)
      invariant multiset(a[..]) == multiset(was)
      invariant DistinctKeys(was, key) ==> DistinctKeys(a[..], key)
    {
      var j := i;
      while j > 0 && Less(key(a[j]), key(a[j - 1]))
        invariant 0 <= j <= i
        invariant InsertingAt(a[..], key, j, i)
        invariant multiset(a[..]) == multiset(was)
        invariant DistinctKeys(was, key) ==> DistinctKeys(a[..], key)
      {
        ghost var s := a[..];
        SwapStep(s, key, j, i);
        SwapKeeps(s, key, j);
        a[j], a[j - 1] := a[j - 1], a[j];
        assert a[..] == Swapped(s, j);
        j := j - 1;
      }
      InsertedInPlace(a[..], key, j, i);
      assert a[..][..i + 1] == a[..i + 1];
      i := i + 1;
    }
  }

  /** Lines collected for all keys but those still to visit. */
  ghost predicate Collected<T(!new)>(lines: seq<T>, key: T -> string, wanted: T -> bool, todo: set<string>) {
    && DistinctKeys(lines, key)
    && (forall x | x in lines :: wanted(x) && key(x) !in todo)
    && (forall x | wanted(x) && key(x) !in todo :: x in lines)
  }

  lemma CollectOne<T(!new)>(lines: seq<T>, key: T -> string, wanted: T -> bool, todo: set<string>, x: T)
    requires Collected(lines, key, wanted, todo) && key(x) in todo && wanted(x)
    requires forall y | wanted(y) && key(y) == key(x) :: y == x
    ensures Collected(lines + [x], key, wanted, todo - {key(x)})
  {
    assert forall i | 0 <= i < |lines| :: lines[i] in lines;
  }

  lemma CollectNone<T(!new)>(lines: seq<T>, key: T -> string, wanted: T -> bool, todo: set<string>, t: string)
    requires Collected(lines, key, wanted, todo)
    requires forall y | wanted(y) :: key(y) != t
    ensures Collected(lines, key, wanted, todo - {t})
  {
  }

  method Sort<T(==,!new)>(lines: seq<T>, key: T -> string, ghost wanted: T -> bool) returns (s: seq<T>)
    requires Collected(lines, key, wanted, {})
    ensures Lists(s, key, wanted)
  {
    var a := new T[|lines|](i requires 0 <= i < |lines| => lines[i]);
    assert a[..] == lines;
    SortByType(a, key);
    s := a[..];
    forall x
      ensures x in s <==> wanted(x)
    {
      assert x in multiset(s) <==> x in multiset(lines);
    }
  }

  // --------------------------------------------------- reading the registry

  /** Per type with anything published, its highest published version. */
  ghost predicate Current(rows: Registry, m: Versions) {
    && (forall k | k in rows && rows[k].status == Published :: k.entityType in m && k.version <= m[k.entityType])
    && (forall t | t in m :: Key(t, m[t]) in rows && rows[Key(t, m[t])].status == Published)
  }

  /** What the binary would publish; a type defined twice is remembered by its last definition. */
  function Wanted(defs: seq<Definition>): Versions {
    if defs == [] then map[]
    else
      var last := defs[|defs| - 1];
      Wanted(defs[..|defs| - 1])[last.entityType := last.version]
  }

  predicate RolledBackAt(rows: Registry, t: string, v: nat) {
    Key(t, v) in rows && rows[Key(t, v)].status == RolledBack
  }

  predicate Behind(m: Versions, want: Versions, t: string) {
    t in want && (t in m ==> m[t] < want[t])
  }

  function From(m: Versions, t: string): nat {
    if t in m then m[t] else 0
  }

  // What a line of each report stands for.

  predicate Moved(before: Versions, after: Versions, c: Change) {
    var t := c.entityType;
    t in after && (t in before ==> before[t] != after[t]) && c == Change(t, From(before, t), after[t])
  }

  predicate Planned(rows: Registry, before: Versions, want: Versions, c: Change) {
    var t := c.entityType;
    Behind(before, want, t) && !RolledBackAt(rows, t, want[t]) && c == Change(t, From(before, t), want[t])
  }

  predicate Stuck(rows: Registry, m: Versions, want: Versions, b: Blocked) {
    var t := b.entityType;
    Behind(m, want, t) && RolledBackAt(rows, t, want[t]) && b == Blocked(t, want[t])
  }

  function ChangeType(c: Change): string { c.entityType }

  function BlockedType(b: Blocked): string { b.entityType }

  // ------------------------------------------- planning predicts publishing

  predicate OneVersionPerType(defs: seq<Definition>) {
    forall i, j | 0 <= i < |defs| && 0 <= j < |defs| && defs[i].entityType == defs[j].entityType ::
      defs[i].version == defs[j].version
  }

  lemma {:induction false} WantedIsLast(defs: seq<Definition>, t: string) returns (i: nat)
    ensures t in Wanted(defs) <==> exists j | 0 <= j < |defs| :: defs[j].entityType == t
    ensures t in Wanted(defs) ==> i < |defs| && defs[i].entityType == t && defs[i].version == Wanted(defs)[t]
    ensures t in Wanted(defs) ==> forall j | i < j < |defs| :: defs[j].entityType != t
    decreases |defs|
  {
    i := 0;
    if defs != [] {
      var n := |defs| - 1;
      if defs[n].entityType == t {
        i := n;
      } else {
        i := WantedIsLast(defs[..n], t);
        assert forall j | 0 <= j < n :: defs[..n][j] == defs[j];
      }
    }
  }

  lemma WantedWants(defs: seq<Definition>, t: string, v: nat)
    requires OneVersionPerType(defs)
    ensures Wants(defs, Key(t, v)) <==> t in Wanted(defs) && Wanted(defs)[t] == v
  {
    var i := WantedIsLast(defs, t);
    if t in Wanted(defs) && Wanted(defs)[t] == v {
      assert Slot(defs[i]) == Key(t, v);
    }
    if Wants(defs, Key(t, v)) {
      var j :| 0 <= j < |defs| && Slot(defs[j]) == Key(t, v);
      assert defs[j].entityType == t;
    }
  }

  /** The current version after publishing: the wanted one where it is ahead and not rolled back. */
  lemma CurrentAfter(rows: Registry, defs: seq<Definition>, before: Versions, after: Versions, t: string)
    requires OneVersionPerType(defs) && Current(rows, before) && Current(Advance(rows, defs), after)
    ensures var want := Wanted(defs);
      if Behind(before, want, t) && !RolledBackAt(rows, t, want[t]) then t in after && after[t] == want[t]
      else (t in after <==> t in before) && (t in before ==> after[t] == before[t])
  {
    var want, rows' := Wanted(defs), Advance(rows, defs);
    if t in before {
      AdvanceRowByRow(rows, defs, Key(t, before[t]));
    }
    if t in want {
      WantedWants(defs, t, want[t]);
      AdvanceRowByRow(rows, defs, Key(t, want[t]));
    }
    if t in after {
      WantedWants(defs, t, after[t]);
      AdvanceRowByRow(rows, defs, Key(t, after[t]));
    }
  }

  /** Line by line, the plan made before a run is what the run then reports. */
  lemma PlanPredictsRun(rows: Registry, defs: seq<Definition>, before: Versions, after: Versions)
    requires OneVersionPerType(defs) && Current(rows, before) && Current(Advance(rows, defs), after)
    ensures forall c :: Planned(rows, before, Wanted(defs), c) <==> Moved(before, after, c)
    ensures forall b :: Stuck(rows, before, Wanted(defs), b) <==> Stuck(Advance(rows, defs), after, Wanted(defs), b)
  {
    var want := Wanted(defs);
    forall c: Change
      ensures Planned(rows, before, want, c) <==> Moved(before, after, c)
    {
      CurrentAfter(rows, defs, before, after, c.entityType);
    }
    forall b: Blocked
      ensures Stuck(rows, before, want, b) <==> Stuck(Advance(rows, defs), after, want, b)
    {
      CurrentAfter(rows, defs, before, after, b.entityType);
      if b.entityType in want {
        AdvanceRowByRow(rows, defs, Key(b.entityType, want[b.entityType]));
      }
    }
  }

  lemma {:induction false} CurrentExists(rows: Registry) returns (m: Versions)
    ensures Current(rows, m)
    decreases |rows|
  {
    if rows == map[] {
      m := map[];
    } else {
      var k :| k in rows;
      m := CurrentExists(rows - {k});
      if rows[k].status == Published && (k.entityType in m ==> m[k.entityType] < k.version) {
        m := m[k.entityType := k.version];
      }
    }
  }

  lemma CurrentIsUnique(rows: Registry, m: Versions, m': Versions)
    requires Current(rows, m) && Current(rows, m')
    ensures m == m'
  {
    assert forall t | t in m :: Key(t, m[t]) in rows;
    assert forall t | t in m' :: Key(t, m'[t]) in rows;
  }

  ghost function CurrentOf(rows: Registry): (m: Versions)
    ensures Current(rows, m)
  {
    assert exists m :: Current(rows, m) by {
      var _ := CurrentExists(rows);
    }
    var m :| Current(rows, m);
    m
  }

  /** The two lists of a dry run, and those of a run that took `rows` to `after`. */
  ghost predicate PlanReport(rows: Registry, defs: seq<Definition>, changes: seq<Change>, blocked: seq<Blocked>) {
    && Lists(changes, ChangeType, c => Planned(rows, CurrentOf(rows), Wanted(defs), c))
    && Lists(blocked, BlockedType, b => Stuck(rows, CurrentOf(rows), Wanted(defs), b))
  }

  ghost predicate RunReport(rows: Registry, after: Registry, defs: seq<Definition>,
                            changes: seq<Change>, blocked: seq<Blocked>) {
    && Lists(changes, ChangeType, c => Moved(CurrentOf(rows), CurrentOf(after), c))
    && Lists(blocked, BlockedType, b => Stuck(after, CurrentOf(after), Wanted(defs), b))
  }

  lemma SameLists<T(!new)>(s: seq<T>, t: seq<T>, key: T -> string, p: T -> bool, q: T -> bool)
    requires Lists(s, key, p) && Lists(t, key, q) && forall x :: p(x) <==> q(x)
    ensures s == t
  {
    ListsIsUnique(s, t, key, p);
  }

  /** A dry run's lists are, line for line and in order, those of the complete run. */
  lemma DryRunTellsTheTruth(rows: Registry, defs: seq<Definition>, changes: seq<Change>, blocked: seq<Blocked>,
                            changes': seq<Change>, blocked': seq<Blocked>)
    requires OneVersionPerType(defs)
    requires PlanReport(rows, defs, changes, blocked)
    requires RunReport(rows, Advance(rows, defs), defs, changes', blocked')
    ensures changes == changes' && blocked == blocked'
  {
    var after := Advance(rows, defs);
    PlanPredictsRun(rows, defs, CurrentOf(rows), CurrentOf(after));
    SameLists(changes, changes', ChangeType, c => Planned(rows, CurrentOf(rows), Wanted(defs), c),
              c => Moved(CurrentOf(rows), CurrentOf(after), c));
    SameLists(blocked, blocked', BlockedType, b => Stuck(rows, CurrentOf(rows), Wanted(defs), b),
              b => Stuck(after, CurrentOf(after), Wanted(defs), b));
  }

  /** That takes a binary that defines no type at two versions, and nothing more:
      otherwise some registry makes the plan wrong. */
  lemma PlanPredictsExactlyWhen(defs: seq<Definition>)
    ensures (forall rows, c :: Planned(rows, CurrentOf(rows), Wanted(defs), c) <==>
                               Moved(CurrentOf(rows), CurrentOf(Advance(rows, defs)), c))
            <==> OneVersionPerType(defs)
  {
    if OneVersionPerType(defs) {
      forall rows
        ensures forall c :: Planned(rows, CurrentOf(rows), Wanted(defs), c) <==>
                            Moved(CurrentOf(rows), CurrentOf(Advance(rows, defs)), c)
      {
        PlanPredictsRun(rows, defs, CurrentOf(rows), CurrentOf(Advance(rows, defs)));
      }
    } else {
      var i, j :| 0 <= i < |defs| && 0 <= j < |defs|
                  && defs[i].entityType == defs[j].entityType && defs[i].version != defs[j].version;
      var t := defs[i].entityType;
      var last := WantedIsLast(defs, t);
      var v := Wanted(defs)[t];
      var other := if defs[i].version != v then defs[i] else defs[j];
      var rows: Registry := map[Key(t, v) := Row(RolledBack, "")];
      AdvanceRowByRow(rows, defs, Slot(other));
      assert Wants(defs, Slot(other));
      var after := CurrentOf(Advance(rows, defs));
      var c := Change(t, From(CurrentOf(rows), t), after[t]);
      assert Moved(CurrentOf(rows), after, c) && !Planned(rows, CurrentOf(rows), Wanted(defs), c);
    }
  }

  /** For instance: a binary with T at versions 1 and 2, and a tenant that has rolled 2
      back. Nothing is planned, and the run publishes 1. */
  lemma UnplannedChange(rows: Registry, defs: seq<Definition>)
    requires rows == map[Key("T", 2) := Row(RolledBack, "")]
    requires defs == [Definition("T", 1, "m"), Definition("T", 2, "m")]
    ensures forall c :: !Planned(rows, CurrentOf(rows), Wanted(defs), c)
    ensures Moved(CurrentOf(rows), CurrentOf(Advance(rows, defs)), Change("T", 0, 1))
  {
    var one, two := Definition("T", 1, "m"), Definition("T", 2, "m");
    assert defs[..1] == [one] && [one][..0] == [] && Wanted([one]) == map["T" := 1];
    assert Wanted(defs) == map["T" := 2];
    assert defs[1..] == [two] && [two][1..] == [];
    var after := Advance(rows, defs);
    var first := AdvanceOne(rows, one);
    assert first == map[Key("T", 2) := Row(RolledBack, ""), Key("T", 1) := Row(Published, "m")];
    assert AdvanceOne(first, two) == first;
    assert after == Advance(first, [two]) == Advance(first, []) == first;
    assert after[Key("T", 1)].status == Published;
  }

  /** After a complete run, another plans nothing and is stuck where that one was. */
  lemma SecondRunIsQuiet(rows: Registry, defs: seq<Definition>, changes: seq<Change>, blocked: seq<Blocked>,
                         changes': seq<Change>, blocked': seq<Blocked>)
    requires OneVersionPerType(defs)
    requires RunReport(rows, Advance(rows, defs), defs, changes, blocked)
    requires PlanReport(Advance(rows, defs), defs, changes', blocked')
    ensures changes' == [] && blocked' == blocked
  {
    assert |changes'| > 0 ==> changes'[0] in changes';
    var after := Advance(rows, defs);
    StaysAdvanced(rows, after, defs);
    PlanPredictsRun(after, defs, CurrentOf(after), CurrentOf(after));
    assert forall c | c in changes' ::
        Planned(after, CurrentOf(after), Wanted(defs), c) && Moved(CurrentOf(after), CurrentOf(after), c);
    assert forall c :: c !in changes';
    SameLists(blocked, blocked', BlockedType, b => Stuck(after, CurrentOf(after), Wanted(defs), b),
              b => Stuck(after, CurrentOf(after), Wanted(defs), b));
  }
}
