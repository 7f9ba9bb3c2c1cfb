/**
 What the invariant gives for whole runs: linearizable saves and clears, where a
 stored key comes from, and exactly how much contention a save survives.
 */
module AiProviderTheorems {
  import opened Wrappers
  import opened AiProvider
  import opened AiProviderProofs

  // ---------------------------------------------------- one atomic register

  /** Every run is a legal history of one versioned register: at most one row
      exists, it is what the commits in log order leave, each commit holds what its
      request's form builds from nothing or from the very row it replaced, and each
      request has committed exactly what it reports: once if it returned an id or
      cleared a row, not at all otherwise. */
  lemma RunRefinesRegister(s0: State, sched: seq<nat>)
    requires Starts(s0) && ScheduleFor(sched, |s0.procs|)
    ensures var s, origin := Run(s0, sched), First(s0.table);
      && |s.table.rows| <= 1
      && First(s.table) == Register(origin, s.log)
      && LegalHistory(origin, s.log) && LogOk(Requests(s0), origin, s.log)
      && (forall p: nat | p < |s.procs| :: ReportOk(CommitsOf(s.log, p), s.procs[p].pc))
  {
    StartInv(s0);
    RunKeepsInv(Requests(s0), First(s0.table), s0, sched);
  }

  // ------------------------------------------------------------- stored keys

  /** The key of a row was typed into some save for the row's own provider, or
      was already there for that provider when the run began. */
  ghost predicate KeyAccountedFor(reqs: seq<Request>, origin: Option<Row>, f: Fields) {
    f.apiKey.Some? ==>
      || (origin.Some? && origin.value.fields.provider == f.provider && origin.value.fields.apiKey == f.apiKey)
      || TypedKey(reqs, f)
  }

  ghost predicate TypedKey(reqs: seq<Request>, f: Fields)
    requires f.apiKey.Some?
  {
    var q := f.apiKey.value.nonce;
    && q < |reqs| && reqs[q].Save?
    && reqs[q].sub.provider == f.provider
    && reqs[q].sub.apiKey == f.apiKey.value.plain != ""
  }

  lemma {:induction false} KeyHistory(reqs: seq<Request>, origin: Option<Row>, log: seq<Commit>)
    requires LogOk(reqs, origin, log)
    ensures var now := Register(origin, log); now.Some? ==> KeyAccountedFor(reqs, origin, now.value.fields)
  {
    if log != [] && log[|log| - 1].Put? {
      var n := |log| - 1;
      var c := log[n];
      assert forall i | 0 <= i < n :: log[..n][..i] == log[..i];
      KeyHistory(reqs, origin, log[..n]);
      var prev := Register(origin, log[..n]);
      BuildFieldsRules(reqs[c.pid].sub, None, c.pid);
      if prev.Some? {
        BuildFieldsRules(reqs[c.pid].sub, Some(prev.value.fields), c.pid);
      }
    }
  }

  /** In every reachable state the row is the untouched initial one, or it carries
      the marker, holds no key under Ollama, and otherwise holds a key that some
      save submitted for that very provider. */
  lemma StoredRowIsSound(s0: State, sched: seq<nat>)
    requires Starts(s0) && ScheduleFor(sched, |s0.procs|)
    ensures var s := Run(s0, sched);
      var now := First(s.table);
      now.Some? ==>
        if s.log == [] then now == First(s0.table)
        else WellKeyed(now.value.fields) && KeyAccountedFor(Requests(s0), First(s0.table), now.value.fields)
  {
    StartInv(s0);
    RunKeepsInv(Requests(s0), First(s0.table), s0, sched);
    KeyHistory(Requests(s0), First(s0.table), Run(s0, sched).log);
  }

  /** A save with a blank key, for a vendor that needs one, keeps the key of the
      row version its commit replaced, and that row was for the same vendor. */
  lemma BlankKeyCarriesForward(s0: State, sched: seq<nat>, i: nat)
    requires Starts(s0) && ScheduleFor(sched, |s0.procs|)
    requires var log := Run(s0, sched).log;
      i < |log| && log[i].Put? && log[i].pid < |s0.procs|
    requires var req := s0.procs[Run(s0, sched).log[i].pid].req;
      req.Save? && req.sub.apiKey == "" && req.sub.provider != "ollama"
    ensures var s := Run(s0, sched);
      var replaced := Register(First(s0.table), s.log[..i]);
      && replaced.Some?
      && replaced.value.fields.provider == s.log[i].row.fields.provider
      && replaced.value.fields.apiKey == s.log[i].row.fields.apiKey
  {
    StartInv(s0);
    var origin := First(s0.table);
    RunKeepsInv(Requests(s0), origin, s0, sched);
    var log := Run(s0, sched).log;
    var c, prev := log[i], Register(origin, log[..i]);
    assert PutOk(Requests(s0), prev, c);
    BuildFieldsRules(s0.procs[c.pid].req.sub, None, c.pid);
    if prev.Some? {
      BuildFieldsRules(s0.procs[c.pid].req.sub, Some(prev.value.fields), c.pid);
    }
  }

  // --------------------------------------------------------------- giving up

  ghost predicate DistinctPids(log: seq<Commit>) {
    forall i, j | 0 <= i < j < |log| :: log[i].pid != log[j].pid
  }

  lemma {:induction false} CommitsOfCounts(log: seq<Commit>, p: nat)
    ensures forall i | 0 <= i < |log| && log[i].pid == p :: log[i] in CommitsOf(log, p)
    ensures |CommitsOf(log, p)| <= 1 ==> forall i, j | 0 <= i < j < |log| :: !(log[i].pid == p && log[j].pid == p)
    ensures CommitsOf(log, p) == [] ==> forall i | 0 <= i < |log| :: log[i].pid != p
  {
    if log != [] {
      CommitsOfCounts(log[..|log| - 1], p);
      assert forall i | 0 <= i < |log| - 1 :: log[..|log| - 1][i] == log[i];
    }
  }

  ghost function Below(m: nat): (r: set<nat>)
    ensures |r| == m
    ensures forall k: nat :: k in r <==> k < m
  {
    if m == 0 then {} else Below(m - 1) + {m - 1}
  }

  /** n distinct numbers below m, none of them p, with p below m: n < m. */
  lemma Pigeonhole(pids: seq<nat>, m: nat, p: nat)
    requires p < m
    requires forall i | 0 <= i < |pids| :: pids[i] < m && pids[i] != p
    requires forall i, j | 0 <= i < j < |pids| :: pids[i] != pids[j]
    ensures |pids| < m
  {
    var used := set i | 0 <= i < |pids| :: pids[i];
    DistinctCard(pids);
    assert used <= Below(m) - {p};
    SubsetCard(used, Below(m) - {p});
  }

  lemma {:induction false} DistinctCard(pids: seq<nat>)
    requires forall i, j | 0 <= i < j < |pids| :: pids[i] != pids[j]
    ensures |set i | 0 <= i < |pids| :: pids[i]| == |pids|
  {
    if pids != [] {
      var n := |pids| - 1;
      DistinctCard(pids[..n]);
      var rest := set i | 0 <= i < n :: pids[..n][i];
      assert (set i | 0 <= i < |pids| :: pids[i]) == rest + {pids[n]};
      assert pids[n] !in rest;
    }
  }

  lemma {:induction false} SubsetCard<T>(a: set<T>, b: set<T>)
    requires a <= b
    ensures |a| <= |b|
  {
    if a != {} {
      var x :| x in a;
      SubsetCard(a - {x}, b - {x});
    }
  }

  /** Windows that do not overlap and each hold a commit need that many commits. */
  lemma {:induction false} WindowsNeedCommits(ws: seq<Window>, end: nat)
    requires WindowsOk(ws, end)
    ensures |ws| <= end
    ensures ws != [] ==> |ws| <= ws[|ws| - 1].lostAt
  {
    if ws != [] {
      var front := ws[..|ws| - 1];
      WindowsNeedCommits(front, ws[|ws| - 1].readAt);
    }
  }

  lemma RequestsCommitOnce(reqs: seq<Request>, origin: Option<Row>, s: State)
    requires Inv(reqs, origin, s)
    ensures DistinctPids(s.log)
    ensures forall i | 0 <= i < |s.log| :: s.log[i].pid < |s.procs|
  {
    forall i | 0 <= i < |s.log|
      ensures s.log[i].pid < |s.procs|
    {
      assert PutOk(reqs, Register(origin, s.log[..i]), s.log[i]);
    }
    forall i, j | 0 <= i < j < |s.log|
      ensures s.log[i].pid != s.log[j].pid
    {
      var q := s.log[i].pid;
      CommitsOfCounts(s.log, q);
      assert ReportOk(CommitsOf(s.log, q), s.procs[q].pc);
    }
  }

  /** A request that committed nothing is outside the log, and the others, which
      commit once each at most, outnumber the log. */
  lemma RivalsOutnumberLog(reqs: seq<Request>, origin: Option<Row>, s: State, p: nat)
    requires Inv(reqs, origin, s) && p < |s.procs| && CommitsOf(s.log, p) == []
    ensures forall i | 0 <= i < |s.log| :: s.log[i].pid != p
    ensures |s.log| < |s.procs|
  {
    RequestsCommitOnce(reqs, origin, s);
    CommitsOfCounts(s.log, p);
    Pigeonhole(seq(|s.log|, i requires 0 <= i < |s.log| => s.log[i].pid), |s.procs|, p);
  }

  /** "Exceeded attempts" costs eleven commits by eleven other requests: one
      between the save's first read and its failed create, and one inside each of
      its ten list-to-write windows. */
  lemma GivingUpNeedsElevenRivals(s0: State, sched: seq<nat>, p: nat)
    requires Starts(s0) && ScheduleFor(sched, |s0.procs|) && p < |s0.procs|
    requires Run(s0, sched).procs[p].pc == Done(Exhausted)
    ensures var s := Run(s0, sched);
      var ws := s.procs[p].windows;
      && |ws| == MAX_UPSERT_ATTEMPTS + 1
      && WindowsOk(ws, |s.log|)
      && (forall i, k | 0 <= i < |ws| && ws[i].readAt <= k < ws[i].lostAt :: s.log[k].pid != p)
      && DistinctPids(s.log)
      && |s.log| >= MAX_UPSERT_ATTEMPTS + 1
    ensures |s0.procs| >= MAX_UPSERT_ATTEMPTS + 2
  {
    StartInv(s0);
    RunKeepsInv(Requests(s0), First(s0.table), s0, sched);
    var s := Run(s0, sched);
    assert ProcOk(First(s0.table), s.table, s.log, s.procs[p], p);
    RequestsCommitOnce(Requests(s0), First(s0.table), s);
    RivalsOutnumberLog(Requests(s0), First(s0.table), s, p);
    WindowsNeedCommits(s.procs[p].windows, |s.log|);
  }

  // ---------------------------------------------------- first saves succeed

  ghost predicate NoClears(reqs: seq<Request>) {
    forall p | 0 <= p < |reqs| :: reqs[p].Save?
  }

  /** Without clears a row, once there, stays under its id. */
  ghost predicate RowStays(s: State) {
    forall p | 0 <= p < |s.procs| ::
      && (s.procs[p].pc.Recovering? ==> First(s.table).Some? && First(s.table).value.id == s.procs[p].pc.id)
      && (s.procs[p].pc.Done? && s.procs[p].pc.out.Failed? ==> s.procs[p].read.Some?)
  }

  /** No save can remove or replace a row: a create finds it and a matching
      update keeps its id. */
  lemma TableKeepsId(origin: Option<Row>, t: Table, log: seq<Commit>, f: Fields, id: nat, v: nat)
    requires TableOk(origin, t, log) && First(t).Some? && f.marker == Some(SINGLETON_KEY)
    ensures First(Update(t, id, f, v).0).Some? && First(Update(t, id, f, v).0).value.id == First(t).value.id
    ensures |log| > 0 ==> Create(t, f).0 == t
  {
  }

  lemma RowKeepsId(origin: Option<Row>, s: State, p: nat)
    requires p < |s.procs| && s.procs[p].req.Save? && First(s.table).Some?
    requires TableOk(origin, s.table, s.log) && ProcOk(origin, s.table, s.log, s.procs[p], p)
    ensures First(Step(s, p).table).Some? && First(Step(s, p).table).value.id == First(s.table).value.id
  {
    var me := s.procs[p];
    match me.pc
    case Creating(f) => TableKeepsId(origin, s.table, s.log, f, 0, 0);
    case Recreating(k, f) => TableKeepsId(origin, s.table, s.log, f, 0, 0);
    case Recovering(k, f, id, v) => TableKeepsId(origin, s.table, s.log, f, id, v);
    case Updating(f) => TableKeepsId(origin, s.table, s.log, f, me.read.value.id, me.read.value.version);
    case Reading => assert StepRead(s, p).table == s.table;
    case _ =>
  }

  lemma StepKeepsRow(reqs: seq<Request>, origin: Option<Row>, s: State, p: nat)
    requires Inv(reqs, origin, s) && NoClears(reqs) && RowStays(s) && p < |s.procs|
    ensures RowStays(Step(s, p))
  {
    forall q | 0 <= q < |s.procs| && q != p
      ensures Step(s, p).procs[q] == s.procs[q]
    {
      BystandersKeepLocals(s, p, q);
    }
    assert ProcOk(origin, s.table, s.log, s.procs[p], p);
    if First(s.table).Some? {
      RowKeepsId(origin, s, p);
    }
    OwnStepKeepsRow(origin, s, p);
  }

  lemma OwnStepKeepsRow(origin: Option<Row>, s: State, p: nat)
    requires p < |s.procs| && RowStays(s)
    requires TableOk(origin, s.table, s.log) && ProcOk(origin, s.table, s.log, s.procs[p], p) && s.procs[p].req.Save?
    ensures var me := Step(s, p).procs[p];
      && (me.pc.Recovering? ==> First(Step(s, p).table).Some? && First(Step(s, p).table).value.id == me.pc.id)
      && (me.pc.Done? && me.pc.out.Failed? ==> me.read.Some?)
  {
    if s.procs[p].pc.Recovering? {
      var pc := s.procs[p].pc;
      assert s.table.rows == [s.table.rows[0]];
      assert Position(s.table.rows, pc.id) == 0;
    }
  }

  lemma {:induction false} RunKeepsRow(reqs: seq<Request>, origin: Option<Row>, s: State, sched: seq<nat>)
    requires Inv(reqs, origin, s) && NoClears(reqs) && RowStays(s) && ScheduleFor(sched, |s.procs|)
    ensures RowStays(Run(s, sched))
    decreases |sched|
  {
    if sched != [] {
      StepKeepsInv(reqs, origin, s, sched[0]);
      StepKeepsRow(reqs, origin, s, sched[0]);
      RunKeepsRow(reqs, origin, Step(s, sched[0]), sched[1..]);
    }
  }

  /** The calls a request has left, at most. */
  function CallsLeft(pc: Pc): nat {
    match pc
    case Reading => 2 * MAX_UPSERT_ATTEMPTS + 2
    case Creating(_) => 2 * MAX_UPSERT_ATTEMPTS + 1
    case Listing(k, _) => if k < MAX_UPSERT_ATTEMPTS then 2 * (MAX_UPSERT_ATTEMPTS - k) else 0
    case Recreating(k, _) => if k < MAX_UPSERT_ATTEMPTS then 2 * (MAX_UPSERT_ATTEMPTS - k) - 1 else 0
    case Recovering(k, _, _, _) => if k < MAX_UPSERT_ATTEMPTS then 2 * (MAX_UPSERT_ATTEMPTS - k) - 1 else 0
    case Updating(_) => 1
    case Deleting => 1
    case Done(_) => 0
  }

  function Turns(sched: seq<nat>, p: nat): nat {
    if sched == [] then 0 else (if sched[0] == p then 1 else 0) + Turns(sched[1..], p)
  }

  lemma StepUsesACall(origin: Option<Row>, s: State, p: nat)
    requires p < |s.procs| && !s.procs[p].pc.Done?
    requires ProcOk(origin, s.table, s.log, s.procs[p], p)
    ensures CallsLeft(Step(s, p).procs[p].pc) < CallsLeft(s.procs[p].pc)
  {
    match s.procs[p].pc
    case Reading => assert CallsLeft(StepRead(s, p).procs[p].pc) < CallsLeft(Reading);
    case _ =>
  }

  /** Wait-freedom: a request is done after at most CallsLeft turns of its own,
      whatever the others do in between. */
  lemma {:induction false} EnoughTurnsFinish(reqs: seq<Request>, origin: Option<Row>, s: State, sched: seq<nat>, p: nat)
    requires Inv(reqs, origin, s) && ScheduleFor(sched, |s.procs|) && p < |s.procs|
    requires CallsLeft(s.procs[p].pc) <= Turns(sched, p)
    ensures Run(s, sched).procs[p].pc.Done?
    decreases |sched|
  {
    assert ProcOk(origin, s.table, s.log, s.procs[p], p);
    if s.procs[p].pc.Done? {
      DoneStays(s, sched, p);
    } else {
      var q := sched[0];
      StepKeepsInv(reqs, origin, s, q);
      if q == p {
        StepUsesACall(origin, s, p);
      } else {
        BystandersKeepLocals(s, q, p);
      }
      EnoughTurnsFinish(reqs, origin, Step(s, q), sched[1..], p);
    }
  }

  lemma {:induction false} DoneStays(s: State, sched: seq<nat>, p: nat)
    requires ScheduleFor(sched, |s.procs|) && p < |s.procs| && s.procs[p].pc.Done?
    ensures Run(s, sched).procs[p] == s.procs[p]
    decreases |sched|
  {
    if sched != [] {
      DoneStays(Step(s, sched[0]), sched[1..], p);
    }
  }

  /** With no clear and at most ten other saves racing, every save that found no
      row and was scheduled for its 22 calls returned an id, unless its own form
      was refused; a save that did find a row may still lose to another save. */
  lemma FirstSavesSucceed(s0: State, sched: seq<nat>, p: nat)
    requires Starts(s0) && ScheduleFor(sched, |s0.procs|) && p < |s0.procs|
    requires NoClears(Requests(s0))
    requires |s0.procs| <= MAX_UPSERT_ATTEMPTS + 1
    requires Turns(sched, p) >= 2 * MAX_UPSERT_ATTEMPTS + 2
    ensures var me := Run(s0, sched).procs[p];
      && me.pc.Done?
      && (me.read.None? ==> me.pc.out.Saved? || me.pc.out.Rejected?)
  {
    var reqs, origin := Requests(s0), First(s0.table);
    StartInv(s0);
    RunKeepsInv(reqs, origin, s0, sched);
    RunKeepsRow(reqs, origin, s0, sched);
    EnoughTurnsFinish(reqs, origin, s0, sched, p);
    var s := Run(s0, sched);
    assert ProcOk(origin, s.table, s.log, s.procs[p], p);
    if s.procs[p].pc == Done(Exhausted) {
      GivingUpNeedsElevenRivals(s0, sched, p);
    }
  }

  // ------------------------------------------------------ the bound is exact

  /** A save that never depends on what is stored. */
  ghost predicate SelfSufficient(sub: Submission) {
    sub.provider == "openai" && sub.model != "" && sub.apiKey != "" && sub.cryptor == Ready
  }

  /** Request 0 is about to list for attempt k; requests from k + 2 on have not begun. */
  ghost predicate Losing(s: State, k: nat) {
    && |s.procs| == MAX_UPSERT_ATTEMPTS + 2
    && |s.table.rows| == 1
    && s.procs[0].pc.Listing? && s.procs[0].pc.attempt == k
    && forall q | k + 2 <= q < |s.procs| ::
         s.procs[q].pc == Reading && s.procs[q].req.Save? && SelfSufficient(s.procs[q].req.sub)
  }

  /** Request 0 lists; request k + 2 reads and updates; request 0's update loses. */
  lemma LosingSteps(s: State, k: nat, s1: State, s2: State, s3: State, s4: State)
    requires k < MAX_UPSERT_ATTEMPTS && Losing(s, k)
    requires s1 == Step(s, 0) && s2 == Step(s1, k + 2) && s3 == Step(s2, k + 2) && s4 == Step(s3, 0)
    ensures if k + 1 < MAX_UPSERT_ATTEMPTS then Losing(s4, k + 1) else s4.procs[0].pc == Done(Exhausted)
  {
    var q := k + 2;
    var row := s.table.rows[0];
    assert s1.procs[0].pc == Recovering(k, s.procs[0].pc.fields, row.id, row.version);
    assert s1.procs[q] == s.procs[q];
    assert s2.procs[q].read == Some(row) && s2.procs[q].pc.Updating?;
    assert s3.table.rows == [Row(row.id, row.version + 1, s2.procs[q].pc.fields)];
    assert s3.procs[0] == s1.procs[0];
    assert s4.procs[0].pc == Retry(k, s.procs[0].pc.fields);
    forall r | q < r < |s.procs|
      ensures s4.procs[r] == s.procs[r]
    {
    }
  }

  lemma RunTwo(s: State, p: nat, q: nat, mid: State, end: State)
    requires p < |s.procs| && q < |s.procs| && mid == Step(s, p) && end == Step(mid, q)
    ensures Run(s, [p, q]) == end
  {
    RunOne(s, p);
    RunOne(mid, q);
    RunAppend(s, [p], [q]);
    assert [p] + [q] == [p, q];
  }

  /** Two turns of request q between two of request 0. */
  lemma RunRound(s: State, q: nat, half: State, end: State)
    requires 0 < |s.procs| && q < |s.procs|
    requires half == Run(s, [0, q]) && end == Run(half, [q, 0])
    ensures ScheduleFor([0, q, q, 0], |s.procs|) && Run(s, [0, q, q, 0]) == end
  {
    RunAppend(s, [0, q], [q, 0]);
    assert [0, q] + [q, 0] == [0, q, q, 0];
  }

  lemma LosingRound(s: State, k: nat)
    requires k < MAX_UPSERT_ATTEMPTS && Losing(s, k)
    ensures var s' := Run(s, [0, k + 2, k + 2, 0]);
      if k + 1 < MAX_UPSERT_ATTEMPTS then Losing(s', k + 1) else s'.procs[0].pc == Done(Exhausted)
  {
    var q := k + 2;
    var s1 := Step(s, 0);
    var s2 := Step(s1, q);
    var s3 := Step(s2, q);
    var s4 := Step(s3, 0);
    RunTwo(s, 0, q, s1, s2);
    RunTwo(s2, q, 0, s3, s4);
    RunRound(s, q, s2, s4);
    LosingSteps(s, k, s1, s2, s3, s4);
  }

  lemma {:induction false} LosingRun(s: State, k: nat) returns (sched: seq<nat>)
    requires k < MAX_UPSERT_ATTEMPTS && Losing(s, k)
    ensures ScheduleFor(sched, |s.procs|)
    ensures Run(s, sched).procs[0].pc == Done(Exhausted)
    decreases MAX_UPSERT_ATTEMPTS - k
  {
    sched := [0, k + 2, k + 2, 0];
    LosingRound(s, k);
    if k + 1 < MAX_UPSERT_ATTEMPTS {
      var rest := LosingRun(Run(s, sched), k + 1);
      RunAppend(s, sched, rest);
      sched := sched + rest;
    }
  }

  function TwelveSaves(sub: Submission): (s: State) {
    State(Table([], 0),
          seq(MAX_UPSERT_ATTEMPTS + 2, _ => Proc(Save(sub), Reading, None, 0, [])), [])
  }

  /** Both saves find no row; request 1 creates one and request 0 cannot. */
  lemma OpeningSteps(sub: Submission, s1: State, s2: State, s3: State, s4: State)
    requires SelfSufficient(sub)
    requires s1 == Step(TwelveSaves(sub), 0) && s2 == Step(s1, 1) && s3 == Step(s2, 1) && s4 == Step(s3, 0)
    ensures Losing(s4, 0)
  {
    var f := BuildFields(sub, None, 0).value;
    assert s2.procs[0].pc == Creating(f) && s2.procs[1].pc == Creating(BuildFields(sub, None, 1).value);
    assert s3.table.rows == [Row(0, 1, BuildFields(sub, None, 1).value)];
    assert Clashes(s3.table.rows[0].fields, f);
    assert s4.procs[0].pc == Listing(0, f);
  }

  /** Eleven other saves are enough to make one give up, so the bound of
      GivingUpNeedsElevenRivals and of FirstSavesSucceed cannot be improved. */
  lemma ElevenRivalsSuffice(sub: Submission) returns (sched: seq<nat>)
    requires SelfSufficient(sub)
    ensures var s0 := TwelveSaves(sub);
      && Starts(s0) && NoClears(Requests(s0)) && |s0.procs| == MAX_UPSERT_ATTEMPTS + 2
      && ScheduleFor(sched, |s0.procs|)
      && Run(s0, sched).procs[0].pc == Done(Exhausted)
  {
    var s0 := TwelveSaves(sub);
    var s1 := Step(s0, 0);
    var s2 := Step(s1, 1);
    var s3 := Step(s2, 1);
    var s4 := Step(s3, 0);
    RunTwo(s0, 0, 1, s1, s2);
    RunTwo(s2, 1, 0, s3, s4);
    RunRound(s0, 1, s2, s4);
    OpeningSteps(sub, s1, s2, s3, s4);
    var rest := LosingRun(s4, 0);
    RunAppend(s0, [0, 1, 1, 0], rest);
    sched := [0, 1, 1, 0] + rest;
  }
}
