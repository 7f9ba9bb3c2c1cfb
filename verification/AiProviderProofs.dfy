/**
 Safety of every interleaving of saves and clears: the table refines an atomic
 versioned register, requests commit exactly what they report, stored keys follow
 the form's rules, and a save gives up only after eleven commits by others.
 */
module AiProviderProofs {
  import opened Wrappers
  import opened AiProvider

  // -------------------------------------------------------- the form's rules

  /** The form accepts exactly what it can store: a known provider and a model, with
      an acceptable URL for Ollama and otherwise a key, typed and encryptable or
      already on file for that very provider. What is stored is what was submitted,
      or for a blank key the one on file. */
  lemma BuildFieldsRules(sub: Submission, existing: Option<Fields>, nonce: nat)
    ensures var onFile := existing.Some? && existing.value.provider == sub.provider && existing.value.apiKey.Some?;
      BuildFields(sub, existing, nonce).Success? <==>
        && sub.provider in ["ollama", "anthropic", "openai"] && sub.model != ""
        && if sub.provider == "ollama" then sub.baseUrl.raw != "" && AcceptableOllamaUrl(sub.baseUrl)
           else if sub.apiKey != "" then sub.cryptor == Ready else onFile
    ensures var r := BuildFields(sub, existing, nonce);
      r.Success? ==>
        && WellKeyed(r.value)
        && r.value.provider == sub.provider && r.value.model == sub.model
        && (sub.provider == "ollama" ==> r.value.baseUrl == Some(sub.baseUrl))
        && (sub.provider != "ollama" ==>
              if sub.apiKey != "" then r.value.apiKey == Some(Secret(sub.apiKey, nonce))
              else existing.Some? && existing.value.provider == sub.provider && r.value.apiKey == existing.value.apiKey)
  {
  }

  // -------------------------------------------------------------- invariant

  /** A list of lost writes: each window saw a commit, and they do not overlap. */
  ghost predicate WindowsOk(ws: seq<Window>, end: nat) {
    && (forall i | 0 <= i < |ws| :: ws[i].readAt < ws[i].lostAt <= end)
    && (forall i, j | 0 <= i < j < |ws| :: ws[i].lostAt <= ws[j].readAt)
  }

  /** While nothing was committed since the last read, the table is as read. */
  ghost predicate Unmoved(t: Table, log: seq<Commit>, readAt: nat, saw: Option<(nat, nat)>) {
    |log| == readAt ==>
      match First(t)
      case None => saw.None?
      case Some(row) => saw == Some((row.id, row.version))
  }

  /** The row a request read is older than, or is, the row now under that id. */
  ghost predicate ReadOk(t: Table, read: Option<Row>) {
    read.Some? ==>
      && read.value.id < t.nextId
      && (First(t).Some? && First(t).value.id == read.value.id ==>
            && read.value.version <= First(t).value.version
            && (read.value.version == First(t).value.version ==> First(t).value == read.value))
  }

  /** A request that lost the race to create: it read no row, its fields come
      from its own form alone, and it has lost exactly once per attempt. */
  ghost predicate RacerOk(origin: Option<Row>, log: seq<Commit>, me: Proc, p: nat, f: Fields, losses: nat, end: nat) {
    && me.req.Save? && BuildFields(me.req.sub, None, p) == Success(f) && WellKeyed(f)
    && me.read.None?
    && (origin.None? || |log| > 0)
    && |me.windows| == losses
    && WindowsOk(me.windows, end)
  }

  ghost predicate PcOk(origin: Option<Row>, t: Table, log: seq<Commit>, me: Proc, p: nat) {
    match me.pc
    case Reading => me.read.None? && me.windows == []
    case Creating(f) => RacerOk(origin, log, me, p, f, 0, me.readAt) && Unmoved(t, log, me.readAt, None)
    case Listing(k, f) => k < MAX_UPSERT_ATTEMPTS && RacerOk(origin, log, me, p, f, k + 1, |log|)
    case Recreating(k, f) =>
      k < MAX_UPSERT_ATTEMPTS && RacerOk(origin, log, me, p, f, k + 1, me.readAt) && Unmoved(t, log, me.readAt, None)
    case Recovering(k, f, id, v) =>
      && k < MAX_UPSERT_ATTEMPTS && RacerOk(origin, log, me, p, f, k + 1, me.readAt)
      && Unmoved(t, log, me.readAt, Some((id, v)))
    case Updating(f) =>
      && me.req.Save? && me.read.Some? && me.windows == []
      && BuildFields(me.req.sub, Some(me.read.value.fields), p) == Success(f) && WellKeyed(f)
    case Deleting => me.req.Clear? && me.read.Some? && me.windows == []
    case Done(Saved(_)) => me.req.Save?
    case Done(Rejected(_)) => me.req.Save?
    case Done(Failed(_)) => true
    case Done(Cleared(_)) => me.req.Clear?
    case Done(Exhausted) =>
      me.req.Save? && me.read.None? && |me.windows| == MAX_UPSERT_ATTEMPTS + 1 && WindowsOk(me.windows, |log|)
  }

  /** What a request has committed is what it reports. */
  ghost predicate ReportOk(mine: seq<Commit>, pc: Pc) {
    match pc
    case Done(Saved(id)) => |mine| == 1 && mine[0].Put? && mine[0].row.id == id
    case Done(Cleared(true)) => |mine| == 1 && mine[0].Drop?
    case _ => mine == []
  }

  ghost predicate ProcOk(origin: Option<Row>, t: Table, log: seq<Commit>, me: Proc, p: nat) {
    && me.readAt <= |log|
    && ReadOk(t, me.read)
    && ReportOk(CommitsOf(log, p), me.pc)
    && PcOk(origin, t, log, me, p)
  }

  /** A put holds what its request's form builds, either from nothing or from the
      very row it replaced. */
  ghost predicate PutOk(reqs: seq<Request>, prev: Option<Row>, c: Commit) {
    && c.pid < |reqs|
    && (c.Put? ==>
          && reqs[c.pid].Save?
          && (|| BuildFields(reqs[c.pid].sub, None, c.pid) == Success(c.row.fields)
              || (prev.Some? && BuildFields(reqs[c.pid].sub, Some(prev.value.fields), c.pid) == Success(c.row.fields))))
    && (c.Drop? ==> reqs[c.pid].Clear?)
  }

  ghost predicate LogOk(reqs: seq<Request>, origin: Option<Row>, log: seq<Commit>) {
    forall i | 0 <= i < |log| :: PutOk(reqs, Register(origin, log[..i]), log[i])
  }

  ghost predicate TableOk(origin: Option<Row>, t: Table, log: seq<Commit>) {
    && |t.rows| <= 1
    && First(t) == Register(origin, log)
    && LegalHistory(origin, log)
    && (forall id: nat :: UsedId(origin, log, id) ==> id < t.nextId)
    && (First(t).Some? && |log| > 0 ==> WellKeyed(First(t).value.fields))
  }

  ghost predicate SameRequests(reqs: seq<Request>, s: State) {
    |reqs| == |s.procs| && forall p | 0 <= p < |reqs| :: s.procs[p].req == reqs[p]
  }

  ghost predicate Inv(reqs: seq<Request>, origin: Option<Row>, s: State) {
    && SameRequests(reqs, s)
    && TableOk(origin, s.table, s.log)
    && LogOk(reqs, origin, s.log)
    && forall p: nat | p < |s.procs| :: ProcOk(origin, s.table, s.log, s.procs[p], p)
  }

  lemma StartInv(s: State)
    requires Starts(s)
    ensures Inv(Requests(s), First(s.table), s)
  {
  }

  function Requests(s: State): (reqs: seq<Request>)
    ensures SameRequests(reqs, s)
  {
    seq(|s.procs|, p requires 0 <= p < |s.procs| => s.procs[p].req)
  }

  // ---------------------------------------------------- steps that do not write

  /** Only p's own locals changed, and they are in order again. */
  lemma SilentStep(reqs: seq<Request>, origin: Option<Row>, s: State, p: nat, s': State)
    requires Inv(reqs, origin, s) && p < |s.procs|
    requires s'.table == s.table && s'.log == s.log
    requires |s'.procs| == |s.procs| && s'.procs == s.procs[p := s'.procs[p]]
    requires s'.procs[p].req == s.procs[p].req
    requires ProcOk(origin, s.table, s.log, s'.procs[p], p)
    ensures Inv(reqs, origin, s')
  {
  }

  // ------------------------------------------------------- steps that write

  lemma RegisterOfPrefix(origin: Option<Row>, log: seq<Commit>, c: Commit)
    requires LegalHistory(origin, log) && LegalWrite(origin, log, c)
    ensures LegalHistory(origin, log + [c])
  {
    assert (log + [c])[..|log|] == log;
    forall i | 0 <= i < |log| + 1
      ensures LegalWrite(origin, (log + [c])[..i], (log + [c])[i])
    {
      if i < |log| {
        assert (log + [c])[..i] == log[..i];
      }
    }
  }

  lemma LogGrows(reqs: seq<Request>, origin: Option<Row>, log: seq<Commit>, c: Commit)
    requires LogOk(reqs, origin, log) && PutOk(reqs, Register(origin, log), c)
    ensures LogOk(reqs, origin, log + [c])
  {
    assert (log + [c])[..|log|] == log;
    forall i | 0 <= i < |log| + 1
      ensures PutOk(reqs, Register(origin, (log + [c])[..i]), (log + [c])[i])
    {
      if i < |log| {
        assert (log + [c])[..i] == log[..i];
      }
    }
  }

  lemma CommitsOfAppend(log: seq<Commit>, c: Commit, p: nat)
    ensures CommitsOf(log + [c], p) == if c.pid == p then CommitsOf(log, p) + [c] else CommitsOf(log, p)
  {
    assert (log + [c])[..|log|] == log;
  }

  /** What a successful call did to a table of at most one row. */
  ghost predicate Wrote(origin: Option<Row>, t: Table, log: seq<Commit>, c: Commit, t': Table) {
    && |t'.rows| <= 1
    && t.nextId <= t'.nextId
    && First(t') == Register(origin, log + [c])
    && (c.Put? ==> c.row.id < t'.nextId && WellKeyed(c.row.fields))
    && LegalWrite(origin, log, c)
  }

  lemma WrittenTable(origin: Option<Row>, t: Table, log: seq<Commit>, c: Commit, t': Table)
    requires TableOk(origin, t, log) && Wrote(origin, t, log, c, t')
    ensures TableOk(origin, t', log + [c])
  {
    RegisterOfPrefix(origin, log, c);
    forall id: nat | UsedId(origin, log + [c], id)
      ensures id < t'.nextId
    {
      if !(origin.Some? && origin.value.id == id) {
        var i :| 0 <= i < |log + [c]| && (log + [c])[i].Put? && (log + [c])[i].row.id == id;
        if i < |log| {
          assert UsedId(origin, log, id) by { assert log[i].Put? && log[i].row.id == id; }
        }
      } else {
        assert UsedId(origin, log, id);
      }
    }
  }

  /** Another request's commit leaves a request's locals in order. */
  lemma BystanderOk(origin: Option<Row>, t: Table, log: seq<Commit>, c: Commit, t': Table, me: Proc, p: nat)
    requires TableOk(origin, t, log) && Wrote(origin, t, log, c, t')
    requires ProcOk(origin, t, log, me, p) && c.pid != p
    requires c.Put? && First(t).None? ==> t.nextId <= c.row.id
    ensures ProcOk(origin, t', log + [c], me, p)
  {
    CommitsOfAppend(log, c, p);
  }

  lemma WritingStep(reqs: seq<Request>, origin: Option<Row>, s: State, p: nat, t': Table, c: Commit, out: Outcome)
    requires Inv(reqs, origin, s) && p < |s.procs| && c.pid == p
    requires Wrote(origin, s.table, s.log, c, t')
    requires c.Put? && First(s.table).None? ==> s.table.nextId <= c.row.id
    requires CommitsOf(s.log, p) == []
    requires PutOk(reqs, Register(origin, s.log), c)
    requires if c.Put? then out == Saved(c.row.id) else out == Cleared(true)
    ensures Inv(reqs, origin, Committed(s, p, t', c, out))
  {
    var s' := Committed(s, p, t', c, out);
    WrittenTable(origin, s.table, s.log, c, t');
    LogGrows(reqs, origin, s.log, c);
    CommitsOfAppend(s.log, c, p);
    forall q: nat | q < |s'.procs|
      ensures ProcOk(origin, t', s'.log, s'.procs[q], q)
    {
      if q != p {
        BystanderOk(origin, s.table, s.log, c, t', s.procs[q], q);
      }
    }
  }

  // ------------------------------------------------------------ each call

  /** The first read leaves a request's locals in order. */
  lemma FirstReadOk(origin: Option<Row>, s: State, p: nat)
    requires p < |s.procs| && s.procs[p].pc.Reading?
    requires TableOk(origin, s.table, s.log) && ProcOk(origin, s.table, s.log, s.procs[p], p)
    ensures ProcOk(origin, s.table, s.log, StepRead(s, p).procs[p], p)
  {
    var me := StepRead(s, p).procs[p];
    if me.req.Save? {
      BuildFieldsRules(me.req.sub, if me.read.None? then None else Some(me.read.value.fields), p);
    }
    if First(s.table).Some? {
      assert UsedId(origin, s.log, First(s.table).value.id);
    }
    assert me.read == First(s.table) && me.windows == [] && me.readAt == |s.log|;
  }

  /** And nothing else. */
  lemma FirstReadIsSilent(s: State, p: nat)
    requires p < |s.procs| && s.procs[p].pc.Reading?
    ensures Step(s, p) == StepRead(s, p)
    ensures var s' := StepRead(s, p);
      && s'.table == s.table && s'.log == s.log && |s'.procs| == |s.procs|
      && s'.procs == s.procs[p := s'.procs[p]] && s'.procs[p].req == s.procs[p].req
  {
  }

  lemma ReadKeepsInv(reqs: seq<Request>, origin: Option<Row>, s: State, p: nat)
    requires Inv(reqs, origin, s) && p < |s.procs| && s.procs[p].pc.Reading?
    ensures Inv(reqs, origin, Step(s, p))
  {
    FirstReadIsSilent(s, p);
    FirstReadOk(origin, s, p);
    SilentStep(reqs, origin, s, p, Step(s, p));
  }

  /** A create that lost: a row appeared since this attempt's read. */
  lemma LostCreate(origin: Option<Row>, s: State, p: nat, onConflict: Pc)
    requires p < |s.procs| && (s.procs[p].pc.Creating? || s.procs[p].pc.Recreating?)
    requires var pc := s.procs[p].pc;
      onConflict == if pc.Creating? then Listing(0, pc.fields) else Retry(pc.attempt, pc.fields)
    requires TableOk(origin, s.table, s.log) && ProcOk(origin, s.table, s.log, s.procs[p], p)
    requires Create(s.table, s.procs[p].pc.fields).1.Failure?
    ensures ProcOk(origin, s.table, s.log, StepCreate(s, p, s.procs[p].pc.fields, onConflict).procs[p], p)
  {
    var me := s.procs[p];
    var me' := StepCreate(s, p, me.pc.fields, onConflict).procs[p];
    assert s.table.rows != [];
    assert me.readAt < |s.log|;
    assert me'.windows == me.windows + [Window(me.readAt, |s.log|)];
    assert WindowsOk(me'.windows, |s.log|);
  }

  lemma CreateKeepsInv(reqs: seq<Request>, origin: Option<Row>, s: State, p: nat, onConflict: Pc)
    requires Inv(reqs, origin, s) && p < |s.procs| && (s.procs[p].pc.Creating? || s.procs[p].pc.Recreating?)
    requires var pc := s.procs[p].pc;
      onConflict == if pc.Creating? then Listing(0, pc.fields) else Retry(pc.attempt, pc.fields)
    ensures Inv(reqs, origin, StepCreate(s, p, s.procs[p].pc.fields, onConflict))
  {
    var f := s.procs[p].pc.fields;
    var (t, r) := Create(s.table, f);
    if r.Success? {
      CreateWrites(origin, s.table, s.log, p, f);
      WritingStep(reqs, origin, s, p, t, Put(p, Row(r.value, 1, f)), Saved(r.value));
    } else {
      LostCreate(origin, s, p, onConflict);
      SilentStep(reqs, origin, s, p, StepCreate(s, p, f, onConflict));
    }
  }

  /** An accepted create: the table was empty, or held the unmarked initial row,
      which no request that is about to create can still find there. */
  lemma CreateWrites(origin: Option<Row>, t: Table, log: seq<Commit>, p: nat, f: Fields)
    requires TableOk(origin, t, log) && WellKeyed(f) && (origin.None? || |log| > 0)
    requires Create(t, f).1.Success?
    ensures First(t).None? && Create(t, f).1.value == t.nextId
    ensures Wrote(origin, t, log, Put(p, Row(t.nextId, 1, f)), Create(t, f).0)
  {
    assert t.rows == [];
  }

  lemma ListKeepsInv(reqs: seq<Request>, origin: Option<Row>, s: State, p: nat)
    requires Inv(reqs, origin, s) && p < |s.procs| && s.procs[p].pc.Listing?
    ensures Inv(reqs, origin, Step(s, p))
  {
    SilentStep(reqs, origin, s, p, Step(s, p));
  }

  /** An accepted update of a table of at most one row. */
  lemma UpdateWrites(origin: Option<Row>, t: Table, log: seq<Commit>, p: nat, id: nat, f: Fields, v: nat)
    requires TableOk(origin, t, log) && WellKeyed(f) && Update(t, id, f, v).1.Success?
    ensures First(t).Some? && First(t).value.id == id && First(t).value.version == v
    ensures Update(t, id, f, v).1.value == v + 1
    ensures Wrote(origin, t, log, Put(p, Row(id, v + 1, f)), Update(t, id, f, v).0)
  {
    assert UsedId(origin, log, First(t).value.id);
  }

  /** A recovery that lost: the table moved since this attempt's read, so its
      window holds a commit. */
  lemma LostRecovery(origin: Option<Row>, s: State, p: nat)
    requires p < |s.procs| && s.procs[p].pc.Recovering?
    requires TableOk(origin, s.table, s.log) && ProcOk(origin, s.table, s.log, s.procs[p], p)
    requires var pc := s.procs[p].pc; Update(s.table, pc.id, pc.fields, pc.version).1.Failure?
    ensures ProcOk(origin, s.table, s.log, Step(s, p).procs[p], p)
  {
    var Recovering(k, f, id, v) := s.procs[p].pc;
    var me, me' := s.procs[p], Step(s, p).procs[p];
    if Update(s.table, id, f, v).1.error == VersionConflict {
      assert me.readAt < |s.log|;
      assert me'.windows == me.windows + [Window(me.readAt, |s.log|)];
      assert WindowsOk(me'.windows, |s.log|);
    } else {
      assert me'.windows == me.windows;
    }
  }

  lemma RecoverKeepsInv(reqs: seq<Request>, origin: Option<Row>, s: State, p: nat)
    requires Inv(reqs, origin, s) && p < |s.procs| && s.procs[p].pc.Recovering?
    ensures Inv(reqs, origin, Step(s, p))
  {
    var Recovering(k, f, id, v) := s.procs[p].pc;
    if Update(s.table, id, f, v).1.Success? {
      UpdateWrites(origin, s.table, s.log, p, id, f, v);
      WritingStep(reqs, origin, s, p, Update(s.table, id, f, v).0, Put(p, Row(id, v + 1, f)), Saved(id));
    } else {
      LostRecovery(origin, s, p);
      SilentStep(reqs, origin, s, p, Step(s, p));
    }
  }

  lemma UpdateKeepsInv(reqs: seq<Request>, origin: Option<Row>, s: State, p: nat)
    requires Inv(reqs, origin, s) && p < |s.procs| && s.procs[p].pc.Updating?
    ensures Inv(reqs, origin, StepUpdate(s, p, s.procs[p].pc.fields, s.procs[p].read.value))
  {
    var f, seen := s.procs[p].pc.fields, s.procs[p].read.value;
    var (t, r) := Update(s.table, seen.id, f, seen.version);
    if r.Success? {
      UpdateWrites(origin, s.table, s.log, p, seen.id, f, seen.version);
      assert First(s.table).value == seen;
      WritingStep(reqs, origin, s, p, t, Put(p, Row(seen.id, seen.version + 1, f)), Saved(seen.id));
    } else {
      SilentStep(reqs, origin, s, p, StepUpdate(s, p, f, seen));
    }
  }

  /** An accepted delete empties a table of at most one row. */
  lemma DeleteWrites(origin: Option<Row>, t: Table, log: seq<Commit>, p: nat, id: nat)
    requires TableOk(origin, t, log) && Delete(t, id).1.Success?
    ensures Wrote(origin, t, log, Drop(p, id), Delete(t, id).0)
  {
    assert Position(t.rows, id) == 0;
    assert Delete(t, id).0.rows == [];
  }

  lemma DeleteKeepsInv(reqs: seq<Request>, origin: Option<Row>, s: State, p: nat)
    requires Inv(reqs, origin, s) && p < |s.procs| && s.procs[p].pc.Deleting?
    ensures Inv(reqs, origin, StepDelete(s, p, s.procs[p].read.value.id))
  {
    var id := s.procs[p].read.value.id;
    assert ProcOk(origin, s.table, s.log, s.procs[p], p);
    if Delete(s.table, id).1.Success? {
      DeleteWrites(origin, s.table, s.log, p, id);
      assert Register(origin, s.log) == First(s.table);
      WritingStep(reqs, origin, s, p, Delete(s.table, id).0, Drop(p, id), Cleared(true));
    } else {
      SilentStep(reqs, origin, s, p, StepDelete(s, p, id));
    }
  }

  lemma StepKeepsInv(reqs: seq<Request>, origin: Option<Row>, s: State, p: nat)
    requires Inv(reqs, origin, s) && p < |s.procs|
    ensures Inv(reqs, origin, Step(s, p))
  {
    match s.procs[p].pc
    case Reading => ReadKeepsInv(reqs, origin, s, p);
    case Creating(f) => CreateKeepsInv(reqs, origin, s, p, Listing(0, f));
    case Recreating(k, f) => CreateKeepsInv(reqs, origin, s, p, Retry(k, f));
    case Listing(_, _) => ListKeepsInv(reqs, origin, s, p);
    case Recovering(_, _, _, _) => RecoverKeepsInv(reqs, origin, s, p);
    case Updating(_) => UpdateKeepsInv(reqs, origin, s, p);
    case Deleting => DeleteKeepsInv(reqs, origin, s, p);
    case Done(_) =>
  }

  lemma {:induction false} RunKeepsInv(reqs: seq<Request>, origin: Option<Row>, s: State, sched: seq<nat>)
    requires Inv(reqs, origin, s) && ScheduleFor(sched, |s.procs|)
    ensures Inv(reqs, origin, Run(s, sched))
    decreases |sched|
  {
    if sched != [] {
      StepKeepsInv(reqs, origin, s, sched[0]);
      RunKeepsInv(reqs, origin, Step(s, sched[0]), sched[1..]);
    }
  }
}
