/**
 The handlers as they are written: straight-line code and a bounded retry loop
 over a mutated table, with other requests running between any two database
 calls. Each method is shown to take exactly the steps of the process model, so
 what is proved of `Run` holds of this code under every interference.
 */
module AiProviderHandler {
  import opened Wrappers
  import opened AiProvider

  /** Which requests run before this request's k-th call. */
  type Interference = nat -> seq<nat>

  class Server {
    var rows: seq<Row>
    var nextId: nat
    var procs: seq<Proc>
    var log: seq<Commit>

    ghost function Now(): (s: State)
      reads this
    {
      State(Table(rows, nextId), procs, log)
    }

    ghost predicate Others(p: nat, turns: Interference)
      reads this
    {
      p < |procs| && forall k :: ScheduleFor(turns(k), |procs|) && p !in turns(k)
    }

    // --------------------------------------------------- the database calls

    method CreateRow(f: Fields) returns (r: Result<nat, DbError>)
      modifies this`rows, this`nextId
      ensures (Now().table, r) == Create(old(Now()).table, f)
    {
      for i := 0 to |rows|
        invariant forall j | 0 <= j < i :: !Clashes(rows[j].fields, f)
        invariant rows == old(rows) && nextId == old(nextId)
      {
        if Clashes(rows[i].fields, f) {
          return Failure(UniqueConflict);
        }
      }
      r := Success(nextId);
      rows := rows + [Row(nextId, 1, f)];
      nextId := nextId + 1;
    }

    method UpdateRow(id: nat, f: Fields, version: nat) returns (r: Result<nat, DbError>)
      modifies this`rows
      ensures (Now().table, r) == Update(old(Now()).table, id, f, version)
    {
      var i := Position(rows, id);
      if i == |rows| {
        return Failure(NotFound);
      }
      if rows[i].version != version {
        return Failure(VersionConflict);
      }
      for j := 0 to |rows|
        invariant forall k | 0 <= k < j :: k == i || !Clashes(rows[k].fields, f)
        invariant rows == old(rows)
      {
        if j != i && Clashes(rows[j].fields, f) {
          return Failure(UniqueConflict);
        }
      }
      rows := rows[i := Row(id, version + 1, f)];
      r := Success(version + 1);
    }

    method DeleteRow(id: nat) returns (r: Result<nat, DbError>)
      modifies this`rows
      ensures (Now().table, r) == Delete(old(Now()).table, id)
    {
      var i := Position(rows, id);
      if i == |rows| {
        return Failure(NotFound);
      }
      rows := rows[..i] + rows[i + 1..];
      r := Success(id);
    }

    // ------------------------------------------------ a request's own record

    method Record(p: nat, me: Proc)
      requires p < |procs|
      modifies this`procs
      ensures procs == old(procs)[p := me]
    {
      procs := procs[p := me];
    }

    method RecordCommit(p: nat, c: Commit, out: Outcome)
      requires p < |procs|
      modifies this`procs, this`log
      ensures procs == old(procs)[p := old(procs)[p].(pc := Done(out))] && log == old(log) + [c]
    {
      procs := procs[p := procs[p].(pc := Done(out))];
      log := log + [c];
    }

    // ---------------------------------------------------------- other requests

    /** The others run for a while; request p's locals are its own. */
    method LetOthersRun(p: nat, turns: seq<nat>)
      requires p < |procs| && ScheduleFor(turns, |procs|) && p !in turns
      modifies this
      ensures Now() == Run(old(Now()), turns)
      ensures |procs| == old(|procs|) && procs[p] == old(procs[p])
    {
      ghost var s0 := Now();
      for i := 0 to |turns|
        invariant |procs| == |s0.procs| && Now() == Run(s0, turns[..i])
      {
        var s := Step(State(Table(rows, nextId), procs, log), turns[i]);
        rows, nextId, procs, log := s.table.rows, s.table.nextId, s.procs, s.log;
        RunAppend(s0, turns[..i], [turns[i]]);
        RunOne(Run(s0, turns[..i]), turns[i]);
        assert turns[..i] + [turns[i]] == turns[..i + 1];
      }
      assert turns[..|turns|] == turns;
      IdleKeepsLocals(s0, turns, p);
    }

    /** Extending a run by the others' turns and then one call of request p. */
    static lemma ExtendRun(s0: State, sched: seq<nat>, turns: seq<nat>, p: nat, before: State)
      requires ScheduleFor(sched, |s0.procs|) && ScheduleFor(turns, |s0.procs|) && p < |s0.procs|
      requires before == Run(Run(s0, sched), turns)
      ensures ScheduleFor(sched + turns + [p], |s0.procs|)
      ensures Run(s0, sched + turns + [p]) == Step(before, p)
    {
      RunAppend(s0, sched, turns);
      RunAppend(s0, sched + turns, [p]);
      RunOne(before, p);
    }

    // ---------------------------------------------------------- the handlers

    method BuildAIProviderFields(sub: Submission, existing: Option<Fields>, nonce: nat)
      returns (r: Result<Fields, FormError>)
      ensures r == BuildFields(sub, existing, nonce)
    {
      if sub.provider != "ollama" && sub.provider != "anthropic" && sub.provider != "openai" {
        return Failure(UnknownProvider);
      }
      if sub.model == "" {
        return Failure(ModelRequired);
      }
      var fields := Fields(sub.provider, sub.model, Some(SINGLETON_KEY), None, None);
      if sub.provider == "ollama" {
        if sub.baseUrl.raw == "" {
          return Failure(BaseUrlRequired);
        }
        if !AcceptableOllamaUrl(sub.baseUrl) {
          return Failure(BaseUrlRejected);
        }
        fields := fields.(baseUrl := Some(sub.baseUrl));
        return Success(fields);
      }
      if sub.apiKey != "" {
        if sub.cryptor == Disabled {
          return Failure(NoEncryptionKey);
        }
        if sub.cryptor == Broken {
          return Failure(EncryptionFailed);
        }
        fields := fields.(apiKey := Some(Secret(sub.apiKey, nonce)));
        return Success(fields);
      }
      if existing.Some? && existing.value.provider == sub.provider && existing.value.apiKey.Some? {
        fields := fields.(apiKey := existing.value.apiKey);
        return Success(fields);
      }
      return Failure(KeyRequired);
    }

    /** One write of a create attempt; `onConflict` is where a lost race goes. */
    method TryCreate(p: nat, fields: Fields, turns: seq<nat>, onConflict: Pc)
      returns (done: bool, out: Outcome, ghost sched: seq<nat>)
      requires p < |procs| && ScheduleFor(turns, |procs|) && p !in turns
      requires || (procs[p].pc == Creating(fields) && onConflict == Listing(0, fields))
               || (procs[p].pc.Recreating? && procs[p].pc.fields == fields
                   && onConflict == Retry(procs[p].pc.attempt, fields))
      modifies this
      ensures ScheduleFor(sched, old(|procs|)) && Now() == Run(old(Now()), sched)
      ensures |procs| == old(|procs|) && procs[p].pc == if done then Done(out) else onConflict
    {
      ghost var s0 := Now();
      LetOthersRun(p, turns);
      ghost var before := Now();
      sched := turns + [p];
      ExtendRun(s0, [], turns, p, before);
      assert [] + turns + [p] == sched;

      var r := CreateRow(fields);
      if r.Success? {
        done, out := true, Saved(r.value);
        RecordCommit(p, Put(p, Row(r.value, 1, fields)), out);
      } else {
        done, out := false, Exhausted;
        Record(p, procs[p].(pc := onConflict, windows := procs[p].windows + [Window(procs[p].readAt, |log|)]));
      }
      assert Now() == StepCreate(before, p, fields, onConflict);
    }

    /** One write of an update attempt against the row this attempt listed. */
    method TryRecover(p: nat, attempt: nat, fields: Fields, id: nat, v: nat, turns: seq<nat>)
      returns (done: bool, out: Outcome, ghost sched: seq<nat>)
      requires p < |procs| && ScheduleFor(turns, |procs|) && p !in turns
      requires procs[p].pc == Recovering(attempt, fields, id, v)
      modifies this
      ensures ScheduleFor(sched, old(|procs|)) && Now() == Run(old(Now()), sched)
      ensures |procs| == old(|procs|) && procs[p].pc == if done then Done(out) else Retry(attempt, fields)
    {
      ghost var s0 := Now();
      LetOthersRun(p, turns);
      ghost var before := Now();
      sched := turns + [p];
      ExtendRun(s0, [], turns, p, before);
      assert [] + turns + [p] == sched;

      var r := UpdateRow(id, fields, v);
      if r.Success? {
        done, out := true, Saved(id);
        RecordCommit(p, Put(p, Row(id, r.value, fields)), out);
      } else if r.error == VersionConflict {
        done, out := false, Exhausted;
        Record(p, procs[p].(pc := Retry(attempt, fields),
                            windows := procs[p].windows + [Window(procs[p].readAt, |log|)]));
      } else {
        done, out := true, Failed(r.error);
        Record(p, procs[p].(pc := Done(out)));
      }
      assert Now() == StepRecover(before, p, attempt, fields, id, v);
    }

    method CreateOrRecover(p: nat, fields: Fields, turns: Interference)
      returns (out: Outcome, ghost sched: seq<nat>)
      requires Others(p, turns) && procs[p].pc == Creating(fields)
      modifies this
      ensures ScheduleFor(sched, old(|procs|)) && Now() == Run(old(Now()), sched)
      ensures |procs| == old(|procs|) && procs[p].pc == Done(out)
    {
      ghost var s0 := Now();
      var done;
      done, out, sched := TryCreate(p, fields, turns(0), Listing(0, fields));
      if done {
        return;
      }
      var attempt := 0;
      while attempt < MAX_UPSERT_ATTEMPTS
        invariant attempt <= MAX_UPSERT_ATTEMPTS
        invariant |procs| == |s0.procs| && ScheduleFor(sched, |procs|) && Now() == Run(s0, sched)
        invariant procs[p].pc == if attempt < MAX_UPSERT_ATTEMPTS then Listing(attempt, fields) else Done(Exhausted)
      {
        LetOthersRun(p, turns(2 * attempt + 1));
        ExtendRun(s0, sched, turns(2 * attempt + 1), p, Now());
        sched := sched + turns(2 * attempt + 1) + [p];
        ghost var more;
        var existing := rows;
        if |existing| == 0 {
          Record(p, procs[p].(pc := Recreating(attempt, fields), readAt := |log|));
          assert Now() == Run(s0, sched);
          done, out, more := TryCreate(p, fields, turns(2 * attempt + 2), Retry(attempt, fields));
        } else {
          var id, v := existing[0].id, existing[0].version;
          Record(p, procs[p].(pc := Recovering(attempt, fields, id, v), readAt := |log|));
          assert Now() == Run(s0, sched);
          done, out, more := TryRecover(p, attempt, fields, id, v, turns(2 * attempt + 2));
        }
        RunAppend(s0, sched, more);
        sched := sched + more;
        if done {
          return;
        }
        attempt := attempt + 1;
      }
      out := Exhausted;
    }

    /** The write over the row the handler read. */
    method TryUpdate(p: nat, fields: Fields, seen: Row, turns: seq<nat>) returns (out: Outcome, ghost sched: seq<nat>)
      requires p < |procs| && ScheduleFor(turns, |procs|) && p !in turns
      requires procs[p].pc == Updating(fields) && procs[p].read == Some(seen)
      modifies this
      ensures ScheduleFor(sched, old(|procs|)) && Now() == Run(old(Now()), sched)
      ensures |procs| == old(|procs|) && procs[p].pc == Done(out)
    {
      ghost var s0 := Now();
      LetOthersRun(p, turns);
      ghost var before := Now();
      sched := turns + [p];
      ExtendRun(s0, [], turns, p, before);
      assert [] + turns + [p] == sched;

      var r := UpdateRow(seen.id, fields, seen.version);
      if r.Success? {
        out := Saved(seen.id);
        RecordCommit(p, Put(p, Row(seen.id, r.value, fields)), out);
      } else {
        out := Failed(r.error);
        Record(p, procs[p].(pc := Done(out)));
      }
      assert Now() == StepUpdate(before, p, fields, seen);
    }

    /** The delete of the row the handler read. */
    method TryDelete(p: nat, id: nat, turns: seq<nat>) returns (out: Outcome, ghost sched: seq<nat>)
      requires p < |procs| && ScheduleFor(turns, |procs|) && p !in turns
      requires procs[p].pc == Deleting && procs[p].read.Some? && procs[p].read.value.id == id
      modifies this
      ensures ScheduleFor(sched, old(|procs|)) && Now() == Run(old(Now()), sched)
      ensures |procs| == old(|procs|) && procs[p].pc == Done(out)
    {
      ghost var s0 := Now();
      LetOthersRun(p, turns);
      ghost var before := Now();
      sched := turns + [p];
      ExtendRun(s0, [], turns, p, before);
      assert [] + turns + [p] == sched;

      var r := DeleteRow(id);
      if r.Success? {
        out := Cleared(true);
        RecordCommit(p, Drop(p, id), out);
      } else {
        out := Failed(r.error);
        Record(p, procs[p].(pc := Done(out)));
      }
      assert Now() == StepDelete(before, p, id);
    }

    method AiProviderSettingsSave(p: nat, turns: Interference)
      returns (out: Outcome, ghost sched: seq<nat>)
      requires Others(p, turns) && procs[p].pc == Reading && procs[p].req.Save?
      modifies this
      ensures ScheduleFor(sched, old(|procs|)) && Now() == Run(old(Now()), sched)
      ensures |procs| == old(|procs|) && procs[p].pc == Done(out)
    {
      ghost var s0 := Now();
      LetOthersRun(p, turns(0));
      ghost var before := Now();
      sched := turns(0) + [p];
      ExtendRun(s0, [], turns(0), p, before);
      assert [] + turns(0) + [p] == sched;

      var sub := procs[p].req.sub;
      var existing: Option<Row> := if rows == [] then None else Some(rows[0]);
      var stored: Option<Fields> := if existing.None? then None else Some(existing.value.fields);
      var built := BuildAIProviderFields(sub, stored, p);
      if built.Failure? {
        out := Rejected(built.error);
        Record(p, procs[p].(pc := Done(out), read := existing, readAt := |log|));
        assert Now() == Step(before, p);
        return;
      }
      var fields := built.value;
      if existing.None? {
        Record(p, procs[p].(pc := Creating(fields), read := existing, readAt := |log|));
        assert Now() == Step(before, p);
        ghost var more;
        out, more := CreateOrRecover(p, fields, k => turns(k + 1));
        RunAppend(s0, sched, more);
        sched := sched + more;
      } else {
        Record(p, procs[p].(pc := Updating(fields), read := existing, readAt := |log|));
        assert Now() == Step(before, p);
        ghost var more;
        out, more := TryUpdate(p, fields, existing.value, turns(1));
        RunAppend(s0, sched, more);
        sched := sched + more;
      }
    }

    method AiProviderSettingsClear(p: nat, turns: Interference)
      returns (out: Outcome, ghost sched: seq<nat>)
      requires Others(p, turns) && procs[p].pc == Reading && procs[p].req.Clear?
      modifies this
      ensures ScheduleFor(sched, old(|procs|)) && Now() == Run(old(Now()), sched)
      ensures |procs| == old(|procs|) && procs[p].pc == Done(out)
    {
      ghost var s0 := Now();
      LetOthersRun(p, turns(0));
      ghost var before := Now();
      sched := turns(0) + [p];
      ExtendRun(s0, [], turns(0), p, before);
      assert [] + turns(0) + [p] == sched;

      if rows == [] {
        out := Cleared(false);
        Record(p, procs[p].(pc := Done(out), read := None, readAt := |log|));
        assert Now() == Step(before, p);
        return;
      }
      var row := rows[0];
      Record(p, procs[p].(pc := Deleting, read := Some(row), readAt := |log|));
      assert Now() == Step(before, p);
      ghost var more;
      out, more := TryDelete(p, row.id, turns(1));
      RunAppend(s0, sched, more);
      sched := sched + more;
    }
  }
}
