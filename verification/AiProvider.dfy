/**
 The tenant's single AIProviderConnection row, saved and cleared by any number
 of concurrent requests. Every database call is one atomic step; a request is a
 process whose program counter names the call it is about to make. `Step` is the
 code of the handlers, one call at a time; `Run` is any interleaving.
 */
module AiProvider {
  import opened Wrappers

  const SINGLETON_KEY := "singleton"
  const MAX_UPSERT_ATTEMPTS: nat := 10

  // ---------------------------------------------------------------- data

  /** A base URL as the platform's parser reports it. */
  datatype Url = Url(raw: string, parses: bool, scheme: string, host: string, linkLocal: bool)

  /** A ciphertext: opaque to the program, tagged here with what it hides and
      with the request that produced it (encryption draws a fresh nonce). */
  datatype Secret = Secret(plain: string, nonce: nat)

  datatype Cryptor = Disabled | Broken | Ready

  /** The stored field map. An absent key is None. */
  datatype Fields = Fields(
    provider: string, model: string, marker: Option<string>,
    baseUrl: Option<Url>, apiKey: Option<Secret>)

  datatype Submission = Submission(
    provider: string, baseUrl: Url, model: string, apiKey: string, cryptor: Cryptor)

  datatype FormError =
    | UnknownProvider | ModelRequired | BaseUrlRequired | BaseUrlRejected
    | NoEncryptionKey | EncryptionFailed | KeyRequired

  // ------------------------------------------------- the fields to persist

  predicate AcceptableOllamaUrl(u: Url) {
    u.parses && (u.scheme == "http" || u.scheme == "https") && u.host != "" && !u.linkLocal
  }

  function BuildFields(sub: Submission, existing: Option<Fields>, nonce: nat): Result<Fields, FormError> {
    if sub.provider !in ["ollama", "anthropic", "openai"] then Failure(UnknownProvider)
    else if sub.model == "" then Failure(ModelRequired)
    else
      var fields := Fields(sub.provider, sub.model, Some(SINGLETON_KEY), None, None);
      if sub.provider == "ollama" then
        if sub.baseUrl.raw == "" then Failure(BaseUrlRequired)
        else if !AcceptableOllamaUrl(sub.baseUrl) then Failure(BaseUrlRejected)
        else Success(fields.(baseUrl := Some(sub.baseUrl)))
      else if sub.apiKey != "" then
        match sub.cryptor
        case Disabled => Failure(NoEncryptionKey)
        case Broken => Failure(EncryptionFailed)
        case Ready => Success(fields.(apiKey := Some(Secret(sub.apiKey, nonce))))
      else if existing.Some? && existing.value.provider == sub.provider && existing.value.apiKey.Some? then
        Success(fields.(apiKey := existing.value.apiKey))
      else Failure(KeyRequired)
  }

  /** What every stored row obeys: the marker is there, an Ollama row carries an
      acceptable URL and no key, any other row carries a key and no URL. */
  predicate WellKeyed(f: Fields) {
    && f.provider in ["ollama", "anthropic", "openai"]
    && f.model != ""
    && f.marker == Some(SINGLETON_KEY)
    && (if f.provider == "ollama" then f.apiKey.None? && f.baseUrl.Some? && AcceptableOllamaUrl(f.baseUrl.value)
        else f.apiKey.Some? && f.baseUrl.None?)
  }

  // ------------------------------------------------------------ the table

  datatype Row = Row(id: nat, version: nat, fields: Fields)

  /** Live rows in insertion order, and the id the next insert gets. */
  datatype Table = Table(rows: seq<Row>, nextId: nat)

  datatype DbError = UniqueConflict | VersionConflict | NotFound

  function First(t: Table): Option<Row> {
    if t.rows == [] then None else Some(t.rows[0])
  }

  predicate Clashes(a: Fields, b: Fields) {
    a.marker.Some? && a.marker == b.marker
  }

  function Position(rows: seq<Row>, id: nat): (i: nat)
    ensures i <= |rows|
    ensures i < |rows| ==> rows[i].id == id
  {
    if rows == [] || rows[0].id == id then 0 else 1 + Position(rows[1..], id)
  }

  function Create(t: Table, f: Fields): (Table, Result<nat, DbError>) {
    if exists i | 0 <= i < |t.rows| :: Clashes(t.rows[i].fields, f) then (t, Failure(UniqueConflict))
    else (Table(t.rows + [Row(t.nextId, 1, f)], t.nextId + 1), Success(t.nextId))
  }

  function Update(t: Table, id: nat, f: Fields, version: nat): (Table, Result<nat, DbError>) {
    var i := Position(t.rows, id);
    if i == |t.rows| then (t, Failure(NotFound))
    else if t.rows[i].version != version then (t, Failure(VersionConflict))
    else if exists j | 0 <= j < |t.rows| :: j != i && Clashes(t.rows[j].fields, f) then (t, Failure(UniqueConflict))
    else (t.(rows := t.rows[i := Row(id, version + 1, f)]), Success(version + 1))
  }

  function Delete(t: Table, id: nat): (Table, Result<nat, DbError>) {
    var i := Position(t.rows, id);
    if i == |t.rows| then (t, Failure(NotFound))
    else (t.(rows := t.rows[..i] + t.rows[i + 1..]), Success(id))
  }

  // ---------------------------------------------------- requests as processes

  datatype Request = Save(sub: Submission) | Clear

  datatype Outcome =
    | Saved(id: nat)
    | Rejected(form: FormError)
    | Failed(db: DbError)
    | Exhausted
    | Cleared(dropped: bool)

  /** The next database call of a request. */
  datatype Pc =
    | Reading
    | Creating(fields: Fields)
    | Listing(attempt: nat, fields: Fields)
    | Recreating(attempt: nat, fields: Fields)
    | Recovering(attempt: nat, fields: Fields, id: nat, version: nat)
    | Updating(fields: Fields)
    | Deleting
    | Done(out: Outcome)

  /** The span of the commit log between a read and the write that lost to it. */
  datatype Window = Window(readAt: nat, lostAt: nat)

  /** `read` is the handler's own local: the row its first call saw. `readAt` and
      `windows` are history; no transition looks at them. */
  datatype Proc = Proc(req: Request, pc: Pc, read: Option<Row>, readAt: nat, windows: seq<Window>)

  datatype Commit = Put(pid: nat, row: Row) | Drop(pid: nat, id: nat)

  /** `log` lists the writes that succeeded, in order. */
  datatype State = State(table: Table, procs: seq<Proc>, log: seq<Commit>)

  function Goto(s: State, p: nat, pc: Pc): State
    requires p < |s.procs|
  {
    s.(procs := s.procs[p := s.procs[p].(pc := pc)])
  }

  /** A read: remember how long the log was. */
  function GotoAfterRead(s: State, p: nat, pc: Pc): State
    requires p < |s.procs|
  {
    s.(procs := s.procs[p := s.procs[p].(pc := pc, readAt := |s.log|)])
  }

  /** A lost write that will be retried: close its window. */
  function GotoAfterLoss(s: State, p: nat, pc: Pc): State
    requires p < |s.procs|
  {
    var me := s.procs[p];
    s.(procs := s.procs[p := me.(pc := pc, windows := me.windows + [Window(me.readAt, |s.log|)])])
  }

  /** A write that succeeded. */
  function Committed(s: State, p: nat, t: Table, c: Commit, out: Outcome): State
    requires p < |s.procs|
  {
    Goto(s, p, Done(out)).(table := t, log := s.log + [c])
  }

  function Retry(attempt: nat, f: Fields): Pc {
    if attempt + 1 < MAX_UPSERT_ATTEMPTS then Listing(attempt + 1, f) else Done(Exhausted)
  }

  function StepRead(s: State, p: nat): State
    requires p < |s.procs|
  {
    var first := First(s.table);
    var me := s.procs[p];
    var s' := s.(procs := s.procs[p := me.(read := first)]);
    match me.req
    case Clear => GotoAfterRead(s', p, if first.None? then Done(Cleared(false)) else Deleting)
    case Save(sub) =>
      match BuildFields(sub, if first.None? then None else Some(first.value.fields), p)
      case Failure(e) => GotoAfterRead(s', p, Done(Rejected(e)))
      case Success(f) => GotoAfterRead(s', p, if first.None? then Creating(f) else Updating(f))
  }

  function StepCreate(s: State, p: nat, f: Fields, onConflict: Pc): State
    requires p < |s.procs|
  {
    var (t, r) := Create(s.table, f);
    if r.Success? then Committed(s, p, t, Put(p, Row(r.value, 1, f)), Saved(r.value))
    else GotoAfterLoss(s, p, onConflict)
  }

  function StepList(s: State, p: nat, attempt: nat, f: Fields): State
    requires p < |s.procs|
  {
    match First(s.table)
    case None => GotoAfterRead(s, p, Recreating(attempt, f))
    case Some(row) => GotoAfterRead(s, p, Recovering(attempt, f, row.id, row.version))
  }

  function StepRecover(s: State, p: nat, attempt: nat, f: Fields, id: nat, version: nat): State
    requires p < |s.procs|
  {
    match Update(s.table, id, f, version)
    case (t, Success(v)) => Committed(s, p, t, Put(p, Row(id, v, f)), Saved(id))
    case (_, Failure(VersionConflict)) => GotoAfterLoss(s, p, Retry(attempt, f))
    case (_, Failure(e)) => Goto(s, p, Done(Failed(e)))
  }

  function StepUpdate(s: State, p: nat, f: Fields, seen: Row): State
    requires p < |s.procs|
  {
    match Update(s.table, seen.id, f, seen.version)
    case (t, Success(v)) => Committed(s, p, t, Put(p, Row(seen.id, v, f)), Saved(seen.id))
    case (_, Failure(e)) => Goto(s, p, Done(Failed(e)))
  }

  function StepDelete(s: State, p: nat, id: nat): State
    requires p < |s.procs|
  {
    match Delete(s.table, id)
    case (t, Success(_)) => Committed(s, p, t, Drop(p, id), Cleared(true))
    case (_, Failure(e)) => Goto(s, p, Done(Failed(e)))
  }

  /** One database call of request p, and the code up to its next one. A request
      that is done, or one whose locals are impossible, stays as it is. */
  function Step(s: State, p: nat): (r: State)
    requires p < |s.procs|
    ensures |r.procs| == |s.procs|
  {
    match s.procs[p].pc
    case Reading => StepRead(s, p)
    case Creating(f) => StepCreate(s, p, f, Listing(0, f))
    case Listing(k, f) => StepList(s, p, k, f)
    case Recreating(k, f) => StepCreate(s, p, f, Retry(k, f))
    case Recovering(k, f, id, v) => StepRecover(s, p, k, f, id, v)
    case Updating(f) => if s.procs[p].read.Some? then StepUpdate(s, p, f, s.procs[p].read.value) else s
    case Deleting => if s.procs[p].read.Some? then StepDelete(s, p, s.procs[p].read.value.id) else s
    case Done(_) => s
  }

  predicate ScheduleFor(sched: seq<nat>, n: nat) {
    forall i | 0 <= i < |sched| :: sched[i] < n
  }

  /** Any interleaving: the requests take turns in the order of the schedule. */
  function Run(s: State, sched: seq<nat>): (r: State)
    requires ScheduleFor(sched, |s.procs|)
    ensures |r.procs| == |s.procs|
    decreases |sched|
  {
    if sched == [] then s else
      Run(Step(s, sched[0]), sched[1..])
  }

  lemma BystandersKeepLocals(s: State, p: nat, q: nat)
    requires p < |s.procs| && q < |s.procs| && p != q
    ensures Step(s, p).procs[q] == s.procs[q]
  {
  }

  lemma RunOne(s: State, p: nat)
    requires p < |s.procs|
    ensures Run(s, [p]) == Step(s, p)
  {
    assert [p][1..] == [];
  }

  lemma {:induction false} RunAppend(s: State, a: seq<nat>, b: seq<nat>)
    requires ScheduleFor(a, |s.procs|) && ScheduleFor(b, |s.procs|)
    ensures ScheduleFor(a + b, |s.procs|)
    ensures Run(s, a + b) == Run(Run(s, a), b)
    decreases |a|
  {
    if a == [] {
      assert a + b == b;
    } else {
      assert (a + b)[1..] == a[1..] + b;
      RunAppend(Step(s, a[0]), a[1..], b);
    }
  }

  /** The locals of a request stay as they are while only others are scheduled. */
  lemma {:induction false} IdleKeepsLocals(s: State, sched: seq<nat>, p: nat)
    requires ScheduleFor(sched, |s.procs|) && p < |s.procs| && p !in sched
    ensures Run(s, sched).procs[p] == s.procs[p]
    decreases |sched|
  {
    if sched != [] {
      BystandersKeepLocals(s, sched[0], p);
      IdleKeepsLocals(Step(s, sched[0]), sched[1..], p);
    }
  }

  // ----------------------------------------------------- where a run starts

  predicate Starts(s: State) {
    && |s.table.rows| <= 1
    && (forall i | 0 <= i < |s.table.rows| :: s.table.rows[i].id < s.table.nextId)
    && s.log == []
    && forall p | 0 <= p < |s.procs| ::
         s.procs[p].pc == Reading && s.procs[p].read.None? && s.procs[p].readAt == 0 && s.procs[p].windows == []
  }

  // ------------------------------------- the atomic register a run refines

  /** The content of a single cell after the commits of a log. */
  function Register(origin: Option<Row>, log: seq<Commit>): Option<Row> {
    if log == [] then origin
    else match log[|log| - 1] case Put(_, row) => Some(row) case Drop(_, _) => None
  }

  /** Ids handed out before the log's end. */
  predicate UsedId(origin: Option<Row>, log: seq<Commit>, id: nat) {
    || (origin.Some? && origin.value.id == id)
    || exists i | 0 <= i < |log| :: log[i].Put? && log[i].row.id == id
  }

  /** c is a legal write of a versioned cell that holds `now`: a write to an
      empty cell starts a new id at version 1, any other keeps the id and
      advances the version by one, and a drop names what the cell holds. */
  predicate LegalWrite(origin: Option<Row>, before: seq<Commit>, c: Commit) {
    var now := Register(origin, before);
    match c
    case Put(_, row) =>
      if now.Some? then row.id == now.value.id && row.version == now.value.version + 1
      else row.version == 1 && !UsedId(origin, before, row.id)
    case Drop(_, id) => now.Some? && now.value.id == id
  }

  predicate LegalHistory(origin: Option<Row>, log: seq<Commit>) {
    forall i | 0 <= i < |log| :: LegalWrite(origin, log[..i], log[i])
  }

  /** The commits of request p. */
  function CommitsOf(log: seq<Commit>, p: nat): seq<Commit> {
    if log == [] then [] else
      var before := CommitsOf(log[..|log| - 1], p);
      if log[|log| - 1].pid == p then before + [log[|log| - 1]] else before
  }
}
