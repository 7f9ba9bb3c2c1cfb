/**
 The record-voice-note script as it is written: two generation counters, recorder
 identity, an abort handle and a disabled flag, updated by callbacks. Each callback
 is shown to do to the visible page exactly what VoiceTake's history calls for.
 */
module VoiceNote {
  import opened Wrappers
  import opened VoiceTake

  /** A MediaRecorder's own state, if the take built one. */
  datatype Recorder = Absent | Active | Inactive

  /** The take's AbortController: not made yet, made, or aborted. */
  datatype Signal = Unarmed | Armed | Aborted

  /** What one Record click's callbacks close over. */
  datatype Closure = Closure(
    attemptGeneration: nat, recordingGeneration: Option<nat>, recorder: Recorder, signal: Signal)

  /** A closure, against the newest take and the recording generation of now: the
      generation guard holds for the newest take alone, and so does an unaborted
      signal. */
  ghost predicate ClosureOk(ph: Phase, i: nat, c: Closure, newest: Option<nat>, generation: nat) {
    && c.attemptGeneration == i + 1
    && (c.recorder == Active <==> ph.Live?)
    && (if Started(ph) then
          && c.recordingGeneration.Some? && c.recordingGeneration.value <= generation
          && (c.recordingGeneration.value == generation <==> newest == Some(i))
          && c.recorder != Absent
          && c.signal == if newest == Some(i) then Armed else Aborted
        else c.recordingGeneration.None? && c.signal == Unarmed)
  }

  ghost predicate ClosuresOk(phases: seq<Phase>, takes: seq<Closure>, newest: Option<nat>, generation: nat) {
    |takes| == |phases| && forall i | 0 <= i < |takes| :: ClosureOk(phases[i], i, takes[i], newest, generation)
  }

  lemma OneTakeChanges(phases: seq<Phase>, takes: seq<Closure>, newest: Option<nat>, generation: nat, i: nat,
                       ph: Phase, c: Closure)
    requires ClosuresOk(phases, takes, newest, generation) && i < |phases|
    requires ClosureOk(ph, i, c, newest, generation)
    ensures ClosuresOk(phases[i := ph], takes[i := c], newest, generation)
    ensures takes[i := takes[i]] == takes
  {
  }

  lemma OneTakeAsks(phases: seq<Phase>, takes: seq<Closure>, newest: Option<nat>, generation: nat)
    requires ClosuresOk(phases, takes, newest, generation)
    ensures ClosuresOk(phases + [Asking], takes + [Closure(|takes| + 1, None, Absent, Unarmed)], newest, generation)
  {
  }

  /** The last take starts: it becomes the newest under a new generation, and the
      controller of the take it supersedes is aborted. */
  lemma OneTakeStarts(phases: seq<Phase>, takes: seq<Closure>, newest: Option<nat>, generation: nat, i: nat)
    requires ClosuresOk(phases, takes, newest, generation) && i < |phases| && phases[i] == Asking
    requires newest.Some? ==> newest.value < |takes| && Started(phases[newest.value])
    ensures var aborted := if newest.Some? then takes[newest.value := takes[newest.value].(signal := Aborted)]
                           else takes;
      var mine := takes[i].(recordingGeneration := Some(generation + 1), recorder := Active, signal := Armed);
      ClosuresOk(phases[i := Live], aborted[i := mine], Some(i), generation + 1)
  {
  }

  /** The script's variables and the browser objects it holds, as one value. */
  datatype Script = Script(
    recordAttemptGeneration: nat, recordingGeneration: nat,
    mediaRecorder: Option<nat>, transcribeAbortController: Option<nat>,
    recording: bool, stopLabel: bool, disabled: bool,
    status: string, transcript: string, description: string,
    takes: seq<Closure>, sent: seq<nat>)

  /** The script shows the page that its history calls for. */
  ghost predicate Fits(page: Page, s: Script) {
    && OnlyLastIsBusy(page)
    && |s.takes| == |page.takes| == s.recordAttemptGeneration
    && ClosuresOk(page.takes, s.takes, NewestStart(page.takes), s.recordingGeneration)
    && s.recording == s.stopLabel == Recording(page)
    && s.disabled == Disabled(page)
    && (s.recording ==> s.mediaRecorder == Some(|s.takes| - 1))
    && (s.mediaRecorder.Some? ==> s.mediaRecorder.value < |s.takes|)
    && s.transcribeAbortController == NewestStart(page.takes)
    && s.status == page.status && s.sent == page.sent
    && s.transcript == page.transcript && s.description == page.description
  }

  // --------------------------------- what each callback does to the script

  /** The recorder the script holds, if any, is one that was really built. */
  predicate HoldsRecorder(s: Script) {
    match s.mediaRecorder
    case None => true
    case Some(k) => k < |s.takes| && s.takes[k].recorder != Absent
  }

  function ClickedStop(s: Script): Script
    requires HoldsRecorder(s)
  {
    s.(recording := false, stopLabel := false,
       takes := if s.mediaRecorder.None? then s.takes
                else s.takes[s.mediaRecorder.value := s.takes[s.mediaRecorder.value].(recorder := Inactive)])
  }

  function ClickedRecord(s: Script): Script {
    s.(recordAttemptGeneration := s.recordAttemptGeneration + 1, status := "", disabled := true,
       takes := s.takes + [Closure(s.recordAttemptGeneration + 1, None, Absent, Unarmed)])
  }

  function BrokeAtStart(s: Script, i: nat, mic: Mic): Script
    requires i < |s.takes| && !mic.Starts?
  {
    var s' := s.(disabled := false, status := mic.msg);
    if mic.ConstructorThrows? then s'
    else s'.(mediaRecorder := Some(i), takes := s.takes[i := s.takes[i].(recorder := Inactive)])
  }

  function Superseding(s: Script): (takes: seq<Closure>)
    ensures |takes| == |s.takes|
  {
    match s.transcribeAbortController
    case None => s.takes
    case Some(k) => if k < |s.takes| then s.takes[k := s.takes[k].(signal := Aborted)] else s.takes
  }

  function StartedRecording(s: Script, i: nat): Script
    requires i < |s.takes|
  {
    s.(disabled := false, recording := true, stopLabel := true, status := "",
       mediaRecorder := Some(i), transcribeAbortController := Some(i),
       recordingGeneration := s.recordingGeneration + 1,
       takes := Superseding(s)[i := s.takes[i].(
         recordingGeneration := Some(s.recordingGeneration + 1), recorder := Active, signal := Armed)])
  }

  function StopEvent(s: Script, i: nat): Script
    requires i < |s.takes|
  {
    var mine := s.mediaRecorder == Some(i);
    s.(recording := s.recording && !mine, stopLabel := s.stopLabel && !mine,
       status := if s.takes[i].attemptGeneration == s.recordAttemptGeneration then TRANSCRIBING else s.status,
       sent := if s.takes[i].signal != Aborted then s.sent + [i] else s.sent)
  }

  function Answer(s: Script, i: nat, text: string): Script
    requires i < |s.takes|
  {
    var heard := Clamp(text, TRANSCRIPT_MAX);
    if s.takes[i].recordingGeneration != Some(s.recordingGeneration) then s
    else s.(transcript := heard, description := Appended(s.description, heard),
            status := if s.takes[i].attemptGeneration == s.recordAttemptGeneration then "" else s.status)
  }

  function TranscribeError(s: Script, i: nat, msg: string): Script
    requires i < |s.takes|
  {
    s.(status := if s.takes[i].attemptGeneration == s.recordAttemptGeneration then msg else s.status)
  }

  // ---------------------------------------- which is what history calls for

  lemma StopClickFits(page: Page, s: Script)
    requires Fits(page, s) && s.recording
    ensures HoldsRecorder(s) && Fits(AfterClick(page), ClickedStop(s))
  {
    var last := |s.takes| - 1;
    NextKeepsBusy(page, Click);
    NewestMoves(page, Click);
    OneTakeChanges(page.takes, s.takes, NewestStart(page.takes), s.recordingGeneration, last, Stopped,
                   s.takes[last].(recorder := Inactive));
  }

  lemma RecordClickFits(page: Page, s: Script)
    requires Fits(page, s) && !s.recording && !s.disabled
    ensures Fits(AfterClick(page), ClickedRecord(s))
  {
    NextKeepsBusy(page, Click);
    NewestMoves(page, Click);
    OneTakeAsks(page.takes, s.takes, NewestStart(page.takes), s.recordingGeneration);
  }

  lemma BrokenStartFits(page: Page, s: Script, i: nat, mic: Mic)
    requires Fits(page, s) && Enabled(page, Granted(i, mic)) && !mic.Starts?
    ensures Fits(AfterGrant(page, i, mic), BrokeAtStart(s, i, mic))
  {
    NextKeepsBusy(page, Granted(i, mic));
    NewestMoves(page, Granted(i, mic));
    assert i + 1 == |s.takes|;
    OneTakeChanges(page.takes, s.takes, NewestStart(page.takes), s.recordingGeneration, i, Broken, s.takes[i]);
    OneTakeChanges(page.takes, s.takes, NewestStart(page.takes), s.recordingGeneration, i, Broken,
                   s.takes[i].(recorder := Inactive));
  }

  /** A start makes its take the newest and aborts the one it supersedes. */
  lemma StartFits(page: Page, s: Script, i: nat)
    requires Fits(page, s) && Enabled(page, Granted(i, Starts))
    ensures Fits(AfterGrant(page, i, Starts), StartedRecording(s, i))
  {
    NextKeepsBusy(page, Granted(i, Starts));
    NewestMoves(page, Granted(i, Starts));
    assert i + 1 == |s.takes|;
    OneTakeStarts(page.takes, s.takes, NewestStart(page.takes), s.recordingGeneration, i);
  }

  lemma RejectionFits(page: Page, s: Script, i: nat, msg: string)
    requires Fits(page, s) && Enabled(page, Rejected(i, msg))
    ensures Fits(Next(page, Rejected(i, msg)), s.(disabled := false, status := msg))
  {
    NextKeepsBusy(page, Rejected(i, msg));
    NewestMoves(page, Rejected(i, msg));
    OneTakeChanges(page.takes, s.takes, NewestStart(page.takes), s.recordingGeneration, i, Refused, s.takes[i]);
  }

  lemma StreamEndFits(page: Page, s: Script, i: nat)
    requires Fits(page, s) && Enabled(page, StreamEnded(i))
    ensures Fits(Next(page, StreamEnded(i)), s.(takes := s.takes[i := s.takes[i].(recorder := Inactive)]))
  {
    NextKeepsBusy(page, StreamEnded(i));
    NewestMoves(page, StreamEnded(i));
    OneTakeChanges(page.takes, s.takes, NewestStart(page.takes), s.recordingGeneration, i, Dropped,
                   s.takes[i].(recorder := Inactive));
  }

  /** The stop event: recorder identity protects a newer take's button, the attempt
      generation the status line, and an aborted signal keeps the request at home. */
  lemma StopEventFits(page: Page, s: Script, i: nat)
    requires Fits(page, s) && Enabled(page, StopFired(i))
    ensures Fits(AfterStop(page, i), StopEvent(s, i))
  {
    NextKeepsBusy(page, StopFired(i));
    NewestMoves(page, StopFired(i));
    StopShows(page, s, i, AfterStop(page, i));
  }

  lemma StopShows(page: Page, s: Script, i: nat, next: Page)
    requires Fits(page, s) && i < |page.takes| && page.takes[i] in {Dropped, Stopped} && next == AfterStop(page, i)
    requires OnlyLastIsBusy(next) && NewestStart(next.takes) == NewestStart(page.takes)
    ensures Fits(next, StopEvent(s, i))
  {
    OneTakeChanges(page.takes, s.takes, NewestStart(page.takes), s.recordingGeneration, i, Uploading, s.takes[i]);
  }

  /** The attempt generations tell whose click was the latest. */
  lemma LatestClick(page: Page, s: Script, i: nat)
    requires Fits(page, s) && i < |page.takes|
    ensures s.takes[i].attemptGeneration == s.recordAttemptGeneration <==> i == |page.takes| - 1
  {
    assert ClosureOk(page.takes[i], i, s.takes[i], NewestStart(page.takes), s.recordingGeneration);
  }

  /** The generation guard lets the newest take's answer through and no other. */
  lemma AnswerIsHeard(page: Page, s: Script, i: nat)
    requires Fits(page, s) && i < |page.takes| && page.takes[i] == Uploading
    ensures s.takes[i].recordingGeneration == Some(s.recordingGeneration) <==> Newest(page, i)
  {
    assert ClosureOk(page.takes[i], i, s.takes[i], NewestStart(page.takes), s.recordingGeneration);
  }

  /** A take that is done with changes nothing the script shows. */
  lemma SettledFits(page: Page, s: Script, i: nat)
    requires Fits(page, s) && i < |page.takes| && page.takes[i] == Uploading
    requires OnlyLastIsBusy(WithPhase(page, i, Settled))
    requires NewestStart(WithPhase(page, i, Settled).takes) == NewestStart(page.takes)
    ensures Fits(WithPhase(page, i, Settled), s)
  {
    OneTakeChanges(page.takes, s.takes, NewestStart(page.takes), s.recordingGeneration, i, Settled, s.takes[i]);
  }

  /** What only changes texts keeps the rest. */
  lemma TextsFit(page: Page, s: Script, next: Page)
    requires Fits(page, s) && next.takes == page.takes && next.sent == page.sent
    ensures Fits(next, s.(status := next.status, transcript := next.transcript, description := next.description))
  {
  }

  /** An answer: the recording generation decides the text, the attempt generation
      the status line. */
  lemma AnswerFits(page: Page, s: Script, i: nat, text: string)
    requires Fits(page, s) && Enabled(page, Answered(i, text))
    ensures Fits(AfterAnswer(page, i, text), Answer(s, i, text))
  {
    NextKeepsBusy(page, Answered(i, text));
    NewestMoves(page, Answered(i, text));
    assert AfterAnswer(page, i, text).takes == WithPhase(page, i, Settled).takes;
    SettledFits(page, s, i);
    LatestClick(page, s, i);
    AnswerIsHeard(page, s, i);
    TextsFit(WithPhase(page, i, Settled), s, AfterAnswer(page, i, text));
  }

  lemma ErrorShows(page: Page, s: Script, i: nat, msg: string)
    requires Fits(page, s) && i < |page.takes| && page.takes[i] == Uploading
    requires OnlyLastIsBusy(WithPhase(page, i, Settled))
    requires NewestStart(WithPhase(page, i, Settled).takes) == NewestStart(page.takes)
    ensures Fits(WithPhase(WriteIfLast(page, i, msg), i, Settled), TranscribeError(s, i, msg))
  {
    SettledFits(page, s, i);
    LatestClick(page, s, i);
    TextsFit(WithPhase(page, i, Settled), s, WithPhase(WriteIfLast(page, i, msg), i, Settled));
  }

  lemma ErrorFits(page: Page, s: Script, i: nat, msg: string, e: Event)
    requires Fits(page, s) && (e == Failed(i, msg) || e == Cancelled(i, msg)) && Enabled(page, e)
    ensures Fits(Next(page, e), TranscribeError(s, i, msg))
  {
    NextKeepsBusy(page, e);
    NewestMoves(page, e);
    assert Next(page, e).takes == WithPhase(page, i, Settled).takes;
    ErrorShows(page, s, i, msg);
  }

  // -------------------------------------------------------- whole runs

  function ClickedAnything(s: Script): Script
    requires s.recording ==> HoldsRecorder(s)
  {
    if s.recording then ClickedStop(s) else if s.disabled then s else ClickedRecord(s)
  }

  /** The callback for an event of take e.take, or of the page. */
  function Callback(s: Script, e: Event): Script
    requires e.Click? ==> s.recording ==> HoldsRecorder(s)
    requires !e.Click? && !e.Typed? ==> e.take < |s.takes|
  {
    match e
    case Click => ClickedAnything(s)
    case Granted(i, mic) => if mic.Starts? then StartedRecording(s, i) else BrokeAtStart(s, i, mic)
    case Rejected(i, msg) => s.(disabled := false, status := msg)
    case StreamEnded(i) => s.(takes := s.takes[i := s.takes[i].(recorder := Inactive)])
    case StopFired(i) => StopEvent(s, i)
    case Answered(i, text) => Answer(s, i, text)
    case Failed(i, msg) => TranscribeError(s, i, msg)
    case Cancelled(i, msg) => TranscribeError(s, i, msg)
    case Typed(text) => s.(description := text)
  }

  /** One event: the script's counters do to the page what history calls for. */
  lemma CallbackFits(page: Page, s: Script, e: Event)
    requires Fits(page, s) && Enabled(page, e)
    ensures e.Click? && s.recording ==> HoldsRecorder(s)
    ensures Fits(Next(page, e), Callback(s, e))
  {
    match e
    case Click =>
      if s.recording {
        StopClickFits(page, s);
      } else if !s.disabled {
        RecordClickFits(page, s);
      }
    case Granted(i, mic) =>
      if mic.Starts? {
        StartFits(page, s, i);
      } else {
        BrokenStartFits(page, s, i, mic);
      }
    case Rejected(i, msg) => RejectionFits(page, s, i, msg);
    case StreamEnded(i) => StreamEndFits(page, s, i);
    case StopFired(i) => StopEventFits(page, s, i);
    case Answered(i, text) => AnswerFits(page, s, i, text);
    case Failed(i, msg) => ErrorFits(page, s, i, msg, e);
    case Cancelled(i, msg) => ErrorFits(page, s, i, msg, e);
    case Typed(text) =>
  }

  const BlankScript := Script(0, 0, None, None, false, false, false, "", "", "", [], [])

  /** The script after its callbacks ran for a sequence of events. */
  ghost function ScriptAfter(h: seq<Event>): (s: Script)
    requires CanRun(BlankPage, h)
    ensures Fits(After(BlankPage, h), s)
    decreases |h|
  {
    if h == [] then BlankScript
    else
      var front, e := h[..|h| - 1], h[|h| - 1];
      CallbackFits(After(BlankPage, front), ScriptAfter(front), e);
      Callback(ScriptAfter(front), e)
  }

  /** In every run what the script shows is what VoiceTake's history calls for; an
      active recorder is the one the Stop label is for; a take's signal is aborted
      exactly when a later take has started; and every reference the next callback
      follows is good, stop() on an active recorder included. */
  lemma ScriptFollowsHistory(h: seq<Event>)
    requires CanRun(BlankPage, h)
    ensures var page, s := After(BlankPage, h), ScriptAfter(h);
      && s.transcript == Heard(h) && s.description == Written(h)
      && s.stopLabel == s.recording == Recording(page) && s.disabled == Disabled(page)
      && s.status == page.status && page.statusBy == |page.takes|
      && (forall i | 0 <= i < |s.takes| :: s.takes[i].recorder == Active ==> s.stopLabel && s.mediaRecorder == Some(i))
      && (forall i: nat | i < |s.takes| && Started(page.takes[i]) ::
            s.takes[i].signal == Aborted <==> exists j: nat :: i < j < |s.takes| && Started(page.takes[j]))
      && (s.recording ==> HoldsRecorder(s))
      && (s.transcribeAbortController.Some? ==> s.transcribeAbortController.value < |s.takes|)
  {
    PageFollowsHistory(h);
    OneTakeAtATime(h);
    SignalsTellTheNewest(After(BlankPage, h), ScriptAfter(h));
  }

  lemma SignalsTellTheNewest(page: Page, s: Script)
    requires Fits(page, s)
    ensures s.recording ==> HoldsRecorder(s)
    ensures s.transcribeAbortController.Some? ==> s.transcribeAbortController.value < |s.takes|
    ensures forall i | 0 <= i < |s.takes| :: s.takes[i].recorder == Active ==> s.stopLabel && s.mediaRecorder == Some(i)
    ensures forall i: nat | i < |s.takes| && Started(page.takes[i]) ::
              s.takes[i].signal == Aborted <==> exists j: nat :: i < j < |s.takes| && Started(page.takes[j])
  {
    forall i: nat | i < |s.takes|
      ensures Started(page.takes[i]) ==>
                (s.takes[i].signal == Aborted <==> exists j: nat :: i < j < |s.takes| && Started(page.takes[j]))
      ensures s.takes[i].recorder == Active ==> s.stopLabel && s.mediaRecorder == Some(i)
    {
      NewestMeans(page.takes, i);
      assert ClosureOk(page.takes[i], i, s.takes[i], NewestStart(page.takes), s.recordingGeneration);
    }
    if s.recording {
      var last := |s.takes| - 1;
      assert ClosureOk(page.takes[last], last, s.takes[last], NewestStart(page.takes), s.recordingGeneration);
    }
  }

  // ------------------------------------------------------------- the script

  class VoiceNote {
    var recordAttemptGeneration: nat
    var recordingGeneration: nat
    var mediaRecorder: Option<nat>
    var transcribeAbortController: Option<nat>
    var recording: bool
    var stopLabel: bool
    var disabled: bool
    var status: string
    var transcript: string
    var description: string
    var takes: seq<Closure>
    var sent: seq<nat>

    ghost function Now(): Script
      reads this
    {
      Script(recordAttemptGeneration, recordingGeneration, mediaRecorder, transcribeAbortController,
             recording, stopLabel, disabled, status, transcript, description, takes, sent)
    }

    constructor ()
      ensures Now() == BlankScript
    {
      recordAttemptGeneration, recordingGeneration := 0, 0;
      mediaRecorder, transcribeAbortController := None, None;
      recording, stopLabel, disabled := false, false, false;
      status, transcript, description := "", "", "";
      takes, sent := [], [];
    }

    /** mediaRecorder.stop(): the specification throws on an inactive recorder. */
    method StopRecorder(i: nat)
      requires i < |takes| && takes[i].recorder == Active
      modifies this`takes
      ensures takes == old(takes)[i := old(takes)[i].(recorder := Inactive)]
    {
      takes := takes[i := takes[i].(recorder := Inactive)];
    }

    method AbortSignal(i: nat)
      requires i < |takes|
      modifies this`takes
      ensures takes == old(takes)[i := old(takes)[i].(signal := Aborted)]
    {
      takes := takes[i := takes[i].(signal := Aborted)];
    }

    // ----------------------------------------------------------- callbacks

    method OnClick()
      requires recording ==> HoldsRecorder(Now())
      modifies this
      ensures Now() == Callback(old(Now()), Click)
    {
      if recording {
        if mediaRecorder.Some? {
          var held := mediaRecorder.value;
          if takes[held].recorder != Inactive {
            StopRecorder(held);
          } else {
            assert takes[held := takes[held].(recorder := Inactive)] == takes;
          }
        }
        recording := false;
        stopLabel := false;
        return;
      }
      if disabled {
        return;
      }
      recordAttemptGeneration := recordAttemptGeneration + 1;
      status := "";
      disabled := true;
      takes := takes + [Closure(recordAttemptGeneration, None, Absent, Unarmed)];
    }

    /** start() has gone through. */
    method Begin(i: nat)
      requires i < |takes| && (transcribeAbortController.Some? ==> transcribeAbortController.value < |takes|)
      requires !disabled && mediaRecorder == Some(i)
      modifies this
      ensures Now() == StartedRecording(old(Now()), i)
    {
      takes := takes[i := takes[i].(recorder := Active)];
      recording := true;
      recordingGeneration := recordingGeneration + 1;
      if transcribeAbortController.Some? {
        AbortSignal(transcribeAbortController.value);
      }
      takes := takes[i := takes[i].(recordingGeneration := Some(recordingGeneration), signal := Armed)];
      transcribeAbortController := Some(i);
      stopLabel := true;
      status := "";
      assert takes == StartedRecording(old(Now()), i).takes;
    }

    method OnMicGranted(i: nat, mic: Mic)
      requires i < |takes| && (transcribeAbortController.Some? ==> transcribeAbortController.value < |takes|)
      modifies this
      ensures Now() == Callback(old(Now()), Granted(i, mic))
    {
      disabled := false;
      if mic.ConstructorThrows? {
        status := mic.msg;
        return;
      }
      mediaRecorder := Some(i);
      if mic.StartThrows? {
        takes := takes[i := takes[i].(recorder := Inactive)];
        status := mic.msg;
        return;
      }
      Begin(i);
    }

    method OnMicRejected(i: nat, msg: string)
      requires i < |takes|
      modifies this
      ensures Now() == Callback(old(Now()), Rejected(i, msg))
    {
      disabled := false;
      status := msg;
    }

    method OnStop(i: nat)
      requires i < |takes|
      modifies this
      ensures Now() == Callback(old(Now()), StopFired(i))
    {
      if mediaRecorder == Some(i) {
        recording := false;
        stopLabel := false;
      }
      if takes[i].attemptGeneration == recordAttemptGeneration {
        status := TRANSCRIBING;
      }
      if takes[i].signal != Aborted {
        sent := sent + [i];
      }
    }

    method OnAnswered(i: nat, answer: string)
      requires i < |takes|
      modifies this
      ensures Now() == Callback(old(Now()), Answered(i, answer))
    {
      if takes[i].recordingGeneration != Some(recordingGeneration) {
        return;
      }
      var text := answer;
      if |text| > TRANSCRIPT_MAX {
        text := text[..TRANSCRIPT_MAX];
      }
      transcript := text;
      var combined := text;
      if TrimEnd(description) != "" {
        combined := TrimEnd(description) + "\n\n" + text;
      }
      if |combined| > DESCRIPTION_MAX {
        combined := combined[..DESCRIPTION_MAX];
      }
      description := combined;
      if takes[i].attemptGeneration == recordAttemptGeneration {
        status := "";
      }
    }

    /** The catch branch: an error reply, a network failure, or a cancellation. */
    method OnTranscribeError(i: nat, msg: string)
      requires i < |takes|
      modifies this
      ensures Now() == Callback(old(Now()), Failed(i, msg))
      ensures Now() == Callback(old(Now()), Cancelled(i, msg))
    {
      if takes[i].attemptGeneration == recordAttemptGeneration {
        status := msg;
      }
    }
  }
}
