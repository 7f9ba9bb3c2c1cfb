/**
 What the issue form's voice note promises, with no counters in sight. A page has
 a list of takes, one per Record click that asked for the microphone; the browser
 delivers events in any order it likes. Which take may write is decided by plain
 history: the transcript belongs to the take that started last, the status line to
 the click that came last.
 */
module VoiceTake {
  import opened Wrappers

  const TRANSCRIPT_MAX: nat := 40000
  const DESCRIPTION_MAX: nat := 20000
  const TRANSCRIBING := "Transcribing"

  // ------------------------------------------------------------------ text

  predicate IsSpace(c: char) {
    c == ' ' || c == '\t' || c == '\n' || c == '\r'
  }

  function TrimEnd(s: string): string {
    if s != [] && IsSpace(s[|s| - 1]) then TrimEnd(s[..|s| - 1]) else s
  }

  function Clamp(s: string, max: nat): string {
    if |s| > max then s[..max] else s
  }

  /** The description after a transcript is appended to it. */
  function Appended(description: string, text: string): string {
    Clamp(if TrimEnd(description) != "" then TrimEnd(description) + "\n\n" + text else text, DESCRIPTION_MAX)
  }

  // ------------------------------------------------------------------ pages

  datatype Phase =
    | Asking      // the permission prompt is open
    | Refused     // the prompt was turned down
    | Broken      // building or starting the recorder threw
    | Live        // recording
    | Dropped     // the stream ended by itself; the button still offers Stop
    | Stopped     // Stop was clicked; the recorder's stop event is to come
    | Uploading   // the transcribe request is out, or was cancelled before it went
    | Settled     // and has been answered

  /** `sent` are the takes whose request really went out; `statusBy` is the number
      of the Record click that wrote the status line last. */
  datatype Page = Page(
    takes: seq<Phase>, status: string, statusBy: nat,
    transcript: string, description: string, sent: seq<nat>)

  const BlankPage := Page([], "", 0, "", "", [])

  predicate Started(ph: Phase) {
    ph.Live? || ph.Dropped? || ph.Stopped? || ph.Uploading? || ph.Settled?
  }

  predicate IsLast(page: Page, i: nat) {
    i + 1 == |page.takes|
  }

  predicate LastIs(page: Page, a: Phase, b: Phase) {
    page.takes != [] && (page.takes[|page.takes| - 1] == a || page.takes[|page.takes| - 1] == b)
  }

  /** The Stop label shows. */
  predicate Recording(page: Page) {
    LastIs(page, Live, Dropped)
  }

  /** The button is disabled. */
  predicate Disabled(page: Page) {
    LastIs(page, Asking, Asking)
  }

  /** The last take whose recorder ever ran. */
  function NewestStart(takes: seq<Phase>): (r: Option<nat>)
    ensures r.Some? ==> r.value < |takes| && Started(takes[r.value])
  {
    if takes == [] then None
    else if Started(takes[|takes| - 1]) then Some(|takes| - 1)
    else NewestStart(takes[..|takes| - 1])
  }

  predicate Newest(page: Page, i: nat) {
    NewestStart(page.takes) == Some(i)
  }

  /** Take i recorded, and no take has started recording since. */
  lemma {:induction false} NewestMeans(takes: seq<Phase>, i: nat)
    ensures NewestStart(takes) == Some(i) <==>
              i < |takes| && Started(takes[i]) && forall j | i < j < |takes| :: !Started(takes[j])
  {
    if takes != [] && !Started(takes[|takes| - 1]) {
      NewestMeans(takes[..|takes| - 1], i);
    }
  }

  lemma {:induction false} SameStartsSameNewest(a: seq<Phase>, b: seq<Phase>)
    requires |a| == |b| && forall i | 0 <= i < |a| :: Started(a[i]) == Started(b[i])
    ensures NewestStart(a) == NewestStart(b)
  {
    if a != [] {
      SameStartsSameNewest(a[..|a| - 1], b[..|b| - 1]);
    }
  }

  // ----------------------------------------------------------------- events

  datatype Mic = ConstructorThrows(msg: string) | StartThrows(msg: string) | Starts

  datatype Event =
    | Click
    | Granted(take: nat, mic: Mic)
    | Rejected(take: nat, msg: string)
    | StreamEnded(take: nat)
    | StopFired(take: nat)
    | Answered(take: nat, text: string)
    | Failed(take: nat, msg: string)
    | Cancelled(take: nat, msg: string)
    | Typed(text: string)

  /** What the browser can deliver. A request can be answered, or fail, only if it
      went out; it can be cancelled only if a later take has started. */
  predicate Enabled(page: Page, e: Event) {
    match e
    case Click => true
    case Typed(_) => true
    case Granted(i, _) => i < |page.takes| && page.takes[i] == Asking
    case Rejected(i, _) => i < |page.takes| && page.takes[i] == Asking
    case StreamEnded(i) => i < |page.takes| && page.takes[i] == Live
    case StopFired(i) => i < |page.takes| && (page.takes[i] == Dropped || page.takes[i] == Stopped)
    case Answered(i, _) => i < |page.takes| && page.takes[i] == Uploading && i in page.sent
    case Failed(i, _) => i < |page.takes| && page.takes[i] == Uploading && i in page.sent
    case Cancelled(i, _) => i < |page.takes| && page.takes[i] == Uploading && !Newest(page, i)
  }

  function Write(page: Page, i: nat, text: string): Page {
    page.(status := text, statusBy := i + 1)
  }

  function WriteIfLast(page: Page, i: nat, text: string): Page {
    if IsLast(page, i) then Write(page, i, text) else page
  }

  function WithPhase(page: Page, i: nat, ph: Phase): Page
    requires i < |page.takes|
  {
    page.(takes := page.takes[i := ph])
  }

  function AfterClick(page: Page): Page {
    if Recording(page) then WithPhase(page, |page.takes| - 1, Stopped)
    else if Disabled(page) then page
    else Write(page, |page.takes|, "").(takes := page.takes + [Asking])
  }

  function AfterGrant(page: Page, i: nat, mic: Mic): Page
    requires i < |page.takes|
  {
    match mic
    case Starts => WithPhase(Write(page, i, ""), i, Live)
    case ConstructorThrows(msg) => WithPhase(Write(page, i, msg), i, Broken)
    case StartThrows(msg) => WithPhase(Write(page, i, msg), i, Broken)
  }

  function AfterStop(page: Page, i: nat): Page
    requires i < |page.takes|
  {
    WithPhase(WriteIfLast(page, i, TRANSCRIBING), i, Uploading).(
      sent := if Newest(page, i) then page.sent + [i] else page.sent)
  }

  function AfterAnswer(page: Page, i: nat, text: string): Page
    requires i < |page.takes|
  {
    if Newest(page, i) then
      var heard := Clamp(text, TRANSCRIPT_MAX);
      WithPhase(WriteIfLast(page, i, ""), i, Settled).(
        transcript := heard, description := Appended(page.description, heard))
    else WithPhase(page, i, Settled)
  }

  function Next(page: Page, e: Event): Page
    requires Enabled(page, e)
  {
    match e
    case Typed(text) => page.(description := text)
    case Click => AfterClick(page)
    case Granted(i, mic) => AfterGrant(page, i, mic)
    case Rejected(i, msg) => WithPhase(Write(page, i, msg), i, Refused)
    case StreamEnded(i) => WithPhase(page, i, Dropped)
    case StopFired(i) => AfterStop(page, i)
    case Answered(i, text) => AfterAnswer(page, i, text)
    case Failed(i, msg) => WithPhase(WriteIfLast(page, i, msg), i, Settled)
    case Cancelled(i, msg) => WithPhase(WriteIfLast(page, i, msg), i, Settled)
  }

  predicate CanRun(page: Page, h: seq<Event>)
    decreases |h|, 0
  {
    h == [] || (CanRun(page, h[..|h| - 1]) && Enabled(After(page, h[..|h| - 1]), h[|h| - 1]))
  }

  function After(page: Page, h: seq<Event>): Page
    requires CanRun(page, h)
    decreases |h|, 1
  {
    if h == [] then page else Next(After(page, h[..|h| - 1]), h[|h| - 1])
  }

  // -------------------------------------------------------------- invariant

  /** Only the last click can still be asking, recording, or waiting to be noticed. */
  ghost predicate OnlyLastIsBusy(page: Page) {
    forall i | 0 <= i < |page.takes| - 1 ::
      !page.takes[i].Asking? && !page.takes[i].Live? && !page.takes[i].Dropped?
  }

  /** Requests go out once per take, only for takes past recording, and the
      newest take's is out as soon as its recorder has stopped. */
  ghost predicate SentOk(page: Page) {
    && (forall k | 0 <= k < |page.sent| ::
          page.sent[k] < |page.takes| && (page.takes[page.sent[k]].Uploading? || page.takes[page.sent[k]].Settled?))
    && (forall k, l | 0 <= k < l < |page.sent| :: page.sent[k] != page.sent[l])
    && (forall i: nat | Newest(page, i) && (page.takes[i].Uploading? || page.takes[i].Settled?) :: i in page.sent)
  }

  ghost predicate Shape(page: Page) {
    OnlyLastIsBusy(page) && page.statusBy == |page.takes| && SentOk(page)
  }

  lemma NextKeepsSent(page: Page, e: Event)
    requires OnlyLastIsBusy(page) && SentOk(page) && Enabled(page, e)
    ensures SentOk(Next(page, e))
  {
    NewestMoves(page, e);
    if e.StopFired? {
      StopKeepsSent(page, e.take);
    } else if e.Granted? && e.mic.Starts? {
      assert Next(page, e).takes[e.take] == Live;
    } else {
      assert Next(page, e).sent == page.sent;
    }
  }

  lemma StopKeepsSent(page: Page, i: nat)
    requires SentOk(page) && Enabled(page, StopFired(i))
    requires NewestStart(AfterStop(page, i).takes) == NewestStart(page.takes)
    ensures SentOk(AfterStop(page, i))
  {
    assert i !in page.sent;
    if Newest(page, i) {
      assert AfterStop(page, i).sent == page.sent + [i];
    }
  }

  lemma NextKeepsBusy(page: Page, e: Event)
    requires OnlyLastIsBusy(page) && Enabled(page, e)
    ensures OnlyLastIsBusy(Next(page, e))
    ensures page.statusBy == |page.takes| ==> Next(page, e).statusBy == |Next(page, e).takes|
  {
  }

  lemma NextKeepsShape(page: Page, e: Event)
    requires Shape(page) && Enabled(page, e)
    ensures Shape(Next(page, e))
  {
    NextKeepsBusy(page, e);
    NextKeepsSent(page, e);
  }

  lemma {:induction false} AfterKeepsShape(page: Page, h: seq<Event>)
    requires Shape(page) && CanRun(page, h)
    ensures Shape(After(page, h))
    decreases |h|
  {
    if h != [] {
      AfterKeepsShape(page, h[..|h| - 1]);
      NextKeepsShape(After(page, h[..|h| - 1]), h[|h| - 1]);
    }
  }

  // -------------------------------------------------- theorems over all runs

  /** In every run at most one permission prompt is open and at most one recorder
      runs, never both, and whatever the status line shows was written by the
      latest Record click. */
  lemma OneTakeAtATime(h: seq<Event>)
    requires CanRun(BlankPage, h)
    ensures var page := After(BlankPage, h);
      && (forall i, j | 0 <= i < |page.takes| && 0 <= j < |page.takes| && i != j ::
            (page.takes[i].Asking? || page.takes[i].Live?) ==> !page.takes[j].Asking? && !page.takes[j].Live?)
      && page.statusBy == |page.takes|
  {
    AfterKeepsShape(BlankPage, h);
  }

  /** The take whose recorder started last, by the events alone. */
  function LastStart(h: seq<Event>): Option<nat> {
    if h == [] then None
    else match h[|h| - 1] case Granted(i, Starts) => Some(i) case _ => LastStart(h[..|h| - 1])
  }

  /** The answer that should be on the page: the last one to arrive for the take
      that was, at its arrival, the last to have started. */
  function Heard(h: seq<Event>): string {
    if h == [] then ""
    else match h[|h| - 1]
      case Answered(i, text) =>
        if LastStart(h[..|h| - 1]) == Some(i) then Clamp(text, TRANSCRIPT_MAX) else Heard(h[..|h| - 1])
      case _ => Heard(h[..|h| - 1])
  }

  /** The description: what was typed last, plus every answer that counted since. */
  function Written(h: seq<Event>): string {
    if h == [] then ""
    else match h[|h| - 1]
      case Typed(text) => text
      case Answered(i, text) =>
        if LastStart(h[..|h| - 1]) == Some(i) then Appended(Written(h[..|h| - 1]), Clamp(text, TRANSCRIPT_MAX))
        else Written(h[..|h| - 1])
      case _ => Written(h[..|h| - 1])
  }

  /** For every sequence of events, the page holds exactly the text the history
      calls for: a superseded take writes nothing, and the newest take's answer is
      written however many later clicks were refused or broke. */
  lemma {:induction false} PageFollowsHistory(h: seq<Event>)
    requires CanRun(BlankPage, h)
    ensures var page := After(BlankPage, h);
      && page.transcript == Heard(h)
      && page.description == Written(h)
      && (forall i: nat :: Newest(page, i) <==> LastStart(h) == Some(i))
    decreases |h|
  {
    if h != [] {
      var front, e := h[..|h| - 1], h[|h| - 1];
      PageFollowsHistory(front);
      AfterKeepsShape(BlankPage, front);
      NewestMoves(After(BlankPage, front), e);
    }
  }

  /** Only a successful start changes which take is newest. */
  lemma NewestMoves(page: Page, e: Event)
    requires OnlyLastIsBusy(page) && Enabled(page, e)
    ensures NewestStart(Next(page, e).takes) ==
              if e.Granted? && e.mic.Starts? then Some(e.take) else NewestStart(page.takes)
  {
    var page' := Next(page, e);
    if e.Granted? && e.mic.Starts? {
      assert e.take + 1 == |page.takes| == |page'.takes| && page'.takes[e.take] == Live;
    } else if |page'.takes| == |page.takes| {
      SameStartsSameNewest(page.takes, page'.takes);
    } else {
      assert page'.takes[..|page'.takes| - 1] == page.takes;
    }
  }

  /** A take is never answered, nor is its request sent, once a later one started. */
  lemma SupersededTakesStaySilent(page: Page, e: Event, i: nat)
    requires Shape(page) && Enabled(page, e) && i < |page.takes| && !Newest(page, i) && Started(page.takes[i])
    ensures !Newest(Next(page, e), i)
    ensures i !in page.sent ==> i !in Next(page, e).sent
    ensures (e.Answered? || e.Failed? || e.Cancelled?) && e.take == i ==>
              Next(page, e) == page.(takes := page.takes[i := Settled])
  {
    NewestMoves(page, e);
  }

  /** In every run the newest take, once its recorder has stopped, has its request
      out and uncancelled, so its answer can still arrive; and when it does it is
      written. */
  lemma NewestTakeIsHeard(h: seq<Event>, i: nat, text: string)
    requires CanRun(BlankPage, h) && Newest(After(BlankPage, h), i) && After(BlankPage, h).takes[i].Uploading?
    ensures var page := After(BlankPage, h);
      && Enabled(page, Answered(i, text))
      && (forall msg :: !Enabled(page, Cancelled(i, msg)))
      && Next(page, Answered(i, text)).transcript == Clamp(text, TRANSCRIPT_MAX)
  {
    AfterKeepsShape(BlankPage, h);
  }
}
