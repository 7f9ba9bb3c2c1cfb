/**
 The capped console buffer a page keeps in session storage, one per tenant, to
 pre-fill an issue report with. Strings are counted in characters, one code unit each.
 */
module ConsoleLog {
  const MAX_ENTRIES := 200
  const MAX_CHARS := 20000

  function Join(buf: seq<string>): string {
    if buf == [] then ""
    else if |buf| == 1 then buf[0]
    else buf[0] + "\n" + Join(buf[1..])
  }

  predicate Fits(buf: seq<string>) {
    |buf| <= MAX_ENTRIES && |Join(buf)| <= MAX_CHARS
  }

  function Cut(entry: string): (r: string)
    ensures r <= entry && |r| <= MAX_CHARS
    ensures |r| < MAX_CHARS ==> r == entry
  {
    if |entry| > MAX_CHARS then entry[..MAX_CHARS] else entry
  }

  /** Dropping the oldest entries until the rest fits, but never the last one. */
  function Trim(buf: seq<string>): seq<string> {
    if |buf| <= 1 || Fits(buf) then buf else Trim(buf[1..])
  }

  /** What is stored under a key: a buffer, or something that is not one. */
  datatype Stored = Buffer(entries: seq<string>) | Junk

  type Storage = map<string, Stored>

  function BufferAt(storage: Storage, key: string): seq<string> {
    if key in storage && storage[key].Buffer? then storage[key].entries else []
  }

  /** A page appends, and the store takes the write or not; filing a report clears. */
  datatype Event = Append(key: string, entry: string, taken: bool) | Clear(key: string)

  function Apply(storage: Storage, e: Event): Storage {
    match e
    case Append(key, entry, taken) =>
      if taken then storage[key := Buffer(Trim(BufferAt(storage, key) + [Cut(entry)]))] else storage
    case Clear(key) => storage - {key}
  }

  /** From any storage: an earlier page, or another script, may have left anything there. */
  function After(start: Storage, events: seq<Event>): Storage {
    if events == [] then start else Apply(After(start, events[..|events| - 1]), events[|events| - 1])
  }

  /** What was there, if it was a buffer, and all that was recorded under the key since,
      cut to size; nothing from before it was last cleared. */
  function History(start: Storage, events: seq<Event>, key: string): seq<string> {
    if events == [] then BufferAt(start, key)
    else
      var e, before := events[|events| - 1], History(start, events[..|events| - 1], key);
      match e
      case Append(k, entry, taken) => if k == key && taken then before + [Cut(entry)] else before
      case Clear(k) => if k == key then [] else before
  }

  // ---------------------------------------------------- the longest suffix

  /** The longest suffix of the history within both limits starts at k. */
  predicate LongestFitFrom(h: seq<string>, k: nat) {
    && k <= |h| && Fits(h[k..])
    && forall j | 0 <= j < k :: !Fits(h[j..])
  }

  lemma JoinGrows(x: string, buf: seq<string>)
    ensures |Join([x] + buf)| == if buf == [] then |x| else |x| + 1 + |Join(buf)|
  {
    assert ([x] + buf)[1..] == buf;
  }

  lemma FrontFits(buf: seq<string>, e: string)
    requires Fits(buf + [e])
    ensures Fits(buf)
  {
    JoinAppend(buf, e);
  }

  lemma {:induction false} JoinAppend(buf: seq<string>, e: string)
    ensures |Join(buf + [e])| >= |Join(buf)|
  {
    if |buf| > 1 {
      assert (buf + [e])[1..] == buf[1..] + [e];
      JoinAppend(buf[1..], e);
    } else if |buf| == 1 {
      assert buf + [e] == [buf[0]] + [e];
      JoinGrows(buf[0], [e]);
    }
  }

  /** Trimming stops at the longest suffix that fits; the guard that keeps the last
      entry never leaves one that is too long. */
  lemma {:induction false} TrimIsLongest(h: seq<string>, k: nat) returns (m: nat)
    requires k < |h| && |h[|h| - 1]| <= MAX_CHARS
    requires forall j | 0 <= j < k :: !Fits(h[j..])
    ensures LongestFitFrom(h, m) && m < |h| && Trim(h[k..]) == h[m..]
    decreases |h| - k
  {
    assert h[|h| - 1..] == [h[|h| - 1]];
    if Fits(h[k..]) {
      m := k;
    } else {
      assert h[k..][1..] == h[k + 1..];
      m := TrimIsLongest(h, k + 1);
    }
  }

  lemma AppendKeepsLongest(h: seq<string>, k: nat, entry: string) returns (m: nat)
    requires k <= |h| && forall j | 0 <= j < k :: !Fits(h[j..])
    ensures LongestFitFrom(h + [Cut(entry)], m) && Trim(h[k..] + [Cut(entry)]) == (h + [Cut(entry)])[m..]
  {
    var h' := h + [Cut(entry)];
    forall j | 0 <= j < k
      ensures !Fits(h'[j..])
    {
      assert h'[j..] == h[j..] + [Cut(entry)];
      if Fits(h'[j..]) {
        FrontFits(h[j..], Cut(entry));
      }
    }
    m := TrimIsLongest(h', k);
    assert h'[k..] == h[k..] + [Cut(entry)];
  }

  /** Neither an entry was taken under the key nor the key cleared. */
  predicate Untouched(events: seq<Event>, key: string) {
    forall i | 0 <= i < |events| :: events[i].key == key ==> events[i].Append? && !events[i].taken
  }

  /** After any run, from whatever was stored, each tenant's buffer is the longest suffix
      of that tenant's own history that keeps both limits, or still what was found. */
  lemma {:induction false} BufferIsLongestSuffix(start: Storage, events: seq<Event>, key: string) returns (k: nat)
    ensures k <= |History(start, events, key)|
    ensures BufferAt(After(start, events), key) == History(start, events, key)[k..]
    ensures LongestFitFrom(History(start, events, key), k) || (k == 0 && Untouched(events, key))
    ensures Untouched(events, key) ==> BufferAt(After(start, events), key) == BufferAt(start, key)
  {
    k := 0;
    if events != [] {
      var front, e := events[..|events| - 1], events[|events| - 1];
      k := BufferIsLongestSuffix(start, front, key);
      assert Untouched(events, key) <==> Untouched(front, key) && (e.key == key ==> e.Append? && !e.taken) by {
        assert forall i | 0 <= i < |front| :: events[i] == front[i];
      }
      if e.key == key {
        match e
        case Append(_, entry, taken) =>
          if taken {
            k := AppendKeepsLongest(History(start, front, key), k, entry);
          }
        case Clear(_) => k := 0;
      }
    }
  }

  /** So once an entry is taken no limit is exceeded, and the newest entry is there,
      whatever was stored before. */
  lemma NewestIsKept(start: Storage, events: seq<Event>, key: string, entry: string)
    ensures var buf := BufferAt(After(start, events + [Append(key, entry, true)]), key);
      Fits(buf) && buf != [] && buf[|buf| - 1] == Cut(entry)
  {
    var more := events + [Append(key, entry, true)];
    assert more[..|events|] == events && more[|events|].key == key;
    var k := BufferIsLongestSuffix(start, more, key);
    var h := History(start, more, key);
    assert h[|h| - 1..] == [Cut(entry)];
    assert Fits(h[|h| - 1..]);
  }

  class Page {
    var storage: Storage

    method AppendLog(key: string, entry: string, taken: bool)
      modifies this
      ensures storage == Apply(old(storage), Append(key, entry, taken))
    {
      var buf := BufferAt(storage, key);
      var cut := entry;
      if |cut| > MAX_CHARS {
        cut := cut[..MAX_CHARS];
      }
      buf := buf + [cut];
      ghost var all := buf;
      while |buf| > MAX_ENTRIES
        invariant buf != [] && Trim(buf) == Trim(all)
      {
        buf := buf[1..];
      }
      while |Join(buf)| > MAX_CHARS && |buf| > 1
        invariant |buf| <= MAX_ENTRIES && buf != [] && Trim(buf) == Trim(all)
        decreases |buf|
      {
        buf := buf[1..];
      }
      if taken {
        storage := storage[key := Buffer(buf)];
      }
    }

    method ClearLog(key: string)
      modifies this
      ensures storage == Apply(old(storage), Clear(key))
    {
      storage := storage - {key};
    }
  }
}
