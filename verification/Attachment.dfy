/**
 Storage paths of attachments: which ones a tenant may read, and the keys generated
 for uploads. Paths are evaluated lexically, segment by segment.
 */
module Attachment {
  // ------------------------------------------------------------- paths

  /** The stretches between slashes, empty ones included. */
  function Split(s: string): (r: seq<string>)
    ensures r != [] && forall i | 0 <= i < |r| :: '/' !in r[i]
  {
    if s == "" then [""]
    else
      var rest := Split(s[1..]);
      if s[0] == '/' then [""] + rest else [[s[0]] + rest[0]] + rest[1..]
  }

  function Join(segs: seq<string>): string {
    if segs == [] then "" else if |segs| == 1 then segs[0] else segs[0] + "/" + Join(segs[1..])
  }

  predicate Plain(seg: string) {
    seg != "" && seg != "." && seg != ".." && '/' !in seg
  }

  predicate AllPlain(segs: seq<string>) {
    forall i | 0 <= i < |segs| :: Plain(segs[i])
  }

  /** Walking segments from a stack of directories: "." stays, ".." goes up, or is kept
      where there is nothing to go up from and the path is not rooted. */
  function Walk(stack: seq<string>, segs: seq<string>, rooted: bool): seq<string>
    decreases |segs|
  {
    if segs == [] then stack
    else
      var s := segs[0];
      var next :=
        if s == "" || s == "." then stack
        else if s != ".." then stack + [s]
        else if stack != [] && stack[|stack| - 1] != ".." then stack[..|stack| - 1]
        else if rooted then stack
        else stack + [s];
      Walk(next, segs[1..], rooted)
  }

  predicate Rooted(p: string) {
    p != "" && p[0] == '/'
  }

  /** The shortest path that means the same, as Go's path.Clean computes it. */
  function Clean(p: string): string {
    var out := (if Rooted(p) then "/" else "") + Join(Walk([], Split(p), Rooted(p)));
    if out == "" then "." else out
  }

  predicate BelongsToTenant(p: string, tenant: string) {
    p != "" && tenant != "" && Clean(p) == p && tenant + "/" <= p
  }

  // ------------------------------------------- splitting and joining again

  lemma {:induction false} SplitSegment(seg: string)
    requires '/' !in seg
    ensures Split(seg) == [seg]
  {
    if seg != "" {
      SplitSegment(seg[1..]);
      assert [seg[0]] + seg[1..] == seg;
    }
  }

  lemma {:induction false} SplitAfterSegment(seg: string, rest: string)
    requires '/' !in seg
    ensures Split(seg + "/" + rest) == [seg] + Split(rest)
  {
    var s := seg + "/" + rest;
    if seg == "" {
      assert s[1..] == rest;
    } else {
      assert s[1..] == seg[1..] + "/" + rest;
      SplitAfterSegment(seg[1..], rest);
      assert [seg[0]] + seg[1..] == seg;
    }
  }

  lemma {:induction false} SplitJoin(segs: seq<string>)
    requires segs != [] && forall i | 0 <= i < |segs| :: '/' !in segs[i]
    ensures Split(Join(segs)) == segs
  {
    if |segs| == 1 {
      SplitSegment(segs[0]);
    } else {
      SplitJoin(segs[1..]);
      SplitAfterSegment(segs[0], Join(segs[1..]));
    }
  }

  // ------------------------------------------------------------- walking

  /** Going up can only be left over at the start, and nothing but plain names after it. */
  predicate Reduced(stack: seq<string>) {
    && (forall i | 0 <= i < |stack| :: Plain(stack[i]) || stack[i] == "..")
    && (forall i, j | 0 <= i < j < |stack| && stack[j] == ".." :: stack[i] == "..")
  }

  lemma {:induction false} WalkReduces(stack: seq<string>, segs: seq<string>, rooted: bool)
    requires Reduced(stack) && forall i | 0 <= i < |segs| :: '/' !in segs[i]
    ensures Reduced(Walk(stack, segs, rooted))
    decreases |segs|
  {
    if segs != [] {
      var s := segs[0];
      if s == "" || s == "." {
        WalkReduces(stack, segs[1..], rooted);
      } else if s != ".." {
        WalkReduces(stack + [s], segs[1..], rooted);
      } else if stack != [] && stack[|stack| - 1] != ".." {
        WalkReduces(stack[..|stack| - 1], segs[1..], rooted);
      } else if rooted {
        WalkReduces(stack, segs[1..], rooted);
      } else {
        assert forall i | 0 <= i < |stack| :: stack[i] == "..";
        WalkReduces(stack + [s], segs[1..], rooted);
      }
    }
  }

  lemma {:induction false} WalkPlain(stack: seq<string>, segs: seq<string>, rooted: bool)
    requires AllPlain(segs)
    ensures Walk(stack, segs, rooted) == stack + segs
    decreases |segs|
  {
    if segs == [] {
      assert stack + [] == stack;
    } else {
      WalkPlain(stack + [segs[0]], segs[1..], rooted);
      assert stack + [segs[0]] + segs[1..] == stack + segs;
    }
  }

  // --------------------------------------------- what a tenant may reach

  /** The names below the tenant's own directory. */
  lemma AcceptedIsBelow(p: string, tenant: string) returns (rest: seq<string>)
    requires Plain(tenant) && BelongsToTenant(p, tenant)
    ensures rest != [] && AllPlain(rest) && Split(p) == [tenant] + rest
  {
    assert p[0] == tenant[0] && tenant[0] in tenant;
    var stack := Walk([], Split(p), false);
    WalkReduces([], Split(p), false);
    var tail := p[|tenant| + 1..];
    assert p == tenant + "/" + tail;
    SplitAfterSegment(tenant, tail);
    assert |p| >= 2 && "" + Join(stack) == Join(stack);
    SplitJoin(stack);
    assert stack == Split(p);
    rest := stack[1..];
    assert Split(p) == [tenant] + Split(tail);
    forall i | 0 <= i < |rest|
      ensures Plain(rest[i])
    {
      assert rest[i] == stack[i + 1];
    }
  }

  /** Accepted for a tenant exactly when it names something below its directory, in
      so many words: no empty, "." or ".." segment anywhere. */
  lemma AcceptedExactlyWhen(p: string, tenant: string)
    requires Plain(tenant)
    ensures BelongsToTenant(p, tenant) <==>
              exists rest :: rest != [] && AllPlain(rest) && p == Join([tenant] + rest)
  {
    if BelongsToTenant(p, tenant) {
      var rest := AcceptedIsBelow(p, tenant);
      JoinSplit(p);
      assert p == Join([tenant] + rest);
    }
    if rest :| rest != [] && AllPlain(rest) && p == Join([tenant] + rest) {
      NamesBelowAreAccepted(tenant, rest);
    }
  }

  lemma {:induction false} JoinSplit(s: string)
    ensures Join(Split(s)) == s
  {
    if s != "" {
      JoinSplit(s[1..]);
      var rest := Split(s[1..]);
      if s[0] == '/' {
        assert ([""] + rest)[1..] == rest;
        assert "" + "/" + Join(rest) == s;
      } else {
        var first := [s[0]] + rest[0];
        assert ([first] + rest[1..])[1..] == rest[1..];
        assert [s[0]] + s[1..] == s;
        if |rest| > 1 {
          assert first + "/" + Join(rest[1..]) == [s[0]] + (rest[0] + "/" + Join(rest[1..]));
        }
      }
    }
  }

  lemma NamesBelowAreAccepted(tenant: string, rest: seq<string>)
    requires Plain(tenant) && rest != [] && AllPlain(rest)
    ensures BelongsToTenant(Join([tenant] + rest), tenant)
  {
    var segs := [tenant] + rest;
    var p := Join(segs);
    assert segs[1..] == rest;
    assert p == tenant + "/" + Join(rest);
    assert AllPlain(segs);
    SplitJoin(segs);
    WalkPlain([], segs, false);
    assert [] + segs == segs;
    assert p[0] == tenant[0] && tenant[0] in tenant;
    assert "" + p == p;
  }

  /** Wherever the store keeps its files, an accepted path leads into the tenant's
      own directory there. */
  lemma AcceptedStaysInside(base: seq<string>, p: string, tenant: string)
    requires Plain(tenant) && BelongsToTenant(p, tenant)
    ensures var at := Walk(base, Split(p), true);
      |at| > |base| + 1 && at[..|base| + 1] == base + [tenant] && AllPlain(at[|base| + 1..])
  {
    var rest := AcceptedIsBelow(p, tenant);
    assert AllPlain([tenant] + rest);
    WalkPlain(base, [tenant] + rest, true);
    var at := base + ([tenant] + rest);
    assert at[|base| + 1..] == rest;
  }

  /** No path belongs to two tenants. */
  lemma NoPathIsShared(p: string, x: string, y: string)
    requires Plain(x) && Plain(y) && BelongsToTenant(p, x) && BelongsToTenant(p, y)
    ensures x == y
  {
    var rx := AcceptedIsBelow(p, x);
    var ry := AcceptedIsBelow(p, y);
    assert ([x] + rx)[0] == ([y] + ry)[0];
  }

  // ------------------------------------------------------- generated keys

  const MAX_NAME := 200

  function Slashed(name: string): (r: string)
    ensures |r| == |name| && '\\' !in r
  {
    if name == "" then "" else [if name[0] == '\\' then '/' else name[0]] + Slashed(name[1..])
  }

  function AfterLastSlash(name: string): (r: string)
    ensures '/' !in r
    ensures forall c | c in r :: c in name
  {
    if name == "" then ""
    else if name[|name| - 1] == '/' then ""
    else
      var r := AfterLastSlash(name[..|name| - 1]);
      r + [name[|name| - 1]]
  }

  predicate IsSpace(c: char) {
    c in " \t\n\r" || c == '\U{0B}' || c == '\U{0C}'
  }

  function TrimSpace(s: string): (r: string)
    ensures |r| <= |s| && forall c | c in r :: c in s
    ensures r != "" ==> !IsSpace(r[0]) && !IsSpace(r[|r| - 1])
    decreases |s|
  {
    if s == "" then ""
    else if IsSpace(s[0]) then TrimSpace(s[1..])
    else if IsSpace(s[|s| - 1]) then TrimSpace(s[..|s| - 1])
    else s
  }

  /** A name for the last segment of a key, whatever the client sent. */
  function Sanitize(name: string): (r: string)
    ensures Plain(r) && '\\' !in r && |r| <= MAX_NAME
  {
    var base := TrimSpace(AfterLastSlash(Slashed(name)));
    if base == "" || base == "." || base == ".." then "file"
    else if |base| > MAX_NAME then
      assert forall c | c in base[..MAX_NAME] :: c in base;
      base[..MAX_NAME]
    else base
  }

  lemma {:induction false} SlashedKeeps(name: string)
    requires '\\' !in name
    ensures Slashed(name) == name
  {
    if name != "" {
      SlashedKeeps(name[1..]);
    }
  }

  lemma {:induction false} WholeIsLast(name: string)
    requires '/' !in name
    ensures AfterLastSlash(name) == name
  {
    if name != "" {
      WholeIsLast(name[..|name| - 1]);
    }
  }

  /** An ordinary file name is kept as it is, and only such a one is. */
  lemma KeptExactlyWhen(name: string)
    ensures Sanitize(name) == name <==>
              Plain(name) && '\\' !in name && |name| <= MAX_NAME && !IsSpace(name[0]) && !IsSpace(name[|name| - 1])
  {
    if Plain(name) && '\\' !in name && |name| <= MAX_NAME {
      SlashedKeeps(name);
      WholeIsLast(name);
    }
  }

  function StorageKey(tenant: string, entityType: string, record: string, random: string, fileName: string): string {
    tenant + "/" + entityType + "/" + record + "/" + random + "-" + Sanitize(fileName)
  }

  lemma JoinFour(a: string, b: string, c: string, d: string)
    ensures Join([a, b, c, d]) == a + "/" + b + "/" + c + "/" + d
  {
    assert [a, b, c, d][1..] == [b, c, d] && [b, c, d][1..] == [c, d] && [c, d][1..] == [d];
    assert Join([c, d]) == c + "/" + d;
    assert Join([b, c, d]) == b + "/" + (c + "/" + d);
    assert b + "/" + (c + "/" + d) == b + "/" + c + "/" + d;
    assert a + "/" + (b + "/" + c + "/" + d) == a + "/" + b + "/" + c + "/" + d;
  }

  /** Every generated key is clean, its own tenant's and nobody else's, for any file name. */
  lemma KeyBelongsToItsTenantOnly(tenant: string, other: string, entityType: string, record: string,
                                  random: string, fileName: string)
    requires Plain(tenant) && Plain(other) && Plain(entityType) && Plain(record) && '/' !in random
    ensures var key := StorageKey(tenant, entityType, record, random, fileName);
      Clean(key) == key && (BelongsToTenant(key, other) <==> other == tenant)
  {
    var key, last := StorageKey(tenant, entityType, record, random, fileName), random + "-" + Sanitize(fileName);
    assert '-' in last && |last| >= 2 && '/' !in last;
    assert last != "." && last != ".." by {
      assert last[|random|] == '-';
    }
    JoinFour(tenant, entityType, record, last);
    assert key == tenant + "/" + entityType + "/" + record + "/" + last;
    assert [tenant] + [entityType, record, last] == [tenant, entityType, record, last];
    NamesBelowAreAccepted(tenant, [entityType, record, last]);
    if BelongsToTenant(key, other) {
      NoPathIsShared(key, tenant, other);
    }
  }
}
