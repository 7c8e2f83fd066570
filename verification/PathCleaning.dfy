/**
  The path sanitizer applied to metadata: forward slashes only, no empty and no
  all-dot components, a fixed alphabet.
 */
module PathCleaning {

  predicate IsSep(c: char) { c == '/' || c == '\\' }

  predicate IsSafe(c: char) {
    || 'A' <= c <= 'Z' || 'a' <= c <= 'z' || '0' <= c <= '9'
    || c == '.' || c == '_' || c == '-' || c == ' '
  }

  function Emit(c: char): char { if IsSafe(c) then c else '_' }

  /** Length of the leading run of dots. */
  function Dots(p: string): (n: nat)
    ensures n <= |p| && (n < |p| ==> p[n] != '.')
    ensures forall i :: 0 <= i < n ==> p[i] == '.'
  {
    if p != [] && p[0] == '.' then 1 + Dots(p[1..]) else 0
  }

  /** Here starts a run of dots that lasts to a separator or the end. */
  predicate DotsOnly(p: string) {
    p != [] && p[0] == '.' && (Dots(p) == |p| || IsSep(p[Dots(p)]))
  }

  /** What is written for `p` into `room` characters, before trimming. */
  function Scrub(p: string, prevSep: bool, room: nat): string
    decreases |p|
  {
    if p == [] || room == 0 then []
    else if IsSep(p[0]) then
      if prevSep then Scrub(p[1..], true, room) else ['/'] + Scrub(p[1..], true, room - 1)
    else if DotsOnly(p) then Scrub(p[Dots(p)..], true, room)
    else [Emit(p[0])] + Scrub(p[1..], false, room - 1)
  }

  function Trim(s: string): (t: string)
    ensures t <= s && (t == [] || t[|t| - 1] != '/')
    ensures forall i :: |t| <= i < |s| ==> s[i] == '/'
  {
    if s != [] && s[|s| - 1] == '/' then Trim(s[..|s| - 1]) else s
  }

  /** The cleaned path for a buffer of `size` characters, one of them the terminator. */
  function CleanPath(p: string, size: nat): string
    requires size > 0
  {
    Trim(Scrub(p, true, size - 1))
  }

  // ---------- What a clean path is ----------

  /** Safe characters and single separators; a dot never comes last in its component. */
  predicate Flows(s: string) {
    s == [] || (
      && (IsSafe(s[0]) || s[0] == '/')
      && (s[0] == '/' ==> |s| == 1 || s[1] != '/')
      && (s[0] == '.' ==> |s| > 1 && s[1] != '/')
      && Flows(s[1..]))
  }

  predicate Tidy(s: string) {
    Flows(s) && (s != [] ==> s[0] != '/' && s[|s| - 1] != '/')
  }

  lemma FlowsCons(c: char, s: string)
    requires Flows(s) && (IsSafe(c) || c == '/')
    requires c == '/' ==> s == [] || s[0] != '/'
    requires c == '.' ==> s != [] && s[0] != '/'
    ensures Flows([c] + s)
  {
    assert ([c] + s)[1..] == s;
  }

  lemma {:induction false} FlowsAt(s: string, i: nat)
    requires Flows(s) && i < |s|
    ensures IsSafe(s[i]) || s[i] == '/'
    ensures s[i] == '/' && i + 1 < |s| ==> s[i + 1] != '/'
    ensures s[i] == '.' ==> i + 1 < |s| && s[i + 1] != '/'
    decreases i
  {
    if i > 0 {
      FlowsAt(s[1..], i - 1);
    }
  }

  lemma {:induction false} FlowsDropsLast(s: string)
    requires Flows(s) && s != [] && s[|s| - 1] == '/'
    ensures Flows(s[..|s| - 1])
    decreases |s|
  {
    if |s| > 1 {
      FlowsDropsLast(s[1..]);
      assert s[..|s| - 1][1..] == s[1..][..|s| - 2];
    }
  }

  lemma DotsShift(p: string)
    requires p != [] && p[0] == '.' && !DotsOnly(p)
    ensures |p| > 1 && !IsSep(p[1]) && !DotsOnly(p[1..])
  {
    assert Dots(p) == 1 + Dots(p[1..]);
  }

  /** Whatever comes in, what is written flows, given room for all of it. */
  lemma {:induction false} ScrubFlows(p: string, prevSep: bool, room: nat)
    requires room >= |p|
    ensures var q := Scrub(p, prevSep, room); Flows(q) && |q| <= |p| && (prevSep && q != [] ==> q[0] != '/')
    ensures p != [] && !IsSep(p[0]) && !DotsOnly(p) ==> Scrub(p, prevSep, room) != [] && Scrub(p, prevSep, room)[0] != '/'
    decreases |p|
  {
    if p != [] {
      if IsSep(p[0]) {
        ScrubFlows(p[1..], true, if prevSep then room else room - 1);
        if !prevSep { FlowsCons('/', Scrub(p[1..], true, room - 1)); }
      } else if DotsOnly(p) {
        ScrubFlows(p[Dots(p)..], true, room);
      } else {
        ScrubFlows(p[1..], false, room - 1);
        if p[0] == '.' { DotsShift(p); }
        FlowsCons(Emit(p[0]), Scrub(p[1..], false, room - 1));
      }
    }
  }

  lemma {:induction false} TrimTidies(s: string)
    requires Flows(s) && (s != [] ==> s[0] != '/')
    ensures Tidy(Trim(s))
    decreases |s|
  {
    if s != [] && s[|s| - 1] == '/' {
      FlowsDropsLast(s);
      TrimTidies(s[..|s| - 1]);
    }
  }

  /** A buffer longer than the input always ends up with a tidy path. */
  lemma CleanIsTidy(p: string, size: nat)
    requires size > |p|
    ensures Tidy(CleanPath(p, size))
  {
    ScrubFlows(p, true, size - 1);
    TrimTidies(Scrub(p, true, size - 1));
  }

  lemma {:induction false} FlowsIsKept(s: string, prevSep: bool, room: nat)
    requires Flows(s) && room >= |s| && (prevSep && s != [] ==> s[0] != '/')
    ensures Scrub(s, prevSep, room) == s
    decreases |s|
  {
    if s != [] {
      FlowsIsKept(s[1..], s[0] == '/', room - 1);
      FlowsNoDotsOnly(s);
      assert s == [s[0]] + s[1..];
    }
  }

  lemma {:induction false} FlowsNoDotsOnly(s: string)
    requires Flows(s)
    ensures !DotsOnly(s)
  {
    var n := Dots(s);
    if n > 0 {
      FlowsAt(s, n - 1);
      if n < |s| { FlowsAt(s, n); }
    }
  }

  /** The tidy paths are exactly the paths cleaning leaves alone. */
  lemma TidyIffUnchanged(p: string, size: nat)
    requires size > |p|
    ensures CleanPath(p, size) == p <==> Tidy(p)
  {
    if Tidy(p) {
      FlowsIsKept(p, true, size - 1);
    }
    CleanIsTidy(p, size);
  }

  lemma CleaningIsIdempotent(p: string, size: nat)
    requires size > |p|
    ensures CleanPath(CleanPath(p, size), size) == CleanPath(p, size)
  {
    ScrubFlows(p, true, size - 1);
    CleanIsTidy(p, size);
    TidyIffUnchanged(CleanPath(p, size), size);
  }

  const UPPER: string := "ABCDEFGHIJKLMNOPQRSTUVWXYZ"
  const LOWER: string := "abcdefghijklmnopqrstuvwxyz"
  const DIGITS: string := "0123456789"

  /** The characters a cleaned path may hold, besides the separator. */
  predicate InAlphabet(c: char) {
    c in UPPER || c in LOWER || c in DIGITS || c in "._- "
  }

  lemma UpperRange(c: char)
    ensures c in UPPER <==> 'A' <= c <= 'Z'
  {}

  lemma LowerRange(c: char)
    ensures c in LOWER <==> 'a' <= c <= 'z'
  {}

  lemma DigitRange(c: char)
    ensures c in DIGITS <==> '0' <= c <= '9'
  {}

  /** A character is written as it is if the alphabet has it, and as an underscore otherwise. */
  lemma WrittenCharacter(c: char)
    ensures InAlphabet(c) ==> Emit(c) == c
    ensures !InAlphabet(c) ==> Emit(c) == '_'
  {
    UpperRange(c);
    LowerRange(c);
    DigitRange(c);
  }

  /** `s[i..j]` is a component: bounded by separators or the ends, with none inside. */
  predicate IsComponent(s: string, i: nat, j: nat) {
    && i <= j <= |s|
    && (i == 0 || s[i - 1] == '/') && (j == |s| || s[j] == '/')
    && forall k :: i <= k < j ==> s[k] != '/'
  }

  /** No component of a cleaned path is empty or made of dots. */
  lemma ComponentsAreNames(p: string, size: nat, i: nat, j: nat)
    requires size > |p| && CleanPath(p, size) != [] && IsComponent(CleanPath(p, size), i, j)
    ensures i < j && CleanPath(p, size)[j - 1] != '.'
  {
    CleanIsTidy(p, size);
    var s := CleanPath(p, size);
    hide CleanPath;
    if i == j {
      if 0 < i < |s| { FlowsAt(s, i - 1); }
    } else {
      FlowsAt(s, j - 1);
    }
  }

  /** A dot run before a separator is dropped together with it: two components become one. */
  lemma TrailingDotsMergeComponents()
    ensures CleanPath("a../b", 6) == "ab"
  {
    var p := "a../b";
    assert p[1..] == "../b" && p[1..][1..] == "./b" && p[1..][1..][1..] == "/b";
    assert Dots("/b") == 0;
    assert Dots("./b") == 1;
    assert Dots("../b") == 2;
    assert "../b"[2..] == "/b" && "/b"[1..] == "b" && "b"[1..] == "";
    assert Scrub("b", true, 4) == "b";
    assert Scrub("/b", true, 4) == "b";
    assert Scrub("../b", false, 4) == "b";
    assert Scrub(p, true, 5) == "ab";
  }

  // ---------- The buffer version ----------

  /** Writes the cleaned path and its terminator; never outside the buffer. */
  method CleanInto(input: string, output: array<char>) returns (w: nat)
    modifies output
    ensures output.Length > 0 ==>
              w < output.Length && output[..w] == CleanPath(input, output.Length) && output[w] == '\0'
  {
    w := 0;
    if output.Length == 0 { return; }
    w := ScrubInto(input, output);
    while w > 0 && output[w - 1] == '/'
      invariant w < output.Length && Trim(output[..w]) == CleanPath(input, output.Length)
      decreases w
    {
      assert output[..w][..w - 1] == output[..w - 1];
      w := w - 1;
    }
    output[w] := '\0';
  }

  /** `done` is written and `rest` is still to be read; together they make `all`. */
  ghost predicate Halfway(all: string, done: string, rest: string, prevSep: bool, room: nat) {
    all == done + Scrub(rest, prevSep, room)
  }

  lemma DropsSep(all: string, done: string, rest: string, prevSep: bool, room: nat)
    requires Halfway(all, done, rest, prevSep, room) && rest != [] && room > 0 && IsSep(rest[0])
    ensures prevSep ==> Halfway(all, done, rest[1..], true, room)
    ensures !prevSep ==> Halfway(all, done + ['/'], rest[1..], true, room - 1)
  {}

  lemma DropsDots(all: string, done: string, rest: string, prevSep: bool, room: nat)
    requires Halfway(all, done, rest, prevSep, room) && room > 0 && DotsOnly(rest)
    ensures Halfway(all, done, rest[Dots(rest)..], true, room)
  {}

  lemma Emits(all: string, done: string, rest: string, prevSep: bool, room: nat)
    requires Halfway(all, done, rest, prevSep, room) && rest != [] && room > 0
    requires !IsSep(rest[0]) && !DotsOnly(rest)
    ensures Halfway(all, done + [Emit(rest[0])], rest[1..], false, room - 1)
  {}

  method Put(output: array<char>, w: nat, c: char) returns (w': nat)
    requires w < output.Length
    modifies output
    ensures w' == w + 1 && output[..w'] == old(output[..w]) + [c]
  {
    output[w] := c;
    w' := w + 1;
  }

  method ScrubInto(input: string, output: array<char>) returns (w: nat)
    requires output.Length > 0
    modifies output
    ensures w < output.Length && output[..w] == Scrub(input, true, output.Length - 1)
  {
    var p, prevSep := 0, true;
    w := 0;
    ghost var room := output.Length - 1;
    ghost var all := Scrub(input, true, room);
    assert input[0..] == input && Halfway(all, output[..0], input[0..], true, room);
    hide *;
    while p < |input| && w + 1 < output.Length
      invariant p <= |input| && w < output.Length
      invariant Halfway(all, output[..w], input[p..], prevSep, room - w)
      decreases |input| - p
    {
      ghost var done, rest := output[..w], input[p..];
      if IsSep(input[p]) {
        DropsSep(all, done, rest, prevSep, room - w);
        if !prevSep {
          w := Put(output, w, '/');
          prevSep := true;
        }
        p := p + 1;
        assert input[p..] == rest[1..];
        continue;
      }
      var skip, q := DotRun(input, p);
      if skip {
        DropsDots(all, done, rest, prevSep, room - w);
        assert input[q..] == rest[Dots(rest)..];
        p := q;
        prevSep := true;
        continue;
      }
      Emits(all, done, rest, prevSep, room - w);
      w := Put(output, w, Emit(input[p]));
      p, prevSep := p + 1, false;
      assert input[p..] == rest[1..];
    }
    ScrubEnds(all, output[..w], input[p..], prevSep, room - w);
  }

  lemma ScrubEnds(all: string, done: string, rest: string, prevSep: bool, room: nat)
    requires Halfway(all, done, rest, prevSep, room) && (rest == [] || room == 0)
    ensures all == done
  {}

  /** Looks past a run of dots at `p`; `skip` tells that nothing else is in the component. */
  method DotRun(input: string, p: nat) returns (skip: bool, q: nat)
    requires p < |input|
    ensures p <= q <= |input| && q - p == Dots(input[p..])
    ensures skip <==> DotsOnly(input[p..])
    ensures skip ==> q > p
  {
    q := p;
    while q < |input| && input[q] == '.'
      invariant p <= q <= |input| && q - p + Dots(input[q..]) == Dots(input[p..])
    {
      assert input[q..][1..] == input[q + 1..];
      q := q + 1;
    }
    skip := q > p && (q == |input| || IsSep(input[q]));
  }
}
