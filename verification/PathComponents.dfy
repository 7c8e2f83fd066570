/**
  What the path sanitizer makes of a path's components: which of them survive, in
  what form, and when two of them become one.
 */
module PathComponents {
  import opened PathCleaning

  // ---------- Components ----------

  /** Where the first component ends. */
  function FirstEnd(p: string): (n: nat)
    ensures n <= |p| && (n < |p| ==> IsSep(p[n]))
    ensures forall i :: 0 <= i < n ==> !IsSep(p[i])
  {
    if p == [] || IsSep(p[0]) then 0 else 1 + FirstEnd(p[1..])
  }

  /** The pieces of a path between separators of either kind, empty ones included. */
  function Split(p: string): seq<string> {
    var n := FirstEnd(p);
    if n == |p| then [p] else [p[..n]] + Split(p[n + 1..])
  }

  function Components(p: string): seq<string> {
    if p == [] then [] else Split(p)
  }

  predicate AllDots(w: string) { Dots(w) == |w| }

  /** The pieces that hold something other than dots. */
  function Names(ws: seq<string>): seq<string> {
    if ws == [] then []
    else (if AllDots(ws[0]) then [] else [ws[0]]) + Names(ws[1..])
  }

  function DropTrailingDots(w: string): string {
    if AllDots(w) then [] else [w[0]] + DropTrailingDots(w[1..])
  }

  function EmitAll(w: string): string {
    if w == [] then [] else [Emit(w[0])] + EmitAll(w[1..])
  }

  /** A component as it is written: trailing dots dropped, unsafe characters replaced. */
  function Shown(w: string): string { EmitAll(DropTrailingDots(w)) }

  function ShownAll(ws: seq<string>): seq<string> {
    if ws == [] then [] else [Shown(ws[0])] + ShownAll(ws[1..])
  }

  predicate EndsInDot(w: string) { w != [] && w[|w| - 1] == '.' }

  /** A name that ends in a dot is glued to the next one. */
  function Glued(ns: seq<string>): seq<string> {
    if |ns| <= 1 then ShownAll(ns)
    else
      var rest := Glued(ns[1..]);
      if EndsInDot(ns[0]) && rest != [] then [Shown(ns[0]) + rest[0]] + rest[1..]
      else [Shown(ns[0])] + rest
  }

  // ---------- One component ----------

  lemma {:induction false} DotsThrough(w: string, r: string)
    requires r == [] || r[0] != '.'
    ensures Dots(w + r) == Dots(w)
    decreases |w|
  {
    if w == [] {
      assert w + r == r;
    } else if w[0] == '.' {
      DotsThrough(w[1..], r);
      assert (w + r)[1..] == w[1..] + r;
    }
  }

  lemma AllDotsTail(w: string)
    requires w != []
    ensures AllDots(w) <==> w[0] == '.' && AllDots(w[1..])
    ensures |w| > 1 ==> (EndsInDot(w) <==> EndsInDot(w[1..]))
    ensures AllDots(w) ==> EndsInDot(w)
    ensures |w| == 1 ==> (AllDots(w) <==> EndsInDot(w))
  {
    if AllDots(w) {
      assert w[|w| - 1] == '.';
    }
  }

  /** Where the writer stands after a component. */
  predicate AtBoundary(w: string, prevSep: bool) {
    if w == [] then prevSep else EndsInDot(w)
  }

  lemma {:induction false} ShownFits(w: string)
    ensures |Shown(w)| <= |w|
    ensures AllDots(w) <==> Shown(w) == []
    ensures forall i :: 0 <= i < |Shown(w)| ==> !IsSep(Shown(w)[i])
    decreases |w|
  {
    if !AllDots(w) {
      AllDotsTail(w);
      ShownFits(w[1..]);
      ShownStep(w);
    }
  }

  lemma ShownStep(w: string)
    requires !AllDots(w)
    ensures Shown(w) == [Emit(w[0])] + Shown(w[1..])
  {
    var d := DropTrailingDots(w);
    assert d[1..] == DropTrailingDots(w[1..]);
  }

  lemma ScrubDots(w: string, r: string, prevSep: bool, room: nat)
    requires w != [] && AllDots(w) && (r == [] || IsSep(r[0])) && room > 0
    ensures Scrub(w + r, prevSep, room) == Scrub(r, true, room)
  {
    DotsThrough(w, r);
    assert w[0] == '.' && (w + r)[|w|..] == r;
  }

  lemma ScrubOne(w: string, r: string, prevSep: bool, room: nat)
    requires !AllDots(w) && !IsSep(w[0]) && (r == [] || IsSep(r[0])) && room > 0
    requires forall i :: 0 <= i < |w| ==> !IsSep(w[i])
    ensures Scrub(w + r, prevSep, room) == [Emit(w[0])] + Scrub(w[1..] + r, false, room - 1)
  {
    DotsThrough(w, r);
    assert (w + r)[1..] == w[1..] + r && (w + r)[Dots(w)] == w[Dots(w)];
    hide Dots;
  }

  /** A component followed by a separator or the end is written as shown. */
  lemma {:induction false} ScrubsComponent(w: string, r: string, prevSep: bool, room: nat)
    requires room >= |w| + |r| && (forall i :: 0 <= i < |w| ==> !IsSep(w[i]))
    requires r == [] || IsSep(r[0])
    ensures |Shown(w)| <= |w|
    ensures Scrub(w + r, prevSep, room) == Shown(w) + Scrub(r, AtBoundary(w, prevSep), room - |Shown(w)|)
    decreases |w|
  {
    ShownFits(w);
    hide Scrub, Shown, AllDots, Emit;
    if w == [] {
      assert w + r == r;
    } else {
      AllDotsTail(w);
      if AllDots(w) {
        ScrubDots(w, r, prevSep, room);
      } else {
        ScrubOne(w, r, prevSep, room);
        ShownStep(w);
        ScrubsComponent(w[1..], r, false, room - 1);
      }
    }
  }

  // ---------- The whole path ----------

  /** The components one after another; a separator only behind what ended outside dots. */
  function Laid(ws: seq<string>): string {
    if ws == [] then []
    else if |ws| == 1 then Shown(ws[0])
    else Shown(ws[0]) + (if AtBoundary(ws[0], true) then [] else ['/']) + Laid(ws[1..])
  }

  lemma {:induction false} ScrubSep(r: string, prevSep: bool, room: nat)
    requires r != [] && IsSep(r[0]) && room > 0
    ensures Scrub(r, prevSep, room)
         == if prevSep then Scrub(r[1..], true, room) else ['/'] + Scrub(r[1..], true, room - 1)
  {}

  lemma LaidStep(w: string, ws: seq<string>)
    requires ws != []
    ensures Laid([w] + ws) == Shown(w) + (if AtBoundary(w, true) then [] else ['/']) + Laid(ws)
  {
    assert ([w] + ws)[1..] == ws;
  }

  lemma {:induction false} ScrubIsLaid(p: string, room: nat)
    requires room >= |p|
    ensures Scrub(p, true, room) == Laid(Split(p))
    decreases |p|
  {
    SplitStep(p);
    hide Scrub, Laid, Shown, AtBoundary, FirstEnd, Split, IsSep;
    var n := FirstEnd(p);
    var w, r := p[..n], p[n..];
    assert p == w + r;
    ScrubsComponent(w, r, true, room);
    var left := room - |Shown(w)|;
    if n < |p| {
      var rest, gap := p[n + 1..], AtBoundary(w, true);
      assert r[1..] == rest;
      ScrubSep(r, gap, left);
      ScrubIsLaid(rest, left);
      ScrubIsLaid(rest, left - 1);
      LaidStep(w, Split(rest));
      assert !gap ==> Shown(w) + (['/'] + Laid(Split(rest))) == Shown(w) + ['/'] + Laid(Split(rest));
      assert Shown(w) + [] == Shown(w);
    } else {
      EmptyEnds(w, AtBoundary(w, true), left);
      assert p == w && r == [];
    }
  }

  lemma {:induction false} SplitStep(p: string)
    ensures var n := FirstEnd(p);
            && Split(p) == (if n == |p| then [p] else [p[..n]] + Split(p[n + 1..]))
            && (n < |p| ==> Split(p[n + 1..]) != [])
  {}

  lemma {:induction false} EmptyEnds(w: string, prevSep: bool, room: nat)
    ensures Scrub([], prevSep, room) == [] && Laid([w]) == Shown(w)
  {}

  /** The names alone, each followed by a separator unless it ends in a dot. */
  function Strung(ns: seq<string>): string {
    if ns == [] then [] else Shown(ns[0]) + (if EndsInDot(ns[0]) then [] else ['/']) + Strung(ns[1..])
  }

  lemma TrimLast(s: string)
    ensures Trim(s + ['/']) == Trim(s)
  {
    assert (s + ['/'])[..|s|] == s;
  }

  lemma {:induction false} TrimAppend(a: string, b: string)
    requires Trim(b) != []
    ensures Trim(a + b) == a + Trim(b)
    decreases |b|
  {
    if b[|b| - 1] == '/' {
      TrimAppend(a, b[..|b| - 1]);
      assert (a + b)[..|a + b| - 1] == a + b[..|b| - 1];
    }
  }

  /** What one more component in front adds to both forms. */
  lemma {:induction false} OneInFront(w: string, ws: seq<string>)
    ensures var gap := if AllDots(w) || EndsInDot(w) then [] else ['/'];
            && Strung(Names([w] + ws)) == Shown(w) + gap + Strung(Names(ws))
            && (ws != [] ==> Laid([w] + ws) == Shown(w) + gap + Laid(ws))
            && (ws == [] ==> Laid([w] + ws) == Shown(w))
  {
    ShownFits(w);
    if w != [] { AllDotsTail(w); }
    assert ([w] + ws)[1..] == ws;
    hide Shown, AllDots;
    if !AllDots(w) {
      assert ([w] + Names(ws))[1..] == Names(ws);
    } else {
      assert Names([w] + ws) == [] + Names(ws) == Names(ws);
      assert Shown(w) + [] + Strung(Names(ws)) == Strung(Names(ws));
    }
  }

  lemma {:induction false} LaidOrStrung(ws: seq<string>)
    ensures Strung(Names(ws)) == Laid(ws) || Strung(Names(ws)) == Laid(ws) + ['/']
    decreases |ws|
  {
    if ws != [] {
      var w, rest := ws[0], ws[1..];
      OneInFront(w, rest);
      LaidOrStrung(rest);
      assert ws == [w] + rest;
      if rest == [] {
        assert Strung(Names(rest)) == [];
      }
      hide Strung, Names, Laid, Shown, AllDots, EndsInDot;
    }
  }

  /** The parts with a single separator between them. */
  function Join(ms: seq<string>): string {
    if ms == [] then [] else if |ms| == 1 then ms[0] else ms[0] + ['/'] + Join(ms[1..])
  }

  ghost predicate AllNames(ns: seq<string>) {
    forall i :: 0 <= i < |ns| ==> !AllDots(ns[i])
  }

  ghost predicate Parts(ms: seq<string>) {
    forall i :: 0 <= i < |ms| ==> ms[i] != [] && forall k :: 0 <= k < |ms[i]| ==> !IsSep(ms[i][k])
  }

  lemma {:induction false} GluedParts(ns: seq<string>)
    requires AllNames(ns)
    ensures Parts(Glued(ns)) && (ns != [] ==> Glued(ns) != []) && |Glued(ns)| <= |ns|
    decreases |ns|
  {
    if ns != [] {
      ShownFits(ns[0]);
      if |ns| > 1 {
        GluedParts(ns[1..]);
      } else {
        assert ShownAll(ns) == [Shown(ns[0])] + ShownAll([]);
      }
    }
  }

  lemma JoinFirst(a: string, m: string, rest: seq<string>)
    ensures Join([a + m] + rest) == a + Join([m] + rest)
    ensures rest != [] ==> Join([a] + rest) == a + ['/'] + Join(rest)
  {
    assert ([a + m] + rest)[1..] == rest && ([m] + rest)[1..] == rest && ([a] + rest)[1..] == rest;
    if rest != [] {
      assert (a + m) + ['/'] + Join(rest) == a + (m + ['/'] + Join(rest));
    }
  }

  lemma {:induction false} JoinNonEmpty(ms: seq<string>)
    requires ms != [] && Parts(ms)
    ensures Join(ms) != []
  {}

  /** Strung together and trimmed, the names read as their glued parts. */
  lemma {:induction false} StrungIsGlued(ns: seq<string>)
    requires AllNames(ns)
    ensures Trim(Strung(ns)) == Join(Glued(ns))
    decreases |ns|
  {
    if |ns| == 1 {
      OneName(ns[0]);
      assert ns == [ns[0]];
    } else if |ns| > 1 {
      var n, rest := ns[0], ns[1..];
      StrungIsGlued(rest);
      GluedParts(rest);
      var ms := Glued(rest);
      JoinNonEmpty(ms);
      var lead := Shown(n) + (if EndsInDot(n) then [] else ['/']);
      assert Strung(ns) == lead + Strung(rest);
      GlueStep(ns);
      hide Strung, Join, Glued, Shown, Trim;
      TrimAppend(lead, Strung(rest));
    }
  }

  lemma GlueStep(ns: seq<string>)
    requires |ns| > 1 && Glued(ns[1..]) != []
    ensures Join(Glued(ns)) == Shown(ns[0]) + (if EndsInDot(ns[0]) then [] else ['/']) + Join(Glued(ns[1..]))
  {
    var n, ms := ns[0], Glued(ns[1..]);
    assert ms == [ms[0]] + ms[1..];
    JoinFirst(Shown(n), ms[0], ms[1..]);
    JoinFirst(Shown(n), [], ms);
    hide Join, Shown;
    assert Shown(n) + [] == Shown(n);
  }

  lemma OneName(n: string)
    requires !AllDots(n)
    ensures Trim(Strung([n])) == Shown(n) && Glued([n]) == [Shown(n)]
  {
    ShownFits(n);
    var s := Shown(n);
    assert [n][1..] == [];
    assert Strung([n]) == s || Strung([n]) == s + ['/'];
    assert Trim(s) == s;
    TrimLast(s);
    assert ShownAll([n]) == [s] + ShownAll([]);
  }

  lemma {:induction false} FirstEndOf(w: string, r: string)
    requires (forall k :: 0 <= k < |w| ==> !IsSep(w[k])) && (r == [] || IsSep(r[0]))
    ensures FirstEnd(w + r) == |w|
    decreases |w|
  {
    if w == [] {
      assert w + r == r;
    } else {
      FirstEndOf(w[1..], r);
      assert (w + r)[1..] == w[1..] + r;
    }
  }

  lemma {:induction false} SplitFront(w: string, rest: string)
    requires forall k :: 0 <= k < |w| ==> !IsSep(w[k])
    ensures Split(w) == [w] && Split(w + ['/'] + rest) == [w] + Split(rest)
  {
    hide Split, FirstEnd;
    FirstEndOf(w, []);
    assert w + [] == w;
    SplitStep(w);
    var p := w + ['/'] + rest;
    FirstEndOf(w, ['/'] + rest);
    assert p == w + (['/'] + rest);
    SplitStep(p);
    assert p[..|w|] == w && p[|w| + 1..] == rest;
  }

  lemma {:induction false} SplitsJoined(ms: seq<string>)
    requires Parts(ms) && ms != []
    ensures Split(Join(ms)) == ms
    decreases |ms|
  {
    hide Split, IsSep;
    var w := ms[0];
    SplitFront(w, Join(ms[1..]));
    if |ms| == 1 {
      assert ms == [w];
    } else {
      SplitsJoined(ms[1..]);
    }
  }

  lemma {:induction false} NamesAreNames(ws: seq<string>)
    ensures AllNames(Names(ws))
  {
    if ws != [] {
      NamesAreNames(ws[1..]);
    }
  }

  // ---------- The theorems ----------

  /** For every path: the components written are the names of the path, glued at trailing dots. */
  lemma {:induction false} ComponentsAreGluedNames(p: string, size: nat)
    requires size > |p|
    ensures Components(CleanPath(p, size)) == Glued(Names(Split(p)))
  {
    hide Scrub, Trim, Split, Laid, Strung, Names, Glued, Join, Parts, AllNames;
    var ns := Names(Split(p));
    ScrubIsLaid(p, size - 1);
    LaidOrStrung(Split(p));
    TrimLast(Laid(Split(p)));
    NamesAreNames(Split(p));
    StrungIsGlued(ns);
    GluedParts(ns);
    if ns != [] {
      JoinNonEmpty(Glued(ns));
      SplitsJoined(Glued(ns));
    } else {
      assert Join(Glued([])) == [] && Glued([]) == [] by { NothingGlued(); }
    }
  }

  lemma NothingGlued()
    ensures Glued([]) == [] && Join([]) == []
  {}

  /** Some name other than the last ends in a dot. */
  ghost predicate DotBeforeName(ns: seq<string>) {
    exists i :: 0 <= i < |ns| - 1 && EndsInDot(ns[i])
  }

  lemma {:induction false} GluedOrKept(ns: seq<string>)
    requires AllNames(ns)
    ensures |ShownAll(ns)| == |ns|
    ensures Glued(ns) == ShownAll(ns) <==> !DotBeforeName(ns)
    ensures DotBeforeName(ns) ==> |Glued(ns)| < |ns|
    decreases |ns|
  {
    if |ns| > 1 {
      var rest := ns[1..];
      GluedOrKept(rest);
      GluedParts(rest);
      assert forall i :: 0 <= i < |rest| ==> rest[i] == ns[i + 1];
      if EndsInDot(ns[0]) {
        assert DotBeforeName(ns);
      } else {
        SameInRest(ns);
        assert ([Shown(ns[0])] + Glued(rest))[1..] == Glued(rest);
      }
    } else if |ns| == 1 {
      assert ns[1..] == [];
    }
  }

  lemma SameInRest(ns: seq<string>)
    requires |ns| > 1 && !EndsInDot(ns[0])
    ensures DotBeforeName(ns) <==> DotBeforeName(ns[1..])
  {
    var rest := ns[1..];
    if DotBeforeName(ns) {
      var i :| 0 <= i < |ns| - 1 && EndsInDot(ns[i]);
      assert rest[i - 1] == ns[i];
    }
    if DotBeforeName(rest) {
      var i :| 0 <= i < |rest| - 1 && EndsInDot(rest[i]);
      assert ns[i + 1] == rest[i];
    }
  }

  /**
    Every name survives as a component of its own, in order, trailing dots dropped and
    unsafe characters replaced, if and only if no name but the last ends in a dot.
   */
  lemma {:induction false} NamesSurviveIff(p: string, size: nat)
    requires size > |p|
    ensures Components(CleanPath(p, size)) == ShownAll(Names(Split(p))) <==> !DotBeforeName(Names(Split(p)))
  {
    ComponentsAreGluedNames(p, size);
    NamesAreNames(Split(p));
    GluedOrKept(Names(Split(p)));
  }
}
