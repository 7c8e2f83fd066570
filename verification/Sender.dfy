/**
  The sending side of the data phase as the objects that run it: the source file
  handle with its cached cursor, the window variables and the acknowledgement wait,
  against any script of incoming packets, damaged frames and timeouts.
 */
module Sender {
  import opened Crc32
  import opened DataPhase
  import FlowControl

  /** What one receive attempt can bring. */
  datatype Event =
    | Ack(off: nat)
    | Nak(off: nat)
    | Cancel
    | ErrorPacket
    | Other
    | Damaged
    | Silence
    | Broken

  /** What a received event makes the wait do. */
  datatype Decision = Continue | Complete | Again | Stop(why: Status)

  /** What each event makes the wait do: only news ends it well, only tries left allow a restart. */
  function Reaction(e: Event, tx: Tx, tries: nat): Decision {
    match e
    case Cancel => Stop(Aborted)
    case ErrorPacket => Stop(Protocol)
    case Broken => Stop(LinkDown)
    case Other => Continue
    case Nak(_) => Again
    case Ack(off) => if off > tx.acked && off >= tx.next then Complete else Continue
    case Damaged => if tries > 0 then Again else Stop(BadCrc)
    case Silence => if tries > 0 then Again else Stop(TimedOut)
  }

  predicate IsPacket(e: Event) {
    e.Ack? || e.Nak? || e.Cancel? || e.ErrorPacket? || e.Other?
  }

  /** Packets still to come. */
  function Packets(es: seq<Event>): nat {
    if es == [] then 0 else (if IsPacket(es[0]) then 1 else 0) + Packets(es[1..])
  }

  /** The window variables after a run of acknowledgements and ignored packets. */
  function Acked(tx: Tx, es: seq<Event>, maxPayload: nat): Tx
    requires maxPayload > 0
    decreases |es|
  {
    if es == [] then tx
    else
      var mid := Acked(tx, es[..|es| - 1], maxPayload);
      if es[|es| - 1].Ack? then OnAck(mid, es[|es| - 1].off, maxPayload) else mid
  }

  // ---------- What a history of events says, whatever the windows were ----------

  /**
    The highest offset acknowledged, the silent or damaged receives since an
    acknowledgement last advanced it, all of them together, and whether one ever did.
   */
  datatype Watch = Watch(acked: nat, idle: nat, silent: nat, moved: bool)

  predicate IsSilent(e: Event) { e.Silence? || e.Damaged? }

  function Seen(w: Watch, e: Event, size: nat): Watch {
    match e
    case Ack(off) => if off > w.acked then Watch(off, 0, w.silent, true) else w
    case Nak(off) => if w.acked < off <= size then w.(acked := off) else w
    case Silence => w.(idle := w.idle + 1, silent := w.silent + 1)
    case Damaged => w.(idle := w.idle + 1, silent := w.silent + 1)
    case _ => w
  }

  function Watching(size: nat, start: nat, es: seq<Event>): Watch
    decreases |es|
  {
    if es == [] then Watch(start, 0, 0, false)
    else Seen(Watching(size, start, es[..|es| - 1]), es[|es| - 1], size)
  }

  /** An acknowledgement of the last byte, and news. */
  predicate Completes(size: nat, w: Watch, e: Event) {
    e.Ack? && e.off > w.acked && e.off >= size
  }

  predicate Fatal(e: Event) { e.Cancel? || e.ErrorPacket? || e.Broken? }

  /** At least one retry for every window. */
  function LaterTries(ackRetries: nat): nat { if ackRetries == 0 then 1 else ackRetries }

  /** The first window after a resume earns one more per 256 MiB, six at most, in eight bits. */
  function FirstTries(ackRetries: nat, start: nat): nat {
    (LaterTries(ackRetries) + (if start / 0x1000_0000 > 6 then 6 else start / 0x1000_0000)) % 256
  }

  /** The extra tries only ever add, except where eight bits do not hold them. */
  lemma FirstTriesAdd(ackRetries: nat, start: nat)
    requires ackRetries <= 255
    ensures var extra := if start >= 6 * 0x1000_0000 then 6 else start / 0x1000_0000;
            && (ackRetries + extra <= 255 && extra <= 254 ==>
                  FirstTries(ackRetries, start) == (if ackRetries == 0 then 1 else ackRetries) + extra >= 1)
            && (ackRetries + extra > 255 ==> FirstTries(ackRetries, start) == ackRetries + extra - 256 < ackRetries)
  {}

  /** The tries have run out: more silent receives in a row than any rule allowed. */
  predicate Exhausted(size: nat, start: nat, ackRetries: nat, es: seq<Event>) {
    var w := Watching(size, start, es);
    if !w.moved then w.idle == 1 + FirstTries(ackRetries, start)
    else 1 + ackRetries <= w.idle <= 1 + LaterTries(ackRetries)
  }

  /** Nothing in `es` ends a transfer by itself. */
  ghost predicate Undecided(size: nat, start: nat, es: seq<Event>) {
    forall i :: 0 <= i < |es| ==> !Fatal(es[i]) && !Completes(size, Watching(size, start, es[..i]), es[i])
  }

  /** How a transfer that consumed exactly `es` ends, if nothing local interferes. */
  ghost predicate Ends(size: nat, start: nat, ackRetries: nat, es: seq<Event>, st: Status) {
    if es == [] then st.Ok? && start >= size
    else
      var init, e := es[..|es| - 1], es[|es| - 1];
      && Undecided(size, start, init)
      && match st
         case Ok => Completes(size, Watching(size, start, init), e)
         case TimedOut => e.Silence? && Exhausted(size, start, ackRetries, es)
         case BadCrc => e.Damaged? && Exhausted(size, start, ackRetries, es)
         case Protocol => e.ErrorPacket?
         case Aborted => e.Cancel?
         case LinkDown => e.Broken?
         case Io => false
  }

  lemma WatchingMore(size: nat, start: nat, es: seq<Event>, e: Event)
    ensures Watching(size, start, es + [e]) == Seen(Watching(size, start, es), e, size)
  {
    assert (es + [e])[..|es|] == es;
  }

  /** The sender's counters: offset acknowledged, restarts, tries left, tries granted. */
  datatype Counters = Counters(acked: nat, restarts: nat, tries: nat, budget: nat)

  /** The counters agree with an undecided history. */
  ghost predicate OnTrack(size: nat, start: nat, ackRetries: nat, es: seq<Event>, k: Counters) {
    var w := Watching(size, start, es);
    && k.acked == w.acked && k.restarts == w.silent && k.tries + w.idle == k.budget
    && (if w.moved then ackRetries <= k.budget <= LaterTries(ackRetries) else k.budget == FirstTries(ackRetries, start))
    && Undecided(size, start, es)
  }

  /** How the counters move with an event that does not end the wait. */
  predicate Moves(ackRetries: nat, size: nat, k: Counters, e: Event, k': Counters) {
    && k'.acked == Seen(Watch(k.acked, 0, 0, false), e, size).acked
    && if e.Ack? && e.off > k.acked then k'.restarts == k.restarts && k'.tries == k'.budget == ackRetries
       else if IsSilent(e) then k'.restarts == k.restarts + 1 && k'.tries == k.tries - 1 && k'.budget == k.budget
       else k' == k.(acked := k'.acked)
  }

  lemma StaysOnTrack(size: nat, start: nat, ackRetries: nat, es: seq<Event>, k: Counters, e: Event, k': Counters)
    requires OnTrack(size, start, ackRetries, es, k) && Moves(ackRetries, size, k, e, k')
    requires !Fatal(e)
    ensures !Completes(size, Watching(size, start, es), e) ==> OnTrack(size, start, ackRetries, es + [e], k')
    ensures Completes(size, Watching(size, start, es), e) ==> Ends(size, start, ackRetries, es + [e], Ok)
    ensures Watching(size, start, es + [e]) == Seen(Watching(size, start, es), e, size)
  {
    WatchingMore(size, start, es, e);
    if !Completes(size, Watching(size, start, es), e) {
      UndecidedMore(size, start, es, e);
    }
    assert (es + [e])[..|es|] == es;
    hide Watching, Undecided, FirstTries;
  }

  /** A fatal packet, or silence without a try left, ends it as the history says. */
  lemma EndsOnTrack(size: nat, start: nat, ackRetries: nat, es: seq<Event>, k: Counters, e: Event, tx: Tx)
    requires OnTrack(size, start, ackRetries, es, k) && Reaction(e, tx, k.tries).Stop?
    ensures Ends(size, start, ackRetries, es + [e], Reaction(e, tx, k.tries).why)
    ensures Watching(size, start, es + [e]).silent == k.restarts + (if IsSilent(e) then 1 else 0)
  {
    WatchingMore(size, start, es, e);
    assert (es + [e])[..|es|] == es;
    hide Watching, Undecided, FirstTries;
  }

  lemma CountsSilence(size: nat, start: nat, ackRetries: nat, es: seq<Event>, k: Counters)
    requires OnTrack(size, start, ackRetries, es, k)
    ensures k.restarts == Watching(size, start, es).silent
  {}

  lemma {:induction false} MovedForward(size: nat, start: nat, es: seq<Event>)
    ensures var w := Watching(size, start, es); w.acked >= start && (w.moved ==> w.acked > start)
    decreases |es|
  {
    if es != [] {
      MovedForward(size, start, es[..|es| - 1]);
    }
  }

  /** A new window starts with its tries whole. */
  lemma FreshWindow(size: nat, start: nat, ackRetries: nat, es: seq<Event>, k: Counters, n: nat)
    requires es == [] ==> k.acked == start && k.restarts == 0 && n == FirstTries(ackRetries, start)
    requires es != [] ==> && OnTrack(size, start, ackRetries, es, k) && Watching(size, start, es).moved
                          && Watching(size, start, es).idle == 0 && n == LaterTries(ackRetries)
    ensures OnTrack(size, start, ackRetries, es, k.(tries := n, budget := n))
  {}

  /** Success after the start was heard: the acknowledgement is in the script. */
  lemma SuccessHeard(size: nat, start: nat, ackRetries: nat, all: seq<Event>, rest: seq<Event>, es: seq<Event>)
    requires HeardOf(all, rest, es, Silence) && Ends(size, start, ackRetries, es, Ok) && start < size
    ensures var a := Watching(size, start, es).acked; a >= size && Ack(a) in all
  {
    var e := es[|es| - 1];
    assert e.Ack? && |es| - 1 < |all| && all[|es| - 1] == e;
  }

  lemma NextDecision(tx: Tx, e: Event, tries: nat, size: nat)
    ensures var d := Reaction(e, tx, tries);
            && (d.Stop? <==> Fatal(e) || (IsSilent(e) && tries == 0)) && (d.Stop? ==> !d.why.Ok?)
            && (d.Stop? ==> ((d.why.TimedOut? || d.why.BadCrc?) <==> IsSilent(e)))
            && (d.Complete? <==> e.Ack? && e.off > tx.acked && e.off >= tx.next)
            && (d.Again? ==> e.Nak? || IsSilent(e)) && (d.Continue? ==> e.Ack? || e.Other?)
            && (tx.next <= size && e.Ack? && e.off > tx.acked && e.off >= size ==> d.Complete?)
  {}

  lemma NewsMoves(size: nat, start: nat, ackRetries: nat, es: seq<Event>, k: Counters, e: Event, tx: Tx)
    requires OnTrack(size, start, ackRetries, es, k) && tx.acked == k.acked
    ensures Reaction(e, tx, k.tries).Complete? ==>
              var w := Seen(Watching(size, start, es), e, size);
              w.acked == e.off && w.moved && w.idle == 0 && w.silent == k.restarts
    ensures tx.next <= size ==>
              (Completes(size, Watching(size, start, es), e) <==> Reaction(e, tx, k.tries).Complete? && e.off >= size)
  {
    hide Watching, Undecided, FirstTries;
  }

  lemma NothingHeard(size: nat, start: nat, all: seq<Event>, ackRetries: nat)
    ensures Watching(size, start, []) == Watch(start, 0, 0, false) && Undecided(size, start, [])
    ensures start >= size ==> Ends(size, start, ackRetries, [], Ok)
    ensures HeardOf(all, all, [], Silence)
  {}

  lemma UndecidedMore(size: nat, start: nat, es: seq<Event>, e: Event)
    requires Undecided(size, start, es) && !Fatal(e) && !Completes(size, Watching(size, start, es), e)
    ensures Undecided(size, start, es + [e])
  {
    hide Watching, Completes, Fatal;
    var more := es + [e];
    forall i | 0 <= i < |more| ensures !Fatal(more[i]) && !Completes(size, Watching(size, start, more[..i]), more[i]) {
      assert more[..i] == if i < |es| then es[..i] else es;
    }
  }

  /** `c` is a piece of the source cut at `at`, and says so if it says anything. */
  predicate CutAt(src: seq<Byte>, maxPayload: nat, c: Chunk, at: nat) {
    && at + |c.bytes| <= |src| && 0 < |c.bytes| <= maxPayload
    && c.bytes == src[at..at + |c.bytes|]
    && (c.offset.Some? ==> c.offset.value == at && |c.bytes| + 8 <= maxPayload)
  }

  ghost predicate AllCut(src: seq<Byte>, maxPayload: nat, cs: seq<Chunk>, at: seq<nat>) {
    && |cs| == |at|
    && forall i :: 0 <= i < |cs| ==> CutAt(src, maxPayload, cs[i], at[i])
  }

  /** How a wait over the consumed events `used` leaves the window. */
  predicate Settles(src: seq<Byte>, maxPayload: nat, tx: Tx, used: seq<Event>, after: Tx, restart: bool)
    requires maxPayload > 0 && used != []
  {
    var mid := Acked(tx, used[..|used| - 1], maxPayload);
    var e := used[|used| - 1];
    if !restart then e.Ack? && after == OnAck(mid, e.off, maxPayload) && after.acked == e.off >= tx.next
    else if e.Nak? then after == OnNak(mid, e.off, |src|, after.win)
    else (e.Silence? || e.Damaged?) && after == Rewind(mid, after.win)
  }

  // ---------- What the packets to come and the tries left pay for ----------

  datatype Meter = Meter(packets: nat, tries: nat, restarts: nat) {
    /** Timeout restarts so far, tries left, and what the packets still to come may grant. */
    function Spent(): nat { restarts + tries + 255 * packets }
  }

  /** Still within one wait: only packets have been used up. */
  predicate Holds(m: Meter, m': Meter) {
    && m'.Spent() <= m.Spent() && m'.packets <= m.packets && m'.restarts == m.restarts
    && (m'.packets == m.packets ==> m'.tries == m.tries)
  }

  /** A restart has used up a packet or a try. */
  predicate Resumes(m: Meter, m': Meter) {
    && m'.Spent() <= m.Spent() && m'.packets + m.restarts + 1 <= m.packets + m'.restarts
    && (m'.packets < m.packets || (m'.packets == m.packets && m'.tries < m.tries))
  }

  /** A window got through, which took a packet. */
  predicate Passes(m: Meter, m': Meter) {
    && m'.packets < m.packets && m'.Spent() - m'.tries + 255 <= m.Spent()
    && m'.packets + m.restarts + 1 <= m.packets + m'.restarts
  }

  predicate Breaks(m: Meter, m': Meter) {
    m'.restarts <= m.Spent() && m'.packets + m.restarts <= m.packets + m'.restarts
  }

  /** How the meter moves with an event and the decision taken on it. */
  predicate MeterMoves(m: Meter, e: Event, d: Decision, m': Meter) {
    && m'.tries <= 255 && m'.packets == m.packets - (if IsPacket(e) then 1 else 0)
    && match d
       case Continue => IsPacket(e) && m'.restarts == m.restarts
       case Complete => IsPacket(e) && m'.restarts == m.restarts
       case Again =>
         if e.Nak? then m'.restarts == m.restarts && m'.tries == m.tries
         else IsSilent(e) && m'.restarts == m.restarts + 1 && m'.tries == m.tries - 1
       case Stop(_) => m'.restarts == m.restarts
  }

  lemma MeterStep(m: Meter, mid: Meter, e: Event, d: Decision, m': Meter)
    requires Holds(m, mid) && MeterMoves(mid, e, d, m')
    ensures d.Continue? ==> Holds(m, m') && m'.packets < mid.packets
    ensures d.Again? ==> Resumes(m, m')
    ensures d.Complete? ==> Passes(m, m')
    ensures d.Stop? ==> Breaks(m, m')
  {}

  lemma HoldsBreaks(m: Meter, m': Meter)
    requires Holds(m, m')
    ensures Breaks(m, m')
  {}

  /** Rounds of one window: every fill but the last was answered by a packet or a restart. */
  predicate Rounds(m: Meter, m': Meter, fills: int) {
    m'.Spent() <= m.Spent() && m'.packets <= m.packets && fills + m'.packets + m.restarts <= m.packets + m'.restarts
  }

  lemma RoundStep(m: Meter, mid: Meter, fills: int, m': Meter)
    requires Rounds(m, mid, fills)
    ensures Resumes(mid, m') ==> && Rounds(m, m', fills + 1)
                                 && (m'.packets < mid.packets || (m'.packets == mid.packets && m'.tries < mid.tries))
    ensures Passes(mid, m') ==>
              && m'.packets < m.packets && m'.Spent() - m'.tries + 255 <= m.Spent()
              && fills + 1 + m'.packets + m.restarts <= m.packets + m'.restarts
    ensures Breaks(mid, m') ==> m'.restarts <= m.Spent() && fills + m'.packets + m.restarts <= m.packets + m'.restarts
  {}

  /** `n` frames in `fills` fills of at most `most` frames each. */
  predicate Paced(n: int, fills: nat, most: nat) {
    n <= most * fills
  }

  // ---------- Small facts ----------

  lemma PacedOnce(n: int, fills: nat, most: nat, more: int)
    requires Paced(n, fills, most) && more <= most
    ensures Paced(n + more, fills + 1, most)
  {
    assert most * (fills + 1) == most * fills + most;
  }

  lemma PacedSum(n: int, fills: nat, n': int, fills': nat, most: nat)
    requires Paced(n, fills, most) && Paced(n', fills', most)
    ensures Paced(n + n', fills + fills', most)
  {
    assert most * (fills + fills') == most * fills + most * fills';
  }

  /** How the window moves with an event and the decision taken on it. */
  predicate WindowMoves(size: nat, maxPayload: nat, tx: Tx, e: Event, d: Decision, tx': Tx)
    requires maxPayload > 0
  {
    match d
    case Continue => (e.Ack? || e.Other?) && tx' == (if e.Ack? then OnAck(tx, e.off, maxPayload) else tx)
    case Complete => e.Ack? && tx' == OnAck(tx, e.off, maxPayload) && tx'.acked == e.off >= tx.next
    case Again =>
      (e.Nak? && tx' == OnNak(tx, e.off, size, tx'.win)) || (IsSilent(e) && tx' == Rewind(tx, tx'.win))
    case Stop(_) => true
  }

  /** What one more event makes of a wait that has consumed `before`. */
  lemma WaitStep(src: seq<Byte>, maxPayload: nat, tx: Tx, before: seq<Event>, mid: Tx, e: Event, d: Decision, tx': Tx)
    requires maxPayload > 0 && mid == Acked(tx, before, maxPayload) && mid.next == tx.next
    requires WindowMoves(|src|, maxPayload, mid, e, d, tx')
    ensures d.Continue? ==> tx' == Acked(tx, before + [e], maxPayload) && tx'.next == tx.next
    ensures d.Complete? ==> Settles(src, maxPayload, tx, before + [e], tx', false)
    ensures d.Again? ==> Settles(src, maxPayload, tx, before + [e], tx', true)
  {
    assert (before + [e])[..|before|] == before;
  }

  lemma AckedNone(tx: Tx, maxPayload: nat, m: Meter)
    requires maxPayload > 0
    ensures Acked(tx, [], maxPayload) == tx && Holds(m, m)
    ensures forall es: seq<Event> :: Joined(es, [], es)
  {}

  predicate Joined(a: seq<Event>, b: seq<Event>, c: seq<Event>) { c == a + b }

  lemma JoinedMore(a: seq<Event>, b: seq<Event>, e: Event)
    ensures forall c :: Joined(a, b, c) ==> Joined(a, b + [e], c + [e])
  {
    assert a + b + [e] == a + (b + [e]);
  }

  lemma CeilShrinks(a: nat, n: nat, d: nat)
    requires d > 0 && a <= n * d
    ensures (a + d - 1) / d <= n
    ensures a <= ((a + d - 1) / d) * d
  {
    var q := (a + d - 1) / d;
    assert a + d - 1 == d * q + (a + d - 1) % d;
    assert d * (n + 1) == n * d + d;
    assert q > n ==> d * q >= d * (n + 1);
  }

  /** The packets counted as outstanding cover the bytes that are. */
  predicate Counted(tx: Tx, maxPayload: nat) {
    tx.next <= tx.acked + tx.inflight * maxPayload
  }

  lemma SendKeepsCount(size: nat, tx: Tx, maxPayload: nat)
    requires Counted(tx, maxPayload) && tx.next < size && maxPayload > 8
    ensures Counted(AfterSend(size, tx, maxPayload), maxPayload)
  {
    assert (tx.inflight + 1) * maxPayload == tx.inflight * maxPayload + maxPayload;
  }

  /** An acknowledgement never makes more packets count as outstanding. */
  lemma AckKeepsCount(tx: Tx, off: nat, maxPayload: nat)
    requires maxPayload > 0 && Counted(tx, maxPayload)
    ensures var u := OnAck(tx, off, maxPayload); u.inflight <= tx.inflight && Counted(u, maxPayload)
  {
    if off > tx.acked {
      CeilShrinks(if tx.next > off then tx.next - off else 0, tx.inflight, maxPayload);
    }
  }

  /** The outstanding bytes in packets, narrowed to 32 bits as the source stores it. */
  function Outstanding(next: nat, off: nat, maxPayload: nat): nat
    requires maxPayload > 0
  {
    (((if next > off then next - off else 0) + maxPayload - 1) / maxPayload) % 0x1_0000_0000
  }

  lemma NarrowingIsExact(tx: Tx, off: nat, maxPayload: nat)
    requires maxPayload > 0 && Counted(tx, maxPayload) && tx.inflight < 0x1_0000_0000 && off > tx.acked
    ensures OnAck(tx, off, maxPayload) == tx.(acked := off, inflight := Outstanding(tx.next, off, maxPayload))
  {
    AckKeepsCount(tx, off, maxPayload);
  }

  lemma FillUnfolds(src: seq<Byte>, tx: Tx, maxPayload: nat)
    requires maxPayload > 8
    ensures if tx.inflight < tx.win && tx.next < |src| then
              var (end, rest) := Fill(src, AfterSend(|src|, tx, maxPayload), maxPayload);
              && Fill(src, tx, maxPayload) == (end, [NextChunk(src, tx, maxPayload)] + rest)
              && AfterSend(|src|, tx, maxPayload).inflight == tx.inflight + 1
              && tx.next < AfterSend(|src|, tx, maxPayload).next
            else Fill(src, tx, maxPayload) == (tx, [])
  {}

  /** The acknowledged offset follows the history. */
  lemma NextAcked(tx: Tx, e: Event, size: nat, maxPayload: nat, win: nat)
    requires maxPayload > 0
    ensures e.Ack? ==> OnAck(tx, e.off, maxPayload).acked == if e.off > tx.acked then e.off else tx.acked
    ensures e.Nak? ==> OnNak(tx, e.off, size, win).acked == if tx.acked < e.off <= size then e.off else tx.acked
    ensures Rewind(tx, win).acked == tx.acked
  {}

  lemma NextChunkIsCut(src: seq<Byte>, tx: Tx, maxPayload: nat)
    requires tx.next < |src| && maxPayload > 8
    ensures CutAt(src, maxPayload, NextChunk(src, tx, maxPayload), tx.next)
  {}

  lemma AllCutExtends(src: seq<Byte>, maxPayload: nat, cs: seq<Chunk>, at: seq<nat>, c: Chunk, n: nat)
    requires AllCut(src, maxPayload, cs, at) && CutAt(src, maxPayload, c, n)
    ensures AllCut(src, maxPayload, cs + [c], at + [n])
  {}

  // ---------- The source file ----------

  class SourceFile {
    const bytes: seq<Byte>
    const sound: bool
    var pos: nat

    /** A sound file gives something whenever something is left to give. */
    constructor (bytes: seq<Byte>, sound: bool)
      ensures this.bytes == bytes && this.sound == sound && pos == 0
    {
      this.bytes, this.sound, pos := bytes, sound, 0;
    }

    method Seek(at: nat)
      modifies this
      ensures pos == at
    {
      pos := at;
    }

    /** A read may come back short; an empty one reports failure. */
    method Read(want: nat) returns (got: seq<Byte>)
      modifies this
      ensures |got| <= want && pos == old(pos) + |got| && pos <= |bytes| + old(pos)
      ensures old(pos) + |got| <= |bytes| || got == []
      ensures sound && want > 0 && old(pos) < |bytes| ==> got != []
      ensures old(pos) <= |bytes| ==> old(pos) + |got| <= |bytes| && got == bytes[old(pos)..old(pos) + |got|]
    {
      var k: int := *;
      if k < 0 || k > want || pos + k > |bytes| { k := 0; }
      if k == 0 && sound && want > 0 && pos < |bytes| { k := 1; }
      got := if k == 0 then [] else bytes[pos..pos + k];
      pos := pos + k;
    }
  }

  // ---------- The sender ----------

  class DataSender {
    const src: seq<Byte>
    const maxPayload: nat
    const start: nat
    const ackRetries: nat
    const calm: bool
    const file: SourceFile
    const flow: FlowControl.Session
    var acked: nat
    var next: nat
    var inflight: nat
    var win: nat
    var cursor: nat
    var tries: nat
    var inRetransmit: bool
    var grace: bool
    var script: seq<Event>
    var sent: seq<Chunk>
    ghost var cutAt: seq<nat>
    ghost var restarts: nat
    ghost var fills: nat
    ghost const all: seq<Event>
    ghost var history: seq<Event>
    ghost var budget: nat

    ghost function Window(): Tx
      reads this
    {
      Tx(acked, next, inflight, win)
    }

    /** The parts that never change between calls. */
    ghost predicate Configured()
      reads this
    {
      && 8 < maxPayload <= MAX_CONTENT && start <= |src| && ackRetries <= 255
      && file.bytes == src && (calm ==> file.sound)
    }

    ghost predicate Valid()
      reads this, file, flow
    {
      && Configured()
      && flow.State().Valid() && 1 <= win <= flow.negotiated
      && cursor == file.pos
      && next <= |src| && tries <= 255
      && inflight <= flow.negotiated && Counted(Window(), maxPayload)
      && AllCut(src, maxPayload, sent, cutAt)
    }

    /** The counters agree with what has been heard so far. */
    ghost predicate Tracked()
      reads this
    {
      OnTrack(|src|, start, ackRetries, history, Counters(acked, restarts, tries, budget))
    }

    /** What has been heard is the beginning of the script. */
    ghost predicate Heard()
      reads this
    {
      HeardOf(all, script, history, Silence)
    }

    /** How the transfer ended: as the history says, or by local interference. */
    ghost predicate Concluded(st: Status)
      reads this
    {
      && (Ends(|src|, start, ackRetries, history, st) || (Local(st) && !calm))
      && restarts + (if st.TimedOut? || st.BadCrc? then 1 else 0) == Watching(|src|, start, history).silent
    }

    /**
      Opens the data phase at the offset the resume negotiation settled. In a calm
      session nobody cancels locally and neither the file nor the link fails.
     */
    constructor (src: seq<Byte>, start: nat, maxPayload: nat, ackRetries: nat, file: SourceFile,
                 flow: FlowControl.Session, script: seq<Event>, calm: bool)
      requires start <= |src| && 8 < maxPayload <= MAX_CONTENT && ackRetries <= 255 && flow.State().Valid()
      requires file.bytes == src && (calm ==> file.sound)
      modifies file
      ensures Valid() && Window() == Tx(start, start, 0, flow.cwnd) && grace == (start > 0)
      ensures sent == [] && restarts == 0 && fills == 0 && history == []
      ensures this.script == script && this.flow == flow && this.src == src && this.calm == calm
      ensures this.ackRetries == ackRetries && this.start == start && all == script && Heard()
    {
      this.src, this.start, this.maxPayload, this.ackRetries, this.calm := src, start, maxPayload, ackRetries, calm;
      this.file, this.flow, this.script, all := file, flow, script, script;
      acked, next, inflight, win, cursor := start, start, 0, flow.cwnd, start;
      tries, inRetransmit, grace := 0, false, start > 0;
      sent, cutAt, restarts, fills, history, budget := [], [], 0, 0, [], 0;
      new;
      file.Seek(start);
    }

    method Receive() returns (e: Event)
      modifies this`script, this`history
      ensures old(script) == [] ==> e == Silence && script == []
      ensures old(script) != [] ==> e == old(script)[0] && script == old(script)[1..]
      ensures Packets(script) == Packets(old(script)) - (if IsPacket(e) then 1 else 0)
      ensures history == old(history) + [e]
      ensures old(Heard()) ==> Heard()
    {
      HeardMore(all, script, history, Silence);
      hide HeardOf;
      if script == [] {
        e := Silence;
      } else {
        e, script := script[0], script[1..];
      }
      history := history + [e];
    }

    /** Local interference: never in a calm session. */
    method Interfered() returns (yes: bool)
      ensures calm ==> !yes
    {
      yes := *;
      yes := yes && !calm;
    }

    /** Reads exactly `n` bytes, however short the single reads come back, or fails. */
    method ReadFully(n: nat) returns (ok: bool, bytes: seq<Byte>)
      requires file.pos + n <= |file.bytes|
      modifies file
      ensures ok ==> bytes == file.bytes[old(file.pos)..old(file.pos) + n] && file.pos == old(file.pos) + n
      ensures file.sound ==> ok
    {
      bytes, ok := [], true;
      while ok && |bytes| < n
        invariant |bytes| <= n && file.pos == old(file.pos) + |bytes|
        invariant bytes == file.bytes[old(file.pos)..old(file.pos) + |bytes|]
        invariant file.sound ==> ok
        decreases ok, n - |bytes|
      {
        var got := file.Read(n - |bytes|);
        ok := got != [];
        bytes := bytes + got;
      }
    }

    /** Seeks only when the cached cursor disagrees, then reads. */
    method ReadAtNext(n: nat) returns (ok: bool, payload: seq<Byte>)
      requires Configured() && cursor == file.pos && next + n <= |src|
      modifies this`cursor, file
      ensures ok ==> payload == src[next..next + n] && cursor == next && file.pos == next + n
      ensures calm ==> ok
    {
      if cursor != next {
        file.Seek(next);
        cursor := next;
      }
      ok, payload := ReadFully(n);
    }

    /** One DATA frame: whatever the handle did before, the payload is the source at `next`. */
    method SendDataPacket() returns (st: Status)
      requires Valid() && next < |src| && inflight < win
      modifies this`cursor, this`next, this`inflight, this`sent, this`cutAt, file
      ensures st.Ok? ==> Valid()
      ensures st.Ok? ==> Window() == AfterSend(|src|, old(Window()), maxPayload)
      ensures st.Ok? ==> sent == old(sent) + [NextChunk(src, old(Window()), maxPayload)]
      ensures !st.Ok? ==> sent == old(sent) && cutAt == old(cutAt) && Local(st) && !calm
    {
      hide AllCut, CutAt, Counted;
      ghost var tx := Window();
      ghost var was, at := sent, cutAt;
      var includeOffset := next == acked;
      var room := if includeOffset then maxPayload - 8 else maxPayload;
      var toRead := if |src| - next < room then |src| - next else room;
      var ok, payload := ReadAtNext(toRead);
      if !ok { return Io; }
      var linkDown := Interfered();
      if linkDown { return LinkDown; }
      var frame := Chunk(if includeOffset then Some(next) else None, payload);
      sent := sent + [frame];
      cutAt := cutAt + [next];
      next := next + toRead;
      cursor := cursor + toRead;
      inflight := inflight + 1;
      assert frame == NextChunk(src, tx, maxPayload);
      NextChunkIsCut(src, tx, maxPayload);
      AllCutExtends(src, maxPayload, was, at, frame, tx.next);
      SendKeepsCount(|src|, tx, maxPayload);
      return Ok;
    }

    /** Fills the window: exactly the frames the model's `Fill` prescribes. */
    method FillWindow() returns (st: Status)
      requires Valid()
      modifies this`cursor, this`next, this`inflight, this`sent, this`cutAt, file
      ensures st.Ok? ==> Valid()
      ensures st.Ok? ==> Window() == Fill(src, old(Window()), maxPayload).0
      ensures st.Ok? ==> sent == old(sent) + Fill(src, old(Window()), maxPayload).1
      ensures AllCut(src, maxPayload, sent, cutAt)
      ensures |sent| <= |old(sent)| + win
      ensures !st.Ok? ==> Local(st) && !calm
    {
      hide Fill, NextChunk, AfterSend, AllCut, Counted;
      ghost var all := Fill(src, Window(), maxPayload);
      ghost var done: seq<Chunk> := [];
      while inflight < win && next < |src|
        invariant Valid()
        invariant sent == old(sent) + done
        invariant all.0 == Fill(src, Window(), maxPayload).0
        invariant all.1 == done + Fill(src, Window(), maxPayload).1
        invariant |done| + old(inflight) == inflight && (done == [] || inflight <= win)
        decreases |src| - next
      {
        var cancelled := Interfered();
        if cancelled { return Aborted; }
        ghost var tx := Window();
        FillUnfolds(src, tx, maxPayload);
        st := SendDataPacket();
        if !st.Ok? { return; }
        done := done + [NextChunk(src, tx, maxPayload)];
      }
      FillUnfolds(src, Window(), maxPayload);
      return Ok;
    }

    /** A cumulative acknowledgement; the 32-bit packet count loses nothing. */
    method TakeAck(off: nat)
      requires Valid()
      modifies this`acked, this`inflight, this`tries, this`inRetransmit, this`grace, this`budget, flow
      ensures Valid() && Window() == OnAck(old(Window()), off, maxPayload)
      ensures off > old(acked) ==> tries == budget == ackRetries && !inRetransmit
      ensures off <= old(acked) ==> tries == old(tries) && budget == old(budget) && inRetransmit == old(inRetransmit)
      ensures flow.State() == if off > old(acked) && !old(inRetransmit) then FlowControl.OnSuccess(old(flow.State()))
                              else old(flow.State())
    {
      grace := false;
      if off <= acked { return; }
      NarrowingIsExact(Window(), off, maxPayload);
      AckKeepsCount(Window(), off, maxPayload);
      hide OnAck, Outstanding, Counted, AllCut, FlowControl.OnSuccess;
      if !inRetransmit { flow.RecordSuccess(); }
      acked := off;
      inflight := Outstanding(next, acked, maxPayload);
      tries, budget := ackRetries, ackRetries;
      inRetransmit := false;
    }

    /** Back to the last acknowledged byte, handle and cursor included; the error is recorded. */
    method Restart()
      requires Valid() && acked <= |src|
      modifies this`next, this`inflight, this`win, this`cursor, this`inRetransmit, file, flow
      ensures Valid() && Window() == Rewind(old(Window()), flow.cwnd)
      ensures file.pos == acked && inRetransmit
      ensures flow.State() == FlowControl.OnError(old(flow.State()))
    {
      hide FlowControl.OnError;
      flow.RecordError();
      inRetransmit := true;
      if file.pos != acked { file.Seek(acked); }
      inflight, next, cursor := 0, acked, acked;
      win := flow.cwnd;
    }

    /** A negative acknowledgement: adopt its offset if it advances, then go back. */
    method TakeNak(off: nat)
      requires Valid() && acked <= |src|
      modifies this`acked, this`next, this`inflight, this`win, this`cursor, this`inRetransmit, file, flow
      ensures Valid() && acked <= |src|
      ensures Window() == OnNak(old(Window()), off, |src|, flow.cwnd)
      ensures file.pos == acked && inRetransmit
      ensures flow.State() == FlowControl.OnError(old(flow.State()))
    {
      hide FlowControl.OnError;
      if acked < off <= |src| { acked := off; }
      Restart();
    }

    ghost function Metered(): Meter
      reads this
    {
      Meter(Packets(script), tries, restarts)
    }

    /** A silent or damaged receive: use up a try and go back, or give up when none is left. */
    method TakeTimeout(damaged: bool) returns (st: Status)
      requires Valid() && acked <= |src|
      modifies this`next, this`inflight, this`win, this`cursor, this`inRetransmit, this`tries, this`restarts, file, flow
      ensures Valid()
      ensures old(tries) == 0 <==> !st.Ok?
      ensures !st.Ok? ==> st == (if damaged then BadCrc else TimedOut) && restarts == old(restarts) && tries == 0
      ensures !st.Ok? ==> flow.State() == old(flow.State())
      ensures st.Ok? ==> tries == old(tries) - 1 && restarts == old(restarts) + 1
      ensures st.Ok? ==> Window() == Rewind(old(Window()), flow.cwnd) && inRetransmit
      ensures st.Ok? ==> flow.State() == FlowControl.OnError(old(flow.State()))
    {
      hide FlowControl.OnError;
      if tries == 0 { return if damaged then BadCrc else TimedOut; }
      Restart();
      tries := tries - 1;
      restarts := restarts + 1;
      return Ok;
    }

    /** One received event: what to do next, exactly, and how the window stands then. */
    method HandleEvent(e: Event) returns (d: Decision)
      requires Valid() && acked <= |src|
      modifies this`acked, this`next, this`inflight, this`win, this`cursor, this`tries
      modifies this`inRetransmit, this`grace, this`restarts, this`budget, file, flow
      ensures Valid()
      ensures d == Reaction(e, old(Window()), old(tries))
      ensures d.Continue? || d.Complete? ==>
                && next == old(next) && restarts == old(restarts)
                && Window() == (if e.Ack? then OnAck(old(Window()), e.off, maxPayload) else old(Window()))
      ensures d.Again? ==> && Window() == (if e.Nak? then OnNak(old(Window()), e.off, |src|, win) else Rewind(old(Window()), win))
                           && restarts == old(restarts) + (if e.Nak? then 0 else 1)
                           && tries == old(tries) - (if e.Nak? then 0 else 1)
      ensures d.Stop? ==> acked == old(acked) && restarts == old(restarts)
      ensures d.Continue? || d.Again? ==> acked <= |src|
      ensures flow.State() == if d.Again? then FlowControl.OnError(old(flow.State()))
                              else if e.Ack? && e.off > old(acked) && !old(inRetransmit) then FlowControl.OnSuccess(old(flow.State()))
                              else old(flow.State())
      ensures if e.Ack? && e.off > old(acked) then tries == budget == ackRetries
              else budget == old(budget) && (!d.Again? ==> tries == old(tries))
    {
      hide FlowControl.OnError, FlowControl.OnSuccess, Counted, AllCut;
      match e {
        case Cancel => d := Stop(Aborted);
        case ErrorPacket => d := Stop(Protocol);
        case Broken => d := Stop(LinkDown);
        case Other => d := Continue;
        case Nak(off) =>
          TakeNak(off);
          d := Again;
        case Ack(off) =>
          var advances := off > acked;
          TakeAck(off);
          d := if advances && acked >= next then Complete else Continue;
        case Damaged =>
          var st := TakeTimeout(true);
          d := if st.Ok? then Again else Stop(st);
        case Silence =>
          var st := TakeTimeout(false);
          d := if st.Ok? then Again else Stop(st);
      }
    }

    /** Receives one event and handles it, with the history kept up. */
    method TakeNext() returns (d: Decision, e: Event)
      requires Valid() && acked <= |src| && Tracked() && Heard()
      modifies this, file, flow
      ensures sent == old(sent) && cutAt == old(cutAt) && fills == old(fills)
      ensures Valid() && Heard()
      ensures history == old(history) + [e]
      ensures d == Reaction(e, old(Window()), old(tries))
      ensures WindowMoves(|src|, maxPayload, old(Window()), e, d, Window())
      ensures MeterMoves(old(Metered()), e, d, Metered())
      ensures d.Continue? || d.Again? ==> acked <= |src|
      ensures d.Stop? ==> !d.why.Ok? && Concluded(d.why)
      ensures d.Continue? || d.Again? || (d.Complete? && acked < |src|) ==> Tracked()
      ensures d.Complete? ==> e.Ack? && acked == e.off >= next && FreshlyMoved()
      ensures d.Complete? && acked >= |src| ==> Concluded(Ok)
    {
      ghost var tx, k, es := Window(), Counters(acked, restarts, tries, budget), history;
      hide OnAck, OnNak, Rewind, Counted, AllCut, Packets, HeardOf, OnTrack, Watching, Ends, Reaction, Completes;
      e := Receive();
      d := HandleEvent(e);
      NextAcked(tx, e, |src|, maxPayload, win);
      NextDecision(tx, e, k.tries, |src|);
      ghost var k' := Counters(acked, restarts, tries, budget);
      if d.Stop? {
        EndsOnTrack(|src|, start, ackRetries, es, k, e, tx);
      } else {
        StaysOnTrack(|src|, start, ackRetries, es, k, e, k');
        NewsMoves(|src|, start, ackRetries, es, k, e, tx);
      }
    }

    /** The last event was news. */
    ghost predicate FreshlyMoved()
      reads this
    {
      var w := Watching(|src|, start, history);
      acked == w.acked && w.moved && w.idle == 0 && restarts == w.silent
    }

    /** Stopping for a local reason leaves the counts in order. */
    lemma Interrupted(st: Status)
      requires Tracked() && !calm && Local(st)
      ensures Concluded(st)
    {
      CountsSilence(|src|, start, ackRetries, history, Counters(acked, restarts, tries, budget));
    }

    /**
      Waits for the whole window to be acknowledged. `used` lists the events that were
      consumed: all but the last are acknowledgements or ignored packets, and the last
      one decides the outcome.
     */
    method WaitForWindowAck() returns (st: Status, restart: bool, ghost used: seq<Event>)
      requires Valid() && acked <= |src| && Tracked() && Heard()
      modifies this, file, flow
      ensures sent == old(sent) && cutAt == old(cutAt) && fills == old(fills)
      ensures Heard() && Joined(old(history), used, history)
      ensures st.Ok? ==> Valid() && used != []
      ensures st.Ok? ==> Settles(src, maxPayload, old(Window()), used, Window(), restart)
      ensures st.Ok? && restart ==> acked <= |src| && Resumes(old(Metered()), Metered())
      ensures st.Ok? && !restart ==> Passes(old(Metered()), Metered())
      ensures !st.Ok? ==> Breaks(old(Metered()), Metered())
      ensures st.Ok? && (restart || acked < |src|) ==> Tracked()
      ensures st.Ok? && !restart ==> FreshlyMoved() && (acked >= |src| ==> Concluded(Ok))
      ensures !st.Ok? ==> Concluded(st)
    {
      restart, used := false, [];
      ghost var tx, m0 := Window(), Metered();
      AckedNone(tx, maxPayload, m0);
      hide *;
      while true
        invariant Valid() && acked <= |src| && Tracked() && Heard()
        invariant sent == old(sent) && cutAt == old(cutAt) && fills == old(fills)
        invariant Joined(old(history), used, history)
        invariant Window() == Acked(tx, used, maxPayload) && Window().next == tx.next
        invariant Holds(m0, Metered())
        decreases Metered().packets
      {
        var cancelled := Interfered();
        if cancelled {
          Interrupted(Aborted);
          HoldsBreaks(m0, Metered());
          st := Aborted;
          break;
        }
        ghost var before, mid, m := used, Window(), Metered();
        var d, e := TakeNext();
        used := used + [e];
        JoinedMore(old(history), before, e);
        WaitStep(src, maxPayload, tx, before, mid, e, d, Window());
        MeterStep(m0, m, e, d, Metered());
        if !d.Continue? {
          st := if d.Stop? then d.why else Ok;
          restart := d.Again?;
          break;
        }
      }
    }

    /** One round of a window: refill it, exactly as the model does, and wait. */
    method FillAndWait() returns (st: Status, restart: bool)
      requires Valid() && acked <= |src| && Tracked() && Heard()
      modifies this, file, flow
      ensures st.Ok? ==> Valid() && (restart ==> acked <= |src|)
      ensures Heard() && AllCut(src, maxPayload, sent, cutAt)
      ensures st.Ok? ==> sent == old(sent) + Fill(src, old(Window()), maxPayload).1
      ensures fills == old(fills) + 1 && |sent| <= |old(sent)| + flow.negotiated
      ensures st.Ok? && restart ==> Resumes(old(Metered()), Metered())
      ensures st.Ok? && !restart ==> Passes(old(Metered()), Metered())
      ensures !st.Ok? ==> Breaks(old(Metered()), Metered())
      ensures st.Ok? && (restart || acked < |src|) ==> Tracked()
      ensures st.Ok? && !restart ==> FreshlyMoved() && (acked >= |src| ==> Concluded(Ok))
      ensures !st.Ok? ==> Concluded(st)
    {
      hide Settles, Fill, Counted, AllCut, Packets, Watching, OnTrack, HeardOf, Ends, Resumes, Passes;
      restart := false;
      fills := fills + 1;
      st := FillWindow();
      if !st.Ok? {
        Interrupted(st);
        return;
      }
      inRetransmit := false;
      ghost var used := [];
      st, restart, used := WaitForWindowAck();
    }

    /** One window, refilled and awaited until it is acknowledged or the tries run out. */
    method SendWindow() returns (st: Status)
      requires Valid() && acked <= |src| && Tracked() && Heard()
      modifies this, file, flow
      ensures st.Ok? ==> Valid() && FreshlyMoved()
      ensures st.Ok? ==> if acked < |src| then Tracked() else Concluded(Ok)
      ensures !st.Ok? ==> Concluded(st)
      ensures Heard() && AllCut(src, maxPayload, sent, cutAt)
      ensures var m, m' := old(Metered()), Metered();
              && (st.Ok? ==> m'.packets < m.packets && m'.Spent() - m'.tries + 255 <= m.Spent())
              && m'.restarts <= m.Spent()
              && fills + m'.packets + m.restarts <= old(fills) + m.packets + m'.restarts + (if st.Ok? then 0 else 1)
      ensures fills >= old(fills) && Paced(|sent| - |old(sent)|, fills - old(fills), flow.negotiated)
    {
      assert Paced(0, 0, flow.negotiated) && Rounds(Metered(), Metered(), 0);
      ghost var m0, rounds, frames := Metered(), 0, |sent|;
      hide *;
      while true
        invariant Valid() && acked <= |src| && Tracked() && Heard()
        invariant Rounds(m0, Metered(), rounds) && fills == old(fills) + rounds
        invariant Paced(|sent| - frames, rounds, flow.negotiated)
        decreases Metered().packets, Metered().tries
      {
        ghost var n, m := |sent| - frames, Metered();
        var restart: bool;
        st, restart := FillAndWait();
        PacedOnce(n, rounds, flow.negotiated, |sent| - frames - n);
        RoundStep(m0, m, rounds, Metered());
        rounds := rounds + 1;
        if !st.Ok? || !restart { break; }
      }
    }

    /** Tries for a new window; a large resume earns more before its first answer. */
    function InitialTries(): (n: nat)
      reads this
      requires ackRetries <= 255
      ensures n <= 255
      ensures acked == start && grace == (start > 0) ==> n == FirstTries(ackRetries, start)
      ensures acked != start ==> n == LaterTries(ackRetries)
    {
      var n := if ackRetries != 0 then ackRetries else 1;
      var extra := if start / 0x1000_0000 > 6 then 6 else start / 0x1000_0000;
      if grace && acked == start then (n + extra) % 256 else n % 256
    }

    /**
      The whole data phase. It ends on every script, and how it ends is decided by what
      was heard: success exactly when an acknowledgement of the last byte came in,
      giving up exactly when the tries ran out, an error exactly on its packet. Every
      silent receive before that caused one restart. Everything put on the wire is a
      piece of the source cut where the sender stood; and a script with n packets
      causes at most 255(n + 1) timeout restarts and 256(n + 1) fills of at most one
      negotiated window each.
     */
    method SendFileData() returns (st: Status)
      requires Valid() && acked == start && restarts == 0 && fills == 0 && sent == []
      requires history == [] && script == all && grace == (start > 0)
      modifies this, file, flow
      ensures HeardOf(old(script), script, history, Silence)
      ensures Concluded(st)
      ensures st.Ok? ==> acked >= |src| && (old(acked) < |src| ==> Ack(acked) in old(script))
      ensures AllCut(src, maxPayload, sent, cutAt)
      ensures restarts <= 255 * (Packets(old(script)) + 1)
      ensures fills <= 256 * (Packets(old(script)) + 1)
      ensures Paced(|sent|, fills, flow.negotiated)
    {
      ghost var n := Packets(script);
      hide Counted, AllCut, Packets, Watching, OnTrack, HeardOf, Ends, FirstTries;
      NothingHeard(|src|, start, all, ackRetries);
      while acked < |src|
        invariant Valid() && Heard() && Packets(script) <= n
        invariant restarts <= 255 * (n - Packets(script))
        invariant fills + Packets(script) <= n + restarts
        invariant Paced(|sent|, fills, flow.negotiated)
        invariant history == [] ==> acked == start && grace == (start > 0) && restarts == 0
        invariant history != [] ==> FreshlyMoved() && (acked < |src| ==> Tracked())
        invariant acked >= |src| ==> Concluded(Ok)
        decreases Packets(script)
      {
        hide Paced, InitialTries;
        var cancelled := Interfered();
        if cancelled { return Aborted; }
        ghost var k := Counters(acked, restarts, tries, budget);
        MovedForward(|src|, start, history);
        tries := InitialTries();
        FreshWindow(|src|, start, ackRetries, history, k, tries);
        budget := tries;
        ghost var sent0, fills0 := |sent|, fills;
        st := SendWindow();
        PacedSum(sent0, fills0, |sent| - sent0, fills - fills0, flow.negotiated);
        if !st.Ok? { return; }
      }
      if old(acked) < |src| {
        SuccessHeard(|src|, start, ackRetries, all, script, history);
      }
      return Ok;
    }
  }
}
