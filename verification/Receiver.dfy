/**
  The receiving side of the data phase as the object that runs it: the target file,
  the write position and the acknowledgement cadence, against any incoming traffic.
 */
module Receiver {
  import opened Crc32
  import opened DataPhase

  /** What one receive attempt can bring. */
  datatype Input =
    | Data(chunk: Chunk)
    | Done
    | Meta
    | ErrorPacket
    | Cancel
    | Other
    | Damaged
    | Silence
    | Broken

  predicate IsPacket(e: Input) {
    !e.Damaged? && !e.Silence? && !e.Broken?
  }

  predicate IsSilent(e: Input) { e.Damaged? || e.Silence? }

  /** The DATA frames of a history, in order. */
  function Chunks(es: seq<Input>): seq<Chunk> {
    if es == [] then []
    else Chunks(es[..|es| - 1]) + (if es[|es| - 1].Data? then [es[|es| - 1].chunk] else [])
  }

  // ---------- How a data loop ends ----------

  /** Silent or damaged receives since the last packet. */
  function SilentTail(es: seq<Input>): nat {
    if es == [] || !IsSilent(es[|es| - 1]) then 0 else 1 + SilentTail(es[..|es| - 1])
  }

  /** What a receive that follows `before` does to the loop; `None` lets it go on. */
  function Verdict(before: seq<Input>, e: Input, retries: nat): Option<Status> {
    match e
    case Data(_) => None
    case Other => None
    case Done => Some(Ok)
    case Meta => Some(Protocol)
    case ErrorPacket => Some(Protocol)
    case Cancel => Some(Aborted)
    case Broken => Some(LinkDown)
    case Damaged => if SilentTail(before) < retries then None else Some(BadCrc)
    case Silence => if SilentTail(before) < retries then None else Some(TimedOut)
  }

  /** Nothing in `es` ends the loop. */
  ghost predicate Undecided(es: seq<Input>, retries: nat) {
    forall i :: 0 <= i < |es| ==> Verdict(es[..i], es[i], retries).None?
  }

  /** The last input of `es` is the first one that ends the loop, and this is how. */
  ghost predicate Ends(es: seq<Input>, retries: nat, st: Status) {
    && es != [] && Undecided(es[..|es| - 1], retries)
    && Verdict(es[..|es| - 1], es[|es| - 1], retries) == Some(st)
  }

  lemma VerdictMore(es: seq<Input>, e: Input, retries: nat)
    requires Undecided(es, retries)
    ensures Verdict(es, e, retries).None? ==> Undecided(es + [e], retries)
    ensures Verdict(es, e, retries).None? ==> forall st :: !Ends(es + [e], retries, st)
    ensures Verdict(es, e, retries).Some? ==> Ends(es + [e], retries, Verdict(es, e, retries).value)
    ensures SilentTail(es + [e]) == if IsSilent(e) then 1 + SilentTail(es) else 0
    ensures Chunks(es + [e]) == Chunks(es) + (if e.Data? then [e.chunk] else [])
  {
    hide Verdict;
    var more := es + [e];
    assert more[..|es|] == es;
    forall i | 0 <= i < |es| ensures Verdict(more[..i], more[i], retries).None? {
      assert more[..i] == es[..i];
    }
  }

  /** One script can end in one way only: at its first deciding input. */
  lemma EndIsUnique(all: seq<Input>, es: seq<Input>, rest: seq<Input>, st: Status,
                    fs: seq<Input>, rest': seq<Input>, st': Status, retries: nat)
    requires HeardOf(all, rest, es, Silence) && Ends(es, retries, st)
    requires HeardOf(all, rest', fs, Silence) && Ends(fs, retries, st')
    ensures es == fs && st == st'
  {
    hide Verdict;
    EarlierGoesOn(all, es, rest, fs, rest', retries);
    EarlierGoesOn(all, fs, rest', es, rest, retries);
    assert |es| == |fs| ==> es == fs;
  }

  lemma EarlierGoesOn(all: seq<Input>, es: seq<Input>, rest: seq<Input>, fs: seq<Input>, rest': seq<Input>, retries: nat)
    requires HeardOf(all, rest, es, Silence) && HeardOf(all, rest', fs, Silence) && es != [] && fs != []
    requires Undecided(fs[..|fs| - 1], retries)
    ensures |es| < |fs| ==> Verdict(es[..|es| - 1], es[|es| - 1], retries).None?
  {
    hide Verdict;
    if |es| < |fs| {
      var n, init := |es| - 1, fs[..|fs| - 1];
      assert init[n] == es[n] && init[..n] == es[..n];
    }
  }

  /** A receive that brings no packet, with `tries` left. */
  lemma NoPacket(es: seq<Input>, e: Input, retries: nat, tries: nat)
    requires Undecided(es, retries) && SilentTail(es) + tries == retries
    ensures e.Broken? ==> Ends(es + [e], retries, LinkDown)
    ensures IsSilent(e) && tries == 0 ==> Ends(es + [e], retries, if e.Damaged? then BadCrc else TimedOut)
    ensures IsSilent(e) && tries > 0 ==> Undecided(es + [e], retries) && SilentTail(es + [e]) + tries - 1 == retries
    ensures !e.Data? ==> Chunks(es + [e]) == Chunks(es)
    ensures (es + [e])[..|es|] == es
  {
    VerdictMore(es, e, retries);
    assert Chunks(es) + [] == Chunks(es);
    hide Undecided, Ends, Chunks, SilentTail;
  }

  /** `replies` and the position reached are what feeding `cs` to the model gives. */
  ghost predicate Follows(before: Rx, cs: seq<Chunk>, after: Rx, replies: seq<Reply>) {
    Feed(before, cs) == (after, replies)
  }

  lemma FollowsOneMore(before: Rx, cs: seq<Chunk>, mid: Rx, out: seq<Reply>, c: Chunk)
    requires Follows(before, cs, mid, out)
    ensures Follows(before, cs + [c], OnData(mid, c).0, out + OnData(mid, c).1)
  {
    assert (cs + [c])[..|cs|] == cs;
  }

  /** One acknowledgement per DATA, never falling, the last at the position reached. */
  ghost predicate Answered(before: Rx, cs: seq<Chunk>, after: Rx, replies: seq<Reply>) {
    && before.file <= after.file
    && |after.file| - |before.file| == after.written - before.written >= 0
    && |Acks(replies)| == |cs| && NonDecreasing(Acks(replies))
    && (cs != [] ==> Acks(replies)[|cs| - 1] == after.written)
  }

  lemma FollowsMeans(before: Rx, cs: seq<Chunk>, after: Rx, replies: seq<Reply>)
    requires Follows(before, cs, after, replies)
    ensures Answered(before, cs, after, replies)
  {
    hide Feed, Acks;
    ReceiverAgainstAnything(before, cs);
  }

  class DataReceiver {
    const total: nat
    const dataRetries: nat
    const ackStride: nat := 1
    const calm: bool
    var written: nat
    var file: seq<Byte>
    var sinceAck: nat
    var script: seq<Input>
    var replies: seq<Reply>
    var doneAcks: seq<nat>
    ghost const all: seq<Input>
    ghost var history: seq<Input>

    ghost function Position(): Rx
      reads this
    {
      Rx(written, file)
    }

    /** What has been heard is the beginning of the script. */
    ghost predicate Heard()
      reads this
    {
      HeardOf(all, script, history, Silence)
    }

    /** How the loop ended: at the first deciding input, or by local trouble. */
    ghost predicate Concluded(st: Status)
      reads this
    {
      Ends(history, dataRetries, st) || (Local(st) && !calm)
    }

    /**
      Opens the target behind the bytes that are kept. In a calm session nobody
      cancels locally, and writes and sends do not fail.
     */
    constructor (kept: seq<Byte>, total: nat, dataRetries: nat, script: seq<Input>, calm: bool)
      ensures Position() == Rx(|kept|, kept) && sinceAck == 0 && replies == [] && doneAcks == [] && history == []
      ensures this.script == script && this.total == total && this.dataRetries == dataRetries && this.calm == calm
      ensures all == script && Heard()
    {
      this.total, this.dataRetries, this.script, this.calm, all := total, dataRetries, script, calm, script;
      written, file, sinceAck, replies, doneAcks, history := |kept|, kept, 0, [], [], [];
    }

    /** Local trouble: never in a calm session. */
    method Troubled() returns (yes: bool)
      ensures calm ==> !yes
    {
      yes := *;
      yes := yes && !calm;
    }

    /** A write may stop short; then the byte count tells. */
    method Append(bytes: seq<Byte>) returns (w: nat)
      modifies this`file
      ensures w <= |bytes| && file == old(file) + bytes[..w]
      ensures calm ==> w == |bytes|
    {
      var k: int := *;
      w := if 0 <= k < |bytes| && !calm then k else |bytes|;
      file := file + bytes[..w];
    }

    method Reply(r: Reply) returns (failed: bool)
      modifies this`replies
      ensures replies == old(replies) + [r]
      ensures calm ==> !failed
    {
      replies := replies + [r];
      failed := Troubled();
    }

    /** The stride and end-of-file rules together come to one acknowledgement per DATA. */
    method TakeData(c: Chunk) returns (st: Status)
      requires sinceAck == 0
      modifies this`written, this`file, this`sinceAck, this`replies
      ensures st.Ok? ==> sinceAck == 0
      ensures st.Ok? ==> Position() == OnData(old(Position()), c).0
      ensures st.Ok? ==> replies == old(replies) + OnData(old(Position()), c).1
      ensures old(file) <= file && old(written) <= written
      ensures !st.Ok? ==> Local(st) && !calm
    {
      var offset := if c.offset.None? then written else c.offset.value;
      var inOrder := offset == written;
      if inOrder {
        if c.bytes != [] {
          var w := Append(c.bytes);
          if w != |c.bytes| { return Io; }
        }
        var completes := written + |c.bytes| >= total;
        written := written + |c.bytes|;
        if completes {
          var failed := Reply(DataAck(written));
          if failed { return LinkDown; }
          sinceAck := 0;
          return Ok;
        }
      } else if offset < written {
        var _ := Reply(DataAck(written));
      } else {
        var _ := Reply(DataNak(written));
        var _ := Reply(DataAck(written));
      }
      var cancelled := Troubled();
      if cancelled { return Aborted; }
      if inOrder { sinceAck := sinceAck + 1; }
      if (inOrder && written >= total) || sinceAck >= ackStride {
        var failed := Reply(DataAck(written));
        if failed { return LinkDown; }
        sinceAck := 0;
      }
      return Ok;
    }

    method Next() returns (e: Input)
      modifies this`script, this`history
      ensures history == old(history) + [e]
      ensures old(script) == [] ==> e == Silence && script == []
      ensures old(script) != [] ==> e == old(script)[0] && script == old(script)[1..]
      ensures old(Heard()) ==> Heard()
    {
      HeardMore(all, script, history, Silence);
      hide HeardOf;
      if script == [] {
        e := Silence;
      } else {
        e, script := script[0], script[1..];
      }
      history := history + [e];
    }

    /** The next packet, within the configured number of silent or damaged receives in a row. */
    method ReceivePacket() returns (st: Status, e: Input)
      requires Heard() && Undecided(history, dataRetries) && SilentTail(history) == 0
      modifies this`script, this`history
      ensures Heard()
      ensures st.Ok? ==> IsPacket(e) && |script| < |old(script)|
      ensures st.Ok? ==> && history != [] && e == history[|history| - 1]
                         && Undecided(history[..|history| - 1], dataRetries)
                         && Chunks(history[..|history| - 1]) == Chunks(old(history))
      ensures !st.Ok? ==> Concluded(st) && Chunks(history) == Chunks(old(history))
    {
      var tries := dataRetries;
      while true
        invariant Heard() && Undecided(history, dataRetries) && SilentTail(history) + tries == dataRetries
        invariant Chunks(history) == Chunks(old(history)) && |script| <= |old(script)|
        decreases tries
      {
        hide HeardOf, Undecided, SilentTail, Chunks, Ends;
        e := Silence;
        var cancelled := Troubled();
        if cancelled { st := Aborted; break; }
        ghost var before := history;
        e := Next();
        NoPacket(before, e, dataRetries, tries);
        if IsPacket(e) { st := Ok; break; }
        if e.Broken? { st := LinkDown; break; }
        if tries == 0 { st := if e.Damaged? then BadCrc else TimedOut; break; }
        tries := tries - 1;
      }
    }

    /**
      The data loop up to DONE. It ends on every script, exactly at the first input
      that decides: success on DONE and only then, a protocol error on ERROR or new
      metadata, giving up after one silent receive more than allowed. Whatever the
      outcome, short of local trouble, file and replies are exactly what the model's
      `Feed` makes of the DATA heard: every DATA got exactly one acknowledgement, the
      offsets never fall, and the file grew by exactly what the last one says.
     */
    method ReceiveFile() returns (st: Status)
      requires sinceAck == 0 && replies == [] && history == [] && script == all
      modifies this
      ensures HeardOf(old(script), script, history, Silence)
      ensures Concluded(st)
      ensures old(file) <= file
      ensures Ends(history, dataRetries, st) ==>
                && Follows(old(Position()), Chunks(history), Position(), replies)
                && Answered(old(Position()), Chunks(history), Position(), replies)
      ensures doneAcks == old(doneAcks) + (if st.Ok? then [written] else [])
    {
      ghost var start := Position();
      NothingYet(start, dataRetries, all);
      hide Follows, Answered, Chunks, OnData, HeardOf, Undecided, SilentTail, Ends, Verdict;
      while true
        invariant sinceAck == 0 && old(file) <= file && Heard()
        invariant Undecided(history, dataRetries) && SilentTail(history) == 0
        invariant Follows(start, Chunks(history), Position(), replies)
        invariant doneAcks == old(doneAcks)
        decreases |script|
      {
        var e: Input;
        ghost var cs := Chunks(history);
        st, e := ReceivePacket();
        if !st.Ok? { break; }
        ghost var before := history[..|history| - 1];
        VerdictMore(before, e, dataRetries);
        assert history == before + [e];
        assert cs + [] == cs;
        PacketVerdict(before, e, dataRetries);
        if e.Data? {
          ghost var mid, out := Position(), replies;
          st := TakeData(e.chunk);
          if !st.Ok? {
            LocalConcludes(st);
            return;
          }
          FollowsOneMore(start, cs, mid, out, e.chunk);
        } else if e.Done? {
          var failed := Troubled();
          if failed {
            st := LinkDown;
            LocalConcludes(st);
          } else {
            doneAcks := doneAcks + [written];
          }
          break;
        } else if e.ErrorPacket? || e.Meta? {
          st := Protocol;
          break;
        } else if e.Cancel? {
          st := Aborted;
          break;
        }
      }
      FollowsMeans(start, Chunks(history), Position(), replies);
    }

    lemma LocalConcludes(st: Status)
      requires Local(st) && !calm
      ensures Concluded(st)
    {}
  }

  lemma NothingYet(start: Rx, retries: nat, all: seq<Input>)
    ensures Follows(start, Chunks([]), start, []) && Undecided([], retries) && SilentTail([]) == 0
    ensures HeardOf(all, all, [], Silence)
  {}

  lemma PacketVerdict(before: seq<Input>, e: Input, retries: nat)
    requires IsPacket(e)
    ensures Verdict(before, e, retries) ==
            if e.Data? || e.Other? then None
            else Some(if e.Done? then Ok else if e.Cancel? then Aborted else Protocol)
    ensures !IsSilent(e)
  {}
}
