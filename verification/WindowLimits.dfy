/**
  Exactly which windows are safe on a lossy channel. Only the first DATA of a window
  carries its offset; when that one is lost, a follower that carries none is written
  at the wrong place, and the transfer can still finish and report success.
 */
module WindowLimits {
  import opened Crc32
  import opened DataPhase
  import opened LossyTransfer

  ghost predicate AllRunsIntact(t: Transfer)
    requires t.Valid()
  {
    forall run: seq<State>, steps: seq<Step>, n: nat ::
      IsRun(t, run, steps) && n < |run| ==> Intact(t, run[n])
  }

  ghost predicate Shaped(t: Transfer, size: nat, start: nat, maxPayload: nat, negotiated: nat) {
    t.Valid() && |t.src| == size && t.Start() == start && t.maxPayload == maxPayload && t.negotiated == negotiated
  }

  /** The sender has finished and the receiver has taken DONE. */
  predicate Completed(s: State) { s.done && !s.receiving }

  predicate Delivered(t: Transfer, s: State)
    requires t.Valid()
  {
    s.rx.file == t.base + t.src[t.Start()..]
  }

  /** No run ends in a completed transfer of something else. */
  ghost predicate CompletionsDeliver(t: Transfer)
    requires t.Valid()
  {
    forall run: seq<State>, steps: seq<Step> ::
      IsRun(t, run, steps) && Completed(run[|run| - 1]) ==> Delivered(t, run[|run| - 1])
  }

  /** The window is one packet, or what is left fits beside one explicit offset. */
  predicate SafeShape(size: nat, start: nat, maxPayload: nat, negotiated: nat) {
    negotiated == 1 || size - start <= maxPayload - 8
  }

  /**
    For every size, start offset, payload limit and negotiated window: all transfers
    of that shape stay intact in all runs, and likewise all completed ones have
    delivered their file, exactly when the shape is safe.
   */
  lemma SafeWindows(size: nat, start: nat, maxPayload: nat, negotiated: nat)
    requires start <= size && 8 < maxPayload <= MAX_CONTENT && negotiated >= 1
    ensures (forall t :: Shaped(t, size, start, maxPayload, negotiated) ==> AllRunsIntact(t))
       <==> SafeShape(size, start, maxPayload, negotiated)
    ensures (forall t :: Shaped(t, size, start, maxPayload, negotiated) ==> CompletionsDeliver(t))
       <==> SafeShape(size, start, maxPayload, negotiated)
  {
    if SafeShape(size, start, maxPayload, negotiated) {
      forall t | Shaped(t, size, start, maxPayload, negotiated) ensures AllRunsIntact(t) && CompletionsDeliver(t) {
        OneAtATimeIsIntact(t);
        OneAtATimeDelivers(t);
      }
    } else {
      var t := Tell(size, start, maxPayload, negotiated);
      FollowerLandsEarly(t);
      WrongCompletionExists(t);
      assert !AllRunsIntact(t) && !CompletionsDeliver(t);
    }
  }

  lemma OneAtATimeDelivers(t: Transfer)
    requires t.Valid() && OneAtATime(t)
    ensures CompletionsDeliver(t)
  {
    forall run: seq<State>, steps: seq<Step> | IsRun(t, run, steps) && Completed(run[|run| - 1])
      ensures Delivered(t, run[|run| - 1])
    {
      LossyRunsStayIntact(t, run, steps, |run| - 1);
    }
  }

  lemma OneAtATimeIsIntact(t: Transfer)
    requires t.Valid() && OneAtATime(t)
    ensures AllRunsIntact(t)
  {
    forall run: seq<State>, steps: seq<Step>, n: nat | IsRun(t, run, steps) && n < |run|
      ensures Intact(t, run[n])
    {
      LossyRunsStayIntact(t, run, steps, n);
    }
  }

  /** A source whose first cut is all zeros and whose remainder is all ones. */
  ghost function Tell(size: nat, start: nat, maxPayload: nat, negotiated: nat): (t: Transfer)
    requires start <= size && 8 < maxPayload <= MAX_CONTENT && negotiated >= 1
    ensures Shaped(t, size, start, maxPayload, negotiated)
  {
    Transfer(seq(size, i => if i < start + maxPayload - 8 then 0 else 1), seq(start, _ => 0), maxPayload, negotiated)
  }

  // ---------- A run in which the first DATA is never delivered ----------

  /** The first window of two: one explicit chunk, one follower without an offset. */
  lemma FirstWindowOfTwo(t: Transfer)
    requires t.Valid() && t.negotiated >= 2 && |t.src| - t.Start() > t.Cut()
    ensures var r, second := t.Start(), t.Start() + t.Cut();
            var end := Min(|t.src|, second + t.maxPayload);
            var s := InitState(t, 2);
            && second < end
            && s == State(Waiting(Tx(r, end, 2, 2)), Rx(r, t.base), true,
                          {Chunk(Some(r), t.src[r..second]), Chunk(None, t.src[second..end])}, {}, false, [])
  {
    var r := t.Start();
    var second := r + t.Cut();
    var end := Min(|t.src|, second + t.maxPayload);
    var tx0 := Tx(r, r, 0, 2);
    var tx1 := AfterSend(|t.src|, tx0, t.maxPayload);
    var tx2 := AfterSend(|t.src|, tx1, t.maxPayload);
    assert tx1 == Tx(r, second, 1, 2) && tx2 == Tx(r, end, 2, 2);
    assert Fill(t.src, tx2, t.maxPayload) == (tx2, []);
    var c1, c2 := NextChunk(t.src, tx0, t.maxPayload), NextChunk(t.src, tx1, t.maxPayload);
    assert [c2] + [] == [c2] && [c1] + [c2] == [c1, c2];
    assert Fill(t.src, tx1, t.maxPayload) == (tx2, [c2]);
    assert Fill(t.src, tx0, t.maxPayload) == (tx2, [c1, c2]);
    assert ToSet([c1, c2]) == {c1, c2};
  }

  ghost function Follower(t: Transfer): Chunk
    requires t.Valid() && |t.src| - t.Start() > t.Cut()
  {
    var second := t.Start() + t.Cut();
    Chunk(None, t.src[second..Min(|t.src|, second + t.maxPayload)])
  }

  lemma FollowerLandsEarly(t: Transfer)
    requires t.Valid() && t.negotiated >= 2 && |t.src| - t.Start() > t.Cut()
    requires t == Tell(|t.src|, t.Start(), t.maxPayload, t.negotiated)
    ensures exists run: seq<State>, steps: seq<Step>, n: nat ::
              IsRun(t, run, steps) && n < |run| && !Intact(t, run[n])
  {
    FirstWindowOfTwo(t);
    var r := t.Start();
    var s0 := InitState(t, 2);
    var step := Deliver(Follower(t));
    var s1 := Apply(t, s0, step);
    var run, steps := [s0, s1], [step];
    assert Init(t, s0);
    assert IsRun(t, run, steps);
    assert s1.rx.file[r] == 1;
    assert (t.base + t.src[r..s1.rx.written])[r] == t.src[r] == 0;
    assert !Intact(t, run[1]);
  }

  // ---------- From there to a completed transfer ----------

  /** One explicit cut from `a` is under way, and the receiver stands at `a`. */
  ghost predicate CutPending(t: Transfer, s: State, a: nat)
    requires t.Valid()
  {
    && a < |t.src| && s.receiving && s.rx.written == a
    && s.sender == Waiting(Tx(a, EndOf(t, a), 1, 1))
    && Chunk(Some(a), t.src[a..EndOf(t, a)]) in s.data
  }

  lemma FillOne(t: Transfer, a: nat)
    requires t.Valid() && a < |t.src|
    ensures Fill(t.src, Tx(a, a, 0, 1), t.maxPayload)
         == (Tx(a, EndOf(t, a), 1, 1), [Chunk(Some(a), t.src[a..EndOf(t, a)])])
  {
    FillSendsOne(Transfer(t.src, [], t.maxPayload, 1), Tx(a, a, 0, 1));
  }

  lemma RefillPends(t: Transfer, s: State, a: nat)
    requires t.Valid() && a < |t.src| && s.receiving && s.rx.written == a
    ensures CutPending(t, Refill(t, s, Tx(a, a, 0, 1)), a)
    ensures Refill(t, s, Tx(a, a, 0, 1)).rx == s.rx
  {
    FillOne(t, a);
    var c := Chunk(Some(a), t.src[a..EndOf(t, a)]);
    assert c in ToSet([c]);
    hide Fill;
  }

  /** The pending cut is delivered and acknowledged. */
  lemma CutTaken(t: Transfer, s: State, a: nat)
    requires t.Valid() && t.negotiated >= 1 && CutPending(t, s, a)
    ensures var e := EndOf(t, a);
            var d, r := Deliver(Chunk(Some(a), t.src[a..e])), Answer(DataAck(e), 1);
            && a < e <= |t.src| && Enabled(t, s, d) && Enabled(t, Apply(t, s, d), r)
            && var s' := Apply(t, Apply(t, s, d), r);
            && s'.rx == Rx(e, s.rx.file + t.src[a..e])
            && (if e < |t.src| then CutPending(t, s', e) else s'.done && s'.receiving)
  {
    var e := EndOf(t, a);
    var c := Chunk(Some(a), t.src[a..e]);
    var s1 := Apply(t, s, Deliver(c));
    assert OnData(s.rx, c).1 == [DataAck(e)];
    assert DataAck(e) in ToSet([DataAck(e)]) && DataAck(e) in s1.replies;
    WholeAck(s.sender.tx, t.maxPayload);
    if e < |t.src| {
      RefillPends(t, s1, e);
    }
    hide Fill, Refill;
  }

  lemma Longer(t: Transfer, run: seq<State>, steps: seq<Step>, step: Step)
    requires IsRun(t, run, steps) && Enabled(t, run[|run| - 1], step)
    ensures IsRun(t, run + [Apply(t, run[|run| - 1], step)], steps + [step])
  {
    hide Enabled, Apply, Init;
  }

  /** The run in which the pending cut is delivered and acknowledged. */
  lemma TakesCut(t: Transfer, run: seq<State>, steps: seq<Step>, a: nat)
      returns (run': seq<State>, steps': seq<Step>)
    requires IsRun(t, run, steps) && CutPending(t, run[|run| - 1], a)
    ensures IsRun(t, run', steps') && a < EndOf(t, a) <= |t.src|
    ensures var e, last := EndOf(t, a), run'[|run'| - 1];
            && last.rx.file == run[|run| - 1].rx.file + t.src[a..e]
            && (if e < |t.src| then CutPending(t, last, e) else last.done && last.receiving)
  {
    var s, e := run[|run| - 1], EndOf(t, a);
    CutTaken(t, s, a);
    hide CutPending, Apply, Enabled, EndOf, IsRun;
    var d, r := Deliver(Chunk(Some(a), t.src[a..e])), Answer(DataAck(e), 1);
    var s1 := Apply(t, s, d);
    Longer(t, run, steps, d);
    Longer(t, run + [s1], steps + [d], r);
    run', steps' := run + [s1] + [Apply(t, s1, r)], steps + [d] + [r];
  }

  /** Cut by cut, with nothing more lost, the transfer completes from any such state. */
  lemma {:induction false} Finishes(t: Transfer, run: seq<State>, steps: seq<Step>, a: nat)
      returns (run': seq<State>, steps': seq<Step>)
    requires IsRun(t, run, steps) && CutPending(t, run[|run| - 1], a)
    ensures IsRun(t, run', steps') && Completed(run'[|run'| - 1])
    ensures run'[|run'| - 1].rx.file == run[|run| - 1].rx.file + t.src[a..]
    decreases |t.src| - a
  {
    run', steps' := TakesCut(t, run, steps, a);
    var last, e := run'[|run'| - 1], EndOf(t, a);
    hide CutPending, Apply, Enabled, EndOf, Completed;
    assert t.src[a..] == t.src[a..e] + t.src[e..];
    if e < |t.src| {
      run', steps' := Finishes(t, run', steps', e);
    } else {
      Closes(t, last);
      Longer(t, run', steps', Close);
      run', steps' := run' + [Apply(t, last, Close)], steps' + [Close];
    }
  }

  lemma Closes(t: Transfer, s: State)
    requires t.Valid() && s.done && s.receiving
    ensures Enabled(t, s, Close) && Completed(Apply(t, s, Close)) && Apply(t, s, Close).rx == s.rx
  {}

  /** The first cut is lost, its follower written in its place, and the wait times out. */
  lemma LosesFirst(t: Transfer) returns (run: seq<State>, steps: seq<Step>)
    requires t.Valid() && t.negotiated >= 2 && |t.src| - t.Start() > t.Cut()
    ensures IsRun(t, run, steps)
    ensures var a, last := t.Start() + |Follower(t).bytes|, run[|run| - 1];
            CutPending(t, last, a) && last.rx.file == t.base + Follower(t).bytes
  {
    FirstWindowOfTwo(t);
    var f, s0 := Follower(t), InitState(t, 2);
    var a := t.Start() + |f.bytes|;
    var s1 := Apply(t, s0, Deliver(f));
    assert OnData(s0.rx, f).1 == [DataAck(a)] && DataAck(a) in ToSet([DataAck(a)]);
    var s2 := Apply(t, s1, Answer(DataAck(a), 1));
    assert s2.sender.Waiting? && s2.sender.tx.acked == a && s2.rx == s1.rx == Rx(a, t.base + f.bytes);
    RefillPends(t, s2, a);
    var s3 := Apply(t, s2, Timeout(1));
    run, steps := [s0, s1, s2, s3], [Deliver(f), Answer(DataAck(a), 1), Timeout(1)];
    assert Init(t, s0);
    hide InitState, Init, Refill, CutPending;
  }

  /**
    One lost frame, then no further loss: with a window of two or more and more than
    one cut to send, there is a run in which the sender finishes, the receiver takes
    DONE, and the target reads src[second..second+k] ++ src[start+k..], where the k
    bytes from `second` on are what the second packet carried.
   */
  lemma LostFrameCompletesWrong(t: Transfer) returns (run: seq<State>, steps: seq<Step>)
    requires t.Valid() && t.negotiated >= 2 && |t.src| - t.Start() > t.Cut()
    ensures IsRun(t, run, steps) && Completed(run[|run| - 1])
    ensures var start, second, k := t.Start(), t.Start() + t.Cut(), |Follower(t).bytes|;
            && 1 <= k <= t.maxPayload && second + k <= |t.src|
            && run[|run| - 1].rx.file == t.base + t.src[second..second + k] + t.src[start + k..]
            && (Delivered(t, run[|run| - 1]) <==> t.src[start..start + k] == t.src[second..second + k])
  {
    FollowerCut(t);
    hide IsRun, CutPending, Completed, Follower;
    var f := Follower(t).bytes;
    run, steps := LosesFirst(t);
    run, steps := Finishes(t, run, steps, t.Start() + |f|);
    Misplaced(t.base, t.src, t.Start(), f);
  }

  lemma FollowerCut(t: Transfer)
    requires t.Valid() && |t.src| - t.Start() > t.Cut()
    ensures var second, f := t.Start() + t.Cut(), Follower(t).bytes;
            1 <= |f| <= t.maxPayload && second + |f| <= |t.src| && f == t.src[second..second + |f|]
  {}

  lemma Misplaced(base: seq<Byte>, src: seq<Byte>, r: nat, f: seq<Byte>)
    requires |base| == r && r + |f| <= |src|
    ensures base + f + src[r + |f|..] == base + src[r..] <==> src[r..r + |f|] == f
  {
    var wrong, right := base + f + src[r + |f|..], base + src[r..];
    assert src[r..] == src[r..r + |f|] + src[r + |f|..];
    if wrong == right {
      assert wrong[r..r + |f|] == f;
      assert right[r..r + |f|] == src[r..r + |f|];
    }
  }

  lemma WrongCompletionExists(t: Transfer)
    requires t.Valid() && t.negotiated >= 2 && |t.src| - t.Start() > t.Cut()
    requires t == Tell(|t.src|, t.Start(), t.maxPayload, t.negotiated)
    ensures !CompletionsDeliver(t)
  {
    var run, steps := LostFrameCompletesWrong(t);
    var r, second, k := t.Start(), t.Start() + t.Cut(), |Follower(t).bytes|;
    assert t.src[r..r + k][0] == 0 && t.src[second..second + k][0] == 1;
  }
}
