/** What the detector pool guarantees in every state it can reach. */
module AvmdPoolSafety {
  import opened AvmdLayout
  import opened AvmdPool
  import opened AvmdPoolInvariant

  /** Some run of a launched session ends in `s`. */
  ghost predicate Reached(s: Pool)
  {
    exists trace, actions :: Run(trace, actions) && Init(trace[0]) && trace[|actions|] == s
  }

  lemma ReachedInv(s: Pool)
    requires Reached(s)
    ensures Inv(s)
  {
    var trace, actions :| Run(trace, actions) && Init(trace[0]) && trace[|actions|] == s;
    Reachable(trace, actions, |actions|);
  }

  lemma ReachedStep(s: Pool, a: Action)
    requires Reached(s) && SlotsOk(s) && Enabled(s, a)
    ensures Reached(Step(s, a))
  {
    var trace, actions :| Run(trace, actions) && Init(trace[0]) && trace[|actions|] == s;
    var longer, more := trace + [Step(s, a)], actions + [a];
    forall k | 0 <= k < |more| ensures StepBetween(longer[k], more[k], longer[k + 1]) {
      if k < |actions| {
        assert StepBetween(trace[k], actions[k], trace[k + 1]);
      }
    }
    assert Run(longer, more) && longer[|more|] == Step(s, a);
  }

  lemma InitReached(s: Pool)
    requires Init(s)
    ensures Reached(s)
  {
    var trace, actions: seq<Action> := [s], [];
    assert Run(trace, actions) && trace[|actions|] == s;
  }

  // ------------------------------------------------------------------------
  // Waiting

  /** A session with one detector between two calls. */
  function One(d: Detector, f: FramePc, o: DonesOwner, samples: nat): Pool
  {
    Pool(1, [d], f, o, false, [], 0, 0, samples)
  }

  const FRESH := Detector(Slot(1, 0), false, 0, true, false, Nothing, 0, Free, LockStart, Nothing, {})

  lemma OneStep(d: Detector, f: FramePc, o: DonesOwner, e: Detector, g: FramePc, p: DonesOwner, samples: nat)
    requires Reached(One(d, f, o, samples)) && d.slot.resolution > 0 && FrameEnabled(One(d, f, o, samples))
    requires StepFrame(One(d, f, o, samples)) == One(e, g, p, samples)
    ensures Reached(One(e, g, p, samples))
  {
    ReachedStep(One(d, f, o, samples), FrameStep);
  }

  lemma OneIsLaunched()
    ensures Launched(FRESH, 1, 0)
  {
    assert Below(1) == 0;
  }

  lemma OneIsInitial(s: Pool, d: Detector)
    requires Launched(d, 1, 0) && s == One(d, Idle, NoOne, 0)
    ensures Init(s)
  {
  }

  lemma LaunchedIsReached(d: Detector)
    requires Launched(d, 1, 0)
    ensures Reached(One(d, Idle, NoOne, 0))
  {
    OneIsInitial(One(d, Idle, NoOne, 0), d);
    InitReached(One(d, Idle, NoOne, 0));
  }

  lemma OneIsReached()
    ensures Reached(One(FRESH, Idle, NoOne, 0))
  {
    OneIsLaunched();
    LaunchedIsReached(FRESH);
  }

  lemma FrameArrives(samples: nat)
    requires samples < UINT32
    ensures Reached(One(FRESH, LockDones(Entry), NoOne, samples))
  {
    OneIsReached();
    ReachedStep(One(FRESH, Idle, NoOne, 0), ProcessCall(samples));
  }

  lemma FrameIsInserted(samples: nat)
    requires samples < UINT32
    ensures Reached(One(FRESH, Insert, NoOne, samples))
  {
    FrameArrives(samples);
    var locked := FRESH.(mutex := ByFrame);
    OneStep(FRESH, LockDones(Entry), NoOne, FRESH, ScanLock(Entry, 0), FrameThread, samples);
    OneStep(FRESH, ScanLock(Entry, 0), FrameThread, locked, ScanRead(Entry, 0), FrameThread, samples);
    OneStep(locked, ScanRead(Entry, 0), FrameThread, FRESH, ScanLock(Entry, 1), FrameThread, samples);
    OneStep(FRESH, ScanLock(Entry, 1), FrameThread, FRESH, Decide, NoOne, samples);
    OneStep(FRESH, Decide, NoOne, FRESH, Insert, NoOne, samples);
  }

  lemma RoundStarts(samples: nat) returns (told: Detector)
    requires samples < UINT32
    ensures told == FRESH.(processingDone := false, samples := RoundSamples(0, samples))
    ensures Reached(One(told, LockDones(Round), NoOne, samples))
  {
    FrameIsInserted(samples);
    var locked := FRESH.(mutex := ByFrame);
    told := FRESH.(processingDone := false, samples := RoundSamples(0, samples));
    OneStep(FRESH, Insert, NoOne, FRESH, DispatchLock(0), NoOne, samples);
    OneStep(FRESH, DispatchLock(0), NoOne, locked, DispatchSet(0), NoOne, samples);
    OneStep(locked, DispatchSet(0), NoOne, told, DispatchLock(1), NoOne, samples);
    OneStep(told, DispatchLock(1), NoOne, told, LockDones(Round), NoOne, samples);
  }

  /** The waiting states are reached: the frame thread may fall asleep in its
      first round. */
  lemma FrameThreadSleeps(samples: nat)
    requires samples < UINT32
    ensures exists s :: Reached(s) && s.frame == FrameAsleep(Round)
  {
    var told := RoundStarts(samples);
    var held := told.(mutex := ByFrame);
    OneStep(told, LockDones(Round), NoOne, told, ScanLock(Round, 0), FrameThread, samples);
    OneStep(told, ScanLock(Round, 0), FrameThread, held, ScanRead(Round, 0), FrameThread, samples);
    OneStep(held, ScanRead(Round, 0), FrameThread, told, BeginWait(Round), FrameThread, samples);
    OneStep(told, BeginWait(Round), FrameThread, told, FrameAsleep(Round), NoOne, samples);
  }

  /** While the frame thread sleeps on cond_detectors_done, some detector is
      still at work or has yet to send its signal. */
  lemma NoLostWakeup(s: Pool)
    requires Reached(s) && s.frame.FrameAsleep?
    ensures exists j :: 0 <= j < |s.dets| && StillDue(s.dets[j])
  {
    ReachedInv(s);
    assert SomeDue(s);
  }

  /** A detector asleep on its start condition has nothing to start on. */
  lemma SleeperHasNoWork(s: Pool, i: nat)
    requires Reached(s) && i < |s.dets| && s.dets[i].pc == Asleep
    ensures s.dets[i].processingDone && !s.dets[i].shouldExit
  {
    ReachedInv(s);
    assert DetectorOk(s, i);
  }

  /** Neither the wait before a frame is inserted nor the wait before the
      session is closed ever blocks: only a round is waited for. */
  lemma OnlyRoundsAreWaitedFor(s: Pool)
    requires Reached(s) && (s.frame.BeginWait? || s.frame.FrameAsleep?)
    ensures s.frame.phase == Round
  {
    ReachedInv(s);
  }

  ghost predicate ThreadCanRun(s: Pool)
  {
    FrameEnabled(s) || exists i :: 0 <= i < |s.dets| && DetectorEnabled(s, i)
  }

  /** A detector with work left can run, unless the frame thread owns its mutex
      or another detector is sending its signal. */
  lemma DueDetectorRuns(s: Pool, j: nat)
    requires Inv(s) && j < |s.dets| && s.dets[j].pc != Asleep && s.dets[j].pc != Exited
    requires !FrameOwns(s.frame, j) && !FrameOwnsDones(s.frame)
    ensures ThreadCanRun(s)
  {
    assert DetectorOk(s, j);
    if s.dets[j].pc == LockSignal && s.dones != NoOne {
      assert DetectorOk(s, s.dones.who);
      assert DetectorEnabled(s, s.dones.who);
    } else {
      assert DetectorEnabled(s, j);
    }
  }

  /** Between a call and its return some thread can always run: no deadlock,
      without relying on a spurious wake-up. */
  lemma NoDeadlock(s: Pool)
    requires Reached(s) && s.frame != Idle && s.frame != Closed
    ensures ThreadCanRun(s)
  {
    ReachedInv(s);
    InvNoDeadlock(s);
  }

  lemma InvNoDeadlock(s: Pool)
    requires Inv(s) && s.frame != Idle && s.frame != Closed
    ensures ThreadCanRun(s)
  {
    match s.frame {
      case LockDones(_) =>
        if s.dones != NoOne {
          assert DetectorOk(s, s.dones.who);
          assert DetectorEnabled(s, s.dones.who);
        }
      case ScanLock(_, i) => OwnerRuns(s, i);
      case DispatchLock(i) => OwnerRuns(s, i);
      case CloseLock(i) => OwnerRuns(s, i);
      case FrameAsleep(_) =>
        var j :| 0 <= j < |s.dets| && StillDue(s.dets[j]);
        assert DetectorOk(s, j);
        DueDetectorRuns(s, j);
      case Join(i) =>
        assert DetectorOk(s, i);
        if s.dets[i].pc != Exited {
          DueDetectorRuns(s, i);
        }
      case _ =>
    }
  }

  /** The mutex the frame thread wants is free or its owner can run. */
  lemma OwnerRuns(s: Pool, i: nat)
    requires Inv(s)
    requires s.frame in {ScanLock(Entry, i), ScanLock(Round, i), ScanLock(Closing, i), DispatchLock(i), CloseLock(i)}
    ensures ThreadCanRun(s)
  {
    if i < |s.dets| && s.dets[i].mutex != Free {
      assert DetectorOk(s, i);
      assert DetectorEnabled(s, i);
    }
  }

  // ------------------------------------------------------------------------
  // Exclusion on the shared frame buffer

  /** Only the frame thread takes a detector's done flag from 1 to 0. */
  lemma DoneFallsOnlyByFrame(s: Pool, a: Action, i: nat)
    requires SlotsOk(s) && Enabled(s, a) && i < |s.dets|
    requires s.dets[i].processingDone && !Step(s, a).dets[i].processingDone
    ensures a == FrameStep && (s.frame == DispatchSet(i) || s.frame == CloseSet(i))
  {
  }

  /** When a frame is inserted, no detector is inside its sample loop, nor
      anywhere else between its dispatch and its last write. */
  lemma InsertIsExclusive(s: Pool)
    requires Reached(s) && s.frame == Insert
    ensures forall i :: 0 <= i < |s.dets| ==> s.dets[i].processingDone && !s.dets[i].pc.Sampling?
  {
    ReachedInv(s);
    forall i | 0 <= i < |s.dets|
      ensures s.dets[i].processingDone && !s.dets[i].pc.Sampling?
    {
      assert DetectorOk(s, i);
    }
  }

  // ------------------------------------------------------------------------
  // Closing

  /** The frame thread is inside avmd_session_close or past it. */
  predicate ClosingNow(f: FramePc)
  {
    f.CloseLock? || f.CloseSet? || f.Join? || f.Closed?
    || ((f.LockDones? || f.ScanLock? || f.ScanRead? || f.BeginWait? || f.FrameAsleep?) && f.phase == Closing)
  }

  lemma ClosingDetectorStep(s: Pool, who: nat, outcome: Mode, i: nat)
    requires ClosingNow(s.frame) && SlotsOk(s) && FrameOk(s) && DetectorEnabled(s, who) && DetectorOk(s, who)
             && i < |s.dets|
    ensures ClosingNow(StepDetector(s, who, outcome).frame) && |StepDetector(s, who, outcome).dets| == |s.dets|
    ensures StepDetector(s, who, outcome).dets[i].evaluated == s.dets[i].evaluated
  {
  }

  lemma ClosingStep(s: Pool, a: Action)
    requires Inv(s) && ClosingNow(s.frame) && Enabled(s, a)
    ensures SlotsOk(s) && ClosingNow(Step(s, a).frame) && |Step(s, a).dets| == |s.dets|
    ensures forall i :: 0 <= i < |s.dets| ==> Step(s, a).dets[i].evaluated == s.dets[i].evaluated
  {
    SlotsAreOk(s);
    if a.DetectorStep? {
      assert DetectorOk(s, a.who);
      forall i | 0 <= i < |s.dets| ensures Step(s, a).dets[i].evaluated == s.dets[i].evaluated {
        ClosingDetectorStep(s, a.who, a.outcome, i);
      }
      ClosingDetectorStep(s, a.who, a.outcome, a.who);
    }
  }

  /** From the moment avmd_session_close starts no detector evaluates another
      sample, and once it returns every detector has left by the exit branch. */
  lemma {:induction false} CloseIsClean(trace: seq<Pool>, actions: seq<Action>, k: nat, m: nat)
    requires Run(trace, actions) && Init(trace[0]) && k <= m < |trace|
    requires ClosingNow(trace[k].frame)
    ensures ClosingNow(trace[m].frame) && |trace[m].dets| == |trace[k].dets|
    ensures forall i :: 0 <= i < |trace[k].dets| ==> trace[m].dets[i].evaluated == trace[k].dets[i].evaluated
    ensures trace[m].frame == Closed ==>
      forall i :: 0 <= i < |trace[m].dets| ==> trace[m].dets[i].pc == Exited && trace[m].dets[i].shouldExit
    decreases m - k
  {
    Reachable(trace, actions, m);
    forall i | 0 <= i < |trace[m].dets|
      ensures trace[m].frame == Closed ==> trace[m].dets[i].pc == Exited && trace[m].dets[i].shouldExit
    {
      assert DetectorOk(trace[m], i);
    }
    if k < m {
      CloseIsClean(trace, actions, k, m - 1);
      Reachable(trace, actions, m - 1);
      assert StepBetween(trace[m - 1], actions[m - 1], trace[m]);
      ClosingStep(trace[m - 1], actions[m - 1]);
    }
  }

  // ------------------------------------------------------------------------
  // Beeps

  ghost predicate SomeResult(s: Pool)
  {
    exists i :: 0 <= i < |s.dets| && s.dets[i].result != Nothing
  }

  /** Between two calls the session is in the detected state exactly when some
      detector has a result; then one event was sent, by the lowest such detector. */
  lemma BeepIffResult(s: Pool)
    requires Reached(s) && s.frame == Idle
    ensures s.beep <==> SomeResult(s)
    ensures !s.beep ==> s.events == []
    ensures s.beep ==> |s.events| == 1 && s.events[0] < |s.dets| && s.dets[s.events[0]].result != Nothing
    ensures s.beep ==> forall j :: 0 <= j < s.events[0] ==> s.dets[j].result == Nothing
  {
    ReachedInv(s);
    FirstResultFrom(s.dets, 0);
  }

  lemma BeepStays(s: Pool, a: Action)
    requires Inv(s) && s.beep && Enabled(s, a)
    ensures SlotsOk(s) && Step(s, a).beep && Step(s, a).events == s.events
  {
    SlotsAreOk(s);
    if a.DetectorStep? {
      assert DetectorOk(s, a.who);
    }
  }

  lemma BeepEndsRounds(s: Pool)
    requires Inv(s)
    ensures |s.events| <= 1 && (s.beep ==> s.frame != Insert && !InRound(s.frame))
  {
  }

  /** At most one beep event per session; after it no frame is inserted and no
      detector is dispatched. */
  lemma {:induction false} OneBeepPerSession(trace: seq<Pool>, actions: seq<Action>, k: nat, m: nat)
    requires Run(trace, actions) && Init(trace[0]) && k <= m < |trace|
    ensures |trace[m].events| <= 1
    ensures trace[k].beep ==> trace[m].beep && trace[m].events == trace[k].events
    ensures trace[k].beep ==> trace[m].frame != Insert && !InRound(trace[m].frame)
    decreases m - k
  {
    Reachable(trace, actions, m);
    BeepEndsRounds(trace[m]);
    if k < m && trace[k].beep {
      OneBeepPerSession(trace, actions, k, m - 1);
      Reachable(trace, actions, m - 1);
      BeepStaysBetween(trace[m - 1], actions[m - 1], trace[m]);
    }
  }

  lemma BeepStaysBetween(s: Pool, a: Action, s': Pool)
    requires Inv(s) && s.beep && StepBetween(s, a, s')
    ensures s'.beep && s'.events == s.events
  {
    BeepStays(s, a);
  }

  // ------------------------------------------------------------------------
  // What a round evaluates

  /** The last scan of a round has found every detector done. */
  predicate RoundOver(s: Pool)
  {
    s.frame == ScanLock(Round, |s.dets|)
  }

  function PlainSlots(s: Pool): seq<Slot>
    requires s.plain <= |s.dets|
  {
    seq(s.plain, i requires 0 <= i < s.plain => s.dets[i].slot)
  }

  /** In a round without a detection every plain detector evaluated its whole
      share of the frame, whatever the interleaving was. */
  lemma RoundShares(s: Pool)
    requires Reached(s) && RoundOver(s) && !SomeResult(s)
    ensures s.plain <= |s.dets| && Triangular(PlainSlots(s))
    ensures forall i :: 0 <= i < s.plain ==>
      s.dets[i].slot.resolution > 0
      && s.dets[i].evaluated == Share(s.dets[i].slot, RoundSamples(s.frameN, s.frameSamples))
  {
    ReachedInv(s);
    forall i | 0 <= i < s.plain
      ensures At(s.dets[i].slot, i)
      ensures s.dets[i].slot.resolution > 0
        && s.dets[i].evaluated == Share(s.dets[i].slot, RoundSamples(s.frameN, s.frameSamples))
    {
      assert DetectorOk(s, i);
    }
  }

  /** ... hence each sample of the round was evaluated by exactly one detector
      of every fully allocated resolution ... */
  lemma RoundCoversOnce(s: Pool, r: nat, k: nat) returns (i: nat)
    requires Reached(s) && RoundOver(s) && !SomeResult(s)
    requires FullyAllocated(r, s.plain) && 1 <= k <= RoundSamples(s.frameN, s.frameSamples)
    ensures i < s.plain <= |s.dets| && s.dets[i].slot.resolution == r && k in s.dets[i].evaluated
    ensures forall j :: 0 <= j < s.plain && s.dets[j].slot.resolution == r && k in s.dets[j].evaluated ==> j == i
  {
    RoundShares(s);
    var slots := PlainSlots(s);
    SampleCoveredOnce(slots, r, k);
    i := Below(r) + OffsetOf(r, k);
    assert slots[i] == s.dets[i].slot;
    forall j | 0 <= j < s.plain && s.dets[j].slot.resolution == r && k in s.dets[j].evaluated
      ensures j == i
    {
      assert slots[j] == s.dets[j].slot;
    }
  }

  /** Evaluations of the first `n` detectors in the current round. */
  function Evaluations(dets: seq<Detector>, n: nat): nat
    requires n <= |dets|
  {
    if n == 0 then 0 else Evaluations(dets, n - 1) + |dets[n - 1].evaluated|
  }

  lemma {:induction false} EvaluationsAreWork(s: Pool, n: nat, m: nat)
    requires s.plain <= |s.dets| && n <= s.plain
    requires forall i :: 0 <= i < s.plain ==>
      s.dets[i].slot.resolution > 0 && s.dets[i].evaluated == Share(s.dets[i].slot, m)
    ensures Evaluations(s.dets, n) == Work(PlainSlots(s)[..n], m)
  {
    if n > 0 {
      EvaluationsAreWork(s, n - 1, m);
      var slots := PlainSlots(s)[..n];
      assert slots[..n - 1] == PlainSlots(s)[..n - 1];
      assert slots[n - 1] == s.dets[n - 1].slot;
    }
  }

  /** ... and k(k+1)/2 plain detectors did exactly k evaluations per sample. */
  lemma RoundWork(s: Pool, k: nat)
    requires Reached(s) && RoundOver(s) && !SomeResult(s)
    requires s.plain == Below(k + 1)
    ensures s.plain <= |s.dets| && Evaluations(s.dets, s.plain) == k * RoundSamples(s.frameN, s.frameSamples)
  {
    RoundShares(s);
    var m := RoundSamples(s.frameN, s.frameSamples);
    EvaluationsAreWork(s, s.plain, m);
    assert PlainSlots(s)[..s.plain] == PlainSlots(s);
    TriangleWork(PlainSlots(s), k, m);
  }
}
