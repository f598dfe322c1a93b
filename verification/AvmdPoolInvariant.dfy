/** The inductive invariant of the detector pool and its preservation by every
    step: any number of detectors, any interleaving, spurious wake-ups included. */
module AvmdPoolInvariant {
  import opened AvmdLayout
  import opened AvmdPool

  /** Detectors below this index have been told to exit. */
  function ExitBound(s: Pool): nat
  {
    match s.frame
    case CloseLock(i) => i
    case CloseSet(i) => i
    case Join(i) => i + 1
    case Closed => |s.dets|
    case _ => 0
  }

  /** Detectors below this index have been dispatched in the current round;
      0 outside a round. */
  function DispatchBound(s: Pool): nat
  {
    match s.frame
    case DispatchLock(i) => i
    case DispatchSet(i) => i
    case _ => if InRoundWait(s.frame) then |s.dets| else 0
  }

  /** The frame thread waits for the detectors it dispatched. */
  predicate InRoundWait(f: FramePc)
  {
    (f.LockDones? || f.ScanLock? || f.ScanRead? || f.BeginWait? || f.FrameAsleep?) && f.phase == Round
  }

  predicate InRound(f: FramePc)
  {
    InRoundWait(f) || f.DispatchLock? || f.DispatchSet?
  }

  /** The frame thread has joined this detector. */
  predicate Joined(s: Pool, i: nat)
  {
    match s.frame
    case CloseLock(c) => i < c
    case CloseSet(c) => i < c
    case Join(c) => i < c
    case Closed => true
    case _ => false
  }

  /** Nothing of the detector's round is left but publishing. */
  predicate ShareDone(d: Detector)
    requires d.slot.resolution > 0
  {
    d.evaluated == Share(d.slot, d.samples) || (d.lagged && d.evaluated == {})
  }

  predicate MutexOk(s: Pool, i: nat)
    requires i < |s.dets|
  {
    var d := s.dets[i];
    && (d.mutex == ByDetector <==> d.pc == Check || d.pc == Publish)
    && (d.mutex == ByFrame <==> FrameOwns(s.frame, i))
    && (s.dones == DetectorThread(i) <==> d.pc == Signal)
  }

  predicate FlagsOk(s: Pool, i: nat)
    requires i < |s.dets|
  {
    var d := s.dets[i];
    && (d.shouldExit <==> i < ExitBound(s))
    && (d.pc == Asleep ==> d.processingDone && !d.shouldExit)
    && (d.pc.Sampling? || d.pc == LockDone || d.pc == Publish ==> !d.processingDone && !d.shouldExit)
    && (d.pc == Exited ==> d.shouldExit && d.processingDone)
    && (Joined(s, i) ==> d.pc == Exited)
    && (!d.shouldExit && !d.processingDone ==> i < DispatchBound(s))
  }

  /** A detector's progress through its share of the round. */
  predicate ShareOk(d: Detector)
    requires d.slot.resolution > 0
  {
    && d.evaluated <= Share(d.slot, d.samples)
    && (match d.pc
        case Sampling(k, limit) =>
          limit == d.samples && 1 <= k <= limit + 1 && d.res == Nothing && d.evaluated == Share(d.slot, k - 1)
        case LockDone => d.res == Nothing ==> ShareDone(d)
        case Publish => d.res == Nothing ==> ShareDone(d)
        case _ => !d.processingDone ==> d.evaluated == {} && d.res == Nothing)
    && (if d.processingDone then d.result == d.res && (d.result == Nothing ==> ShareDone(d))
        else d.result == Nothing)
  }

  predicate DetectorOk(s: Pool, i: nat)
    requires i < |s.dets|
  {
    var d := s.dets[i];
    && d.slot.resolution > 0
    && (i < s.plain ==> At(d.slot, i))
    && d.lagged == (i >= s.plain)
    && MutexOk(s, i)
    && FlagsOk(s, i)
    && (!d.shouldExit ==> ShareOk(d))
    && SamplesOk(s, i)
  }

  /** A dispatched detector works on the samples of this round's frame. */
  predicate SamplesOk(s: Pool, i: nat)
    requires i < |s.dets|
  {
    i < DispatchBound(s) && s.dets[i].result == Nothing ==>
      s.dets[i].samples == RoundSamples(s.frameN, s.frameSamples)
  }

  /** Either still at work, or finished and not yet through with its signal. */
  predicate StillDue(d: Detector)
  {
    !d.processingDone || d.pc == LockSignal || d.pc == Signal
  }

  ghost predicate FrameOk(s: Pool)
  {
    && (s.dones == FrameThread <==> FrameOwnsDones(s.frame))
    && (s.dones.DetectorThread? ==> s.dones.who < |s.dets|)
    && (match s.frame
        case ScanLock(_, i) => i <= |s.dets| && DoneBelow(s, i)
        case ScanRead(_, i) => i < |s.dets| && DoneBelow(s, i)
        case BeginWait(ph) => ph == Round && SomeDue(s)
        case FrameAsleep(ph) => ph == Round && SomeDue(s)
        case DispatchLock(i) => i <= |s.dets|
        case DispatchSet(i) => i < |s.dets|
        case CloseLock(i) => i <= |s.dets|
        case CloseSet(i) => i < |s.dets|
        case Join(i) => i < |s.dets|
        case _ => true)
  }

  predicate DoneBelow(s: Pool, i: nat)
    requires i <= |s.dets|
  {
    forall j :: 0 <= j < i ==> s.dets[j].processingDone
  }

  ghost predicate SomeDue(s: Pool)
  {
    exists j :: 0 <= j < |s.dets| && StillDue(s.dets[j])
  }

  /** No detector that has not been dispatched in this round has a result
      before a beep; after it the single event names the lowest one. */
  predicate BeepOk(s: Pool)
  {
    && (s.beep ==> !InRound(s.frame) && s.frame != Insert
                   && FirstResult(s.dets, 0) < |s.dets| && s.events == [FirstResult(s.dets, 0)])
    && (!s.beep ==> s.events == []
                    && forall i :: DispatchBound(s) <= i < |s.dets| ==> s.dets[i].result == Nothing)
  }

  ghost predicate Inv(s: Pool)
  {
    && s.plain <= |s.dets| < 256
    && (forall i :: 0 <= i < |s.dets| ==> DetectorOk(s, i))
    && FrameOk(s)
    && BeepOk(s)
  }

  lemma FirstResultFrom(dets: seq<Detector>, i: nat)
    requires i <= |dets|
    ensures i <= FirstResult(dets, i) <= |dets|
    ensures forall j :: i <= j < FirstResult(dets, i) ==> dets[j].result == Nothing
    ensures FirstResult(dets, i) < |dets| ==> dets[FirstResult(dets, i)].result != Nothing
    decreases |dets| - i
  {
    if i < |dets| && dets[i].result == Nothing {
      FirstResultFrom(dets, i + 1);
    }
  }

  /** FirstResult looks at the results only. */
  lemma {:induction false} FirstResultSame(a: seq<Detector>, b: seq<Detector>, i: nat)
    requires |a| == |b| && forall j :: 0 <= j < |a| ==> a[j].result == b[j].result
    ensures FirstResult(a, i) == FirstResult(b, i)
    decreases |a| - i
  {
    if i < |a| && a[i].result == Nothing {
      FirstResultSame(a, b, i + 1);
    }
  }

  lemma InitHolds(s: Pool)
    requires Init(s)
    ensures Inv(s)
  {
    forall i | 0 <= i < |s.dets|
      ensures DetectorOk(s, i)
    {
      assert Launched(s.dets[i], s.plain, i);
      assert s.dets[i].evaluated == Share(s.dets[i].slot, 0);
    }
  }

  // ------------------------------------------------------------------------
  // Preservation

  lemma SlotsAreOk(s: Pool)
    requires Inv(s)
    ensures SlotsOk(s)
  {
    forall i | 0 <= i < |s.dets|
      ensures s.dets[i].slot.resolution > 0
    {
      assert DetectorOk(s, i);
    }
  }

  lemma FrameStepKeepsMutex(s: Pool, i: nat)
    requires i < |s.dets| < 256 && FrameOk(s) && MutexOk(s, i) && FrameEnabled(s)
    ensures MutexOk(StepFrame(s), i)
  {
  }

  lemma FrameStepKeepsFlags(s: Pool, i: nat)
    requires i < |s.dets| < 256 && FrameOk(s) && MutexOk(s, i) && FlagsOk(s, i) && FrameEnabled(s)
    ensures FlagsOk(StepFrame(s), i)
  {
  }

  /** The frame thread touches a share only when it dispatches an idle detector. */
  lemma FrameStepKeepsShare(s: Pool, i: nat)
    requires Inv(s) && FrameEnabled(s) && i < |s.dets|
    ensures !StepFrame(s).dets[i].shouldExit ==> s.dets[i].slot.resolution > 0 && ShareOk(StepFrame(s).dets[i])
  {
    assert DetectorOk(s, i);
    if s.frame != DispatchSet(i) {
      assert StepFrame(s).dets[i].shouldExit || ShareOk(s.dets[i]);
    }
  }

  lemma FrameStepKeepsSlot(s: Pool, i: nat)
    requires Inv(s) && FrameEnabled(s) && i < |s.dets|
    ensures StepFrame(s).plain == s.plain && |StepFrame(s).dets| == |s.dets|
    ensures var d := StepFrame(s).dets[i];
      d.slot.resolution > 0 && (i < s.plain ==> At(d.slot, i)) && d.lagged == (i >= s.plain)
  {
    assert DetectorOk(s, i);
  }

  lemma FrameStepKeepsSamples(s: Pool, i: nat)
    requires Inv(s) && FrameEnabled(s) && i < |s.dets|
    ensures SamplesOk(StepFrame(s), i)
  {
    assert DetectorOk(s, i);
  }

  /** Every step of the frame thread keeps every detector's part of the invariant. */
  lemma FrameStepKeepsDetectors(s: Pool, i: nat)
    requires Inv(s) && FrameEnabled(s) && i < |s.dets|
    ensures DetectorOk(StepFrame(s), i)
  {
    assert DetectorOk(s, i);
    FrameStepKeepsMutex(s, i);
    FrameStepKeepsFlags(s, i);
    FrameStepKeepsShare(s, i);
    FrameStepKeepsSamples(s, i);
    FrameStepKeepsSlot(s, i);
  }

  lemma FrameStepKeepsFrame(s: Pool)
    requires Inv(s) && FrameEnabled(s)
    ensures FrameOk(StepFrame(s))
  {
    var s' := StepFrame(s);
    match s.frame {
      case ScanRead(_, i) => FoundDue(s);
      case BeginWait(_) => assert SomeDue(s');
      case _ =>
    }
  }

  /** The end of a round establishes the beep part for the idle frame thread. */
  lemma EndRoundBeep(s: Pool)
    requires !s.beep && s.events == []
    ensures BeepOk(EndRound(s))
  {
    FirstResultFrom(s.dets, 0);
  }

  lemma FrameStepKeepsBeep(s: Pool)
    requires |s.dets| < 256 && FrameOk(s) && BeepOk(s) && FrameEnabled(s)
    ensures BeepOk(StepFrame(s))
  {
    if s.frame.ScanLock? && s.frame.phase == Round && s.frame.i >= |s.dets| {
      EndRoundBeep(s);
    } else {
      FrameKeepsResults(s);
      FirstResultSame(s.dets, StepFrame(s).dets, 0);
    }
  }

  /** The frame thread never writes a result. */
  lemma FrameKeepsResults(s: Pool)
    requires FrameEnabled(s)
    ensures var s' := StepFrame(s);
      |s'.dets| == |s.dets| && forall j :: 0 <= j < |s.dets| ==> s'.dets[j].result == s.dets[j].result
  {
  }

  lemma FrameStepKeeps(s: Pool)
    requires Inv(s) && FrameEnabled(s)
    ensures Inv(StepFrame(s))
  {
    forall i | 0 <= i < |s.dets|
      ensures DetectorOk(StepFrame(s), i)
    {
      FrameStepKeepsDetectors(s, i);
    }
    FrameStepKeepsFrame(s);
    FrameStepKeepsBeep(s);
  }

  /** A scan finds a detector in progress only while a round is on. */
  lemma FoundDue(s: Pool)
    requires Inv(s) && s.frame.ScanRead?
    ensures !s.dets[s.frame.i].processingDone ==> s.frame.phase == Round && SomeDue(StepFrame(s))
  {
    var i := s.frame.i;
    assert DetectorOk(s, i);
    if !s.dets[i].processingDone {
      assert StillDue(StepFrame(s).dets[i]);
    }
  }

  /** What a detector's own step does to its share of the round. */
  lemma StepSelfShare(d: Detector, outcome: Mode)
    requires d.slot.resolution > 0 && !d.shouldExit && ShareOk(d)
    requires d.pc.Sampling? || d.pc == LockDone || d.pc == Publish ==> !d.processingDone
    ensures ShareOk(StepSelf(d, outcome))
  {
    if d.pc.Sampling? && d.pc.next <= d.pc.limit {
      ShareStep(d.slot, d.pc.next - 1);
    } else if d.pc == Check {
      assert Share(d.slot, 0) == {};
    }
  }

  lemma DetectorStepKeepsMutex(s: Pool, who: nat, outcome: Mode, i: nat)
    requires SlotsOk(s) && FrameOk(s) && DetectorEnabled(s, who)
    requires i < |s.dets| && MutexOk(s, i) && MutexOk(s, who)
    ensures MutexOk(StepDetector(s, who, outcome), i)
  {
    if i == who {
      OwnStepKeepsMutex(s, who, outcome);
    } else {
      OtherStepKeepsMutex(s, who, outcome, i);
    }
  }

  lemma OwnStepKeepsMutex(s: Pool, who: nat, outcome: Mode)
    requires SlotsOk(s) && DetectorEnabled(s, who) && MutexOk(s, who)
    ensures MutexOk(StepDetector(s, who, outcome), who)
  {
  }

  lemma OtherStepKeepsMutex(s: Pool, who: nat, outcome: Mode, i: nat)
    requires SlotsOk(s) && FrameOk(s) && DetectorEnabled(s, who) && i < |s.dets| && i != who
    requires MutexOk(s, i) && MutexOk(s, who)
    ensures MutexOk(StepDetector(s, who, outcome), i)
  {
  }

  /** Waking the frame thread leaves the bounds alone. */
  lemma WakingKeepsBounds(s: Pool, s': Pool, i: nat)
    requires |s'.dets| == |s.dets| && (s'.frame == s.frame || s'.frame == WokenFrame(s.frame))
    ensures ExitBound(s') == ExitBound(s) && DispatchBound(s') == DispatchBound(s)
    ensures Joined(s', i) == Joined(s, i)
  {
  }

  lemma DetectorStepKeepsFlags(s: Pool, who: nat, outcome: Mode, i: nat)
    requires SlotsOk(s) && DetectorEnabled(s, who)
    requires i < |s.dets| && FlagsOk(s, i)
    ensures FlagsOk(StepDetector(s, who, outcome), i)
  {
    WakingKeepsBounds(s, StepDetector(s, who, outcome), i);
  }

  lemma DetectorStepKeepsRest(s: Pool, who: nat, outcome: Mode, i: nat)
    requires SlotsOk(s) && DetectorEnabled(s, who) && i < |s.dets|
    requires SamplesOk(s, i) && FlagsOk(s, i) && (!s.dets[i].shouldExit ==> ShareOk(s.dets[i]))
    ensures var s' := StepDetector(s, who, outcome);
      && SamplesOk(s', i) && (!s'.dets[i].shouldExit ==> ShareOk(s'.dets[i]))
      && s'.dets[i].slot == s.dets[i].slot && s'.dets[i].lagged == s.dets[i].lagged
  {
    DetectorStepKeepsSamples(s, who, outcome, i);
    if i == who && !s.dets[i].shouldExit {
      StepSelfShare(s.dets[i], outcome);
    }
  }

  lemma DetectorStepKeepsSamples(s: Pool, who: nat, outcome: Mode, i: nat)
    requires SlotsOk(s) && DetectorEnabled(s, who) && i < |s.dets|
    requires SamplesOk(s, i) && FlagsOk(s, i) && (!s.dets[i].shouldExit ==> ShareOk(s.dets[i]))
    ensures SamplesOk(StepDetector(s, who, outcome), i)
  {
    WakingKeepsBounds(s, StepDetector(s, who, outcome), i);
  }

  lemma DetectorStepKeepsDetectors(s: Pool, who: nat, outcome: Mode, i: nat)
    requires Inv(s) && SlotsOk(s) && DetectorEnabled(s, who) && i < |s.dets|
    ensures DetectorOk(StepDetector(s, who, outcome), i)
  {
    assert DetectorOk(s, i);
    assert DetectorOk(s, who);
    var s' := StepDetector(s, who, outcome);
    DetectorStepKeepsMutex(s, who, outcome, i);
    DetectorStepKeepsFlags(s, who, outcome, i);
    WakingKeepsBounds(s, s', i);
    DetectorStepKeepsRest(s, who, outcome, i);
  }

  lemma DetectorStepKeepsFrame(s: Pool, who: nat, outcome: Mode)
    requires Inv(s) && SlotsOk(s) && DetectorEnabled(s, who)
    ensures FrameOk(StepDetector(s, who, outcome))
  {
    var s' := StepDetector(s, who, outcome);
    assert DetectorOk(s, who);
    if s'.frame.BeginWait? || s'.frame.FrameAsleep? {
      var j :| 0 <= j < |s.dets| && StillDue(s.dets[j]);
      assert StillDue(s'.dets[j]);
    }
  }

  lemma DetectorStepKeepsBeep(s: Pool, who: nat, outcome: Mode)
    requires BeepOk(s) && FrameOk(s) && SlotsOk(s) && DetectorEnabled(s, who) && DetectorOk(s, who)
    ensures BeepOk(StepDetector(s, who, outcome))
  {
    if s.dets[who].pc != Publish {
      FirstResultSame(s.dets, StepDetector(s, who, outcome).dets, 0);
    }
  }

  lemma DetectorStepKeeps(s: Pool, who: nat, outcome: Mode)
    requires Inv(s) && SlotsOk(s) && DetectorEnabled(s, who)
    ensures Inv(StepDetector(s, who, outcome))
  {
    forall i | 0 <= i < |s.dets|
      ensures DetectorOk(StepDetector(s, who, outcome), i)
    {
      DetectorStepKeepsDetectors(s, who, outcome, i);
    }
    DetectorStepKeepsFrame(s, who, outcome);
    assert DetectorOk(s, who);
    DetectorStepKeepsBeep(s, who, outcome);
  }

  lemma DozerKeepsDetectors(s: Pool, who: nat, i: nat)
    requires SlotsOk(s) && Enabled(s, DetectorSpurious(who)) && i < |s.dets|
    requires DetectorOk(s, i)
    ensures DetectorOk(Step(s, DetectorSpurious(who)), i)
  {
  }

  lemma DetectorSpuriousKeeps(s: Pool, who: nat)
    requires Inv(s) && SlotsOk(s) && Enabled(s, DetectorSpurious(who))
    ensures Inv(Step(s, DetectorSpurious(who)))
  {
    var s' := Step(s, DetectorSpurious(who));
    forall i | 0 <= i < |s'.dets|
      ensures DetectorOk(s', i)
    {
      DozerKeepsDetectors(s, who, i);
    }
    FirstResultSame(s.dets, s'.dets, 0);
    if SomeDue(s) {
      var j :| 0 <= j < |s.dets| && StillDue(s.dets[j]);
      assert StillDue(s'.dets[j]);
    }
  }

  /** Every step of every thread keeps the invariant. */
  lemma StepKeeps(s: Pool, a: Action)
    requires Inv(s) && Enabled(s, a)
    ensures SlotsOk(s) && Inv(Step(s, a))
  {
    SlotsAreOk(s);
    match a {
      case FrameStep => FrameStepKeeps(s);
      case DetectorStep(i, outcome) => DetectorStepKeeps(s, i, outcome);
      case DetectorSpurious(i) => DetectorSpuriousKeeps(s, i);
      case _ =>
        var s' := Step(s, a);
        forall i | 0 <= i < |s'.dets|
          ensures DetectorOk(s', i)
        {
          assert DetectorOk(s, i);
        }
    }
  }

  /** Every state of every run from a launched session satisfies the invariant. */
  lemma {:induction false} Reachable(trace: seq<Pool>, actions: seq<Action>, k: nat)
    requires Run(trace, actions) && Init(trace[0]) && k < |trace|
    ensures Inv(trace[k])
  {
    if k == 0 {
      InitHolds(trace[0]);
    } else {
      Reachable(trace, actions, k - 1);
      assert StepBetween(trace[k - 1], actions[k - 1], trace[k]);
      StepKeeps(trace[k - 1], actions[k - 1]);
    }
  }
}
