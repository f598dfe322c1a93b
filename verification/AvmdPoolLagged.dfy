/** The lagged detectors: which rounds they sit out. */
module AvmdPoolLagged {
  import opened AvmdLayout
  import opened AvmdPool
  import opened AvmdPoolInvariant
  import opened AvmdPoolSafety

  /** Rounds that lagged detector i sits out: its place among the lagged, from 1. */
  function SitsOut(s: Pool, i: nat): nat
    requires s.plain <= i
  {
    i - s.plain + 1
  }

  /** Told to start, and not yet past the test of its lag. */
  predicate Pending(d: Detector)
  {
    !d.processingDone && (d.pc == LockSignal || d.pc == Signal || d.pc == LockStart || d.pc == Check)
  }

  /** How often detector i has been dispatched. */
  function Dispatches(s: Pool, i: nat): nat
  {
    s.frameN + (if i < DispatchBound(s) then 1 else 0)
  }

  function Minus(a: nat, b: nat): nat
  {
    if a > b then a - b else 0
  }

  /** The lag still to go, from the dispatches that were looked at. */
  predicate LagIs(s: Pool, i: nat)
    requires s.plain <= i < |s.dets|
  {
    var d := s.dets[i];
    && d.slot == Slot(1, 0) && d.lagged
    && (Pending(d) ==> i < DispatchBound(s))
    && d.lag == Minus(SitsOut(s, i), if Pending(d) then s.frameN else Dispatches(s, i))
  }

  /** What became of the current round. */
  predicate RoundIs(s: Pool, i: nat)
    requires s.plain <= i < |s.dets|
  {
    var d := s.dets[i];
    i < DispatchBound(s) ==>
      && (Pending(d) ==> d.evaluated == {})
      && (!Pending(d) && s.frameN < SitsOut(s, i) ==> d.evaluated == {} && !d.pc.Sampling? && d.pc != LockDone)
      && (!Pending(d) && s.frameN >= SitsOut(s, i) && !d.pc.Sampling? && d.res == Nothing ==>
           d.evaluated == Share(Slot(1, 0), d.samples))
  }

  predicate LaggedOk(s: Pool, i: nat)
  {
    s.plain <= i < |s.dets| && !s.dets[i].shouldExit ==> LagIs(s, i) && RoundIs(s, i)
  }

  lemma InitLagged(s: Pool, i: nat)
    requires Init(s)
    ensures LaggedOk(s, i)
  {
    if s.plain <= i < |s.dets| {
      assert Launched(s.dets[i], s.plain, i);
    }
  }

  // ------------------------------------------------------------------------
  // Steps of the detector itself

  lemma SelfKeepsLag(d: Detector, outcome: Mode)
    requires d.lagged && !d.shouldExit && d.slot == Slot(1, 0)
    requires d.pc.Sampling? || d.pc == LockDone || d.pc == Publish ==> !d.processingDone
    ensures var e := StepSelf(d, outcome);
      && e.slot == d.slot && e.lagged && (Pending(e) ==> Pending(d))
      && e.lag == if Pending(d) && !Pending(e) then Minus(d.lag, 1) else d.lag
  {
  }

  lemma SelfKeepsRound(d: Detector, outcome: Mode)
    requires d.lagged && !d.shouldExit && d.slot == Slot(1, 0) && ShareOk(d)
    requires d.pc.Sampling? || d.pc == LockDone || d.pc == Publish ==> !d.processingDone
    requires d.pc == Asleep ==> d.processingDone
    ensures var e := StepSelf(d, outcome);
      && e.samples == d.samples
      && (Pending(d) && d.evaluated == {} && d.lag > 0 ==> e.evaluated == {} && !e.pc.Sampling? && e.pc != LockDone)
      && (Pending(d) && d.lag == 0 && !Pending(e) ==> e.pc.Sampling?)
      && (Pending(d) ==> e.evaluated == d.evaluated)
      && (!Pending(d) && !d.pc.Sampling? ==> e.evaluated == d.evaluated && !e.pc.Sampling? && e.res == d.res
                                             && (d.pc != LockDone ==> e.pc != LockDone))
      && (d.pc.Sampling? && !e.pc.Sampling? && e.res == Nothing ==> e.evaluated == Share(d.slot, d.samples))
  {
  }

  lemma OwnStepKeepsLagged(s: Pool, i: nat, outcome: Mode)
    requires Inv(s) && SlotsOk(s) && DetectorEnabled(s, i) && s.plain <= i && LaggedOk(s, i)
    ensures LaggedOk(StepDetector(s, i, outcome), i)
  {
    var d, s' := s.dets[i], StepDetector(s, i, outcome);
    assert DetectorOk(s, i);
    WakingKeepsBounds(s, s', i);
    if !d.shouldExit {
      SelfKeepsLag(d, outcome);
      SelfKeepsRound(d, outcome);
    }
  }

  // ------------------------------------------------------------------------
  // Steps of the others

  /** The detector itself and its place in the round are as before. */
  lemma Untouched(s: Pool, s': Pool, i: nat)
    requires LaggedOk(s, i) && s'.plain == s.plain && |s'.dets| == |s.dets|
    requires i < |s.dets| ==> s'.dets[i].(mutex := Free) == s.dets[i].(mutex := Free)
    requires s'.frameN == s.frameN && (i < DispatchBound(s) <==> i < DispatchBound(s'))
    ensures LaggedOk(s', i)
  {
  }

  lemma DispatchKeepsLagged(s: Pool, i: nat)
    requires Inv(s) && s.frame == DispatchSet(i) && s.plain <= i < |s.dets| && LaggedOk(s, i)
    ensures LaggedOk(StepFrame(s), i)
  {
    assert DetectorOk(s, i);
    assert s.dets[i].result == Nothing;
  }

  lemma EndRoundKeepsLagged(s: Pool, i: nat)
    requires Inv(s) && s.plain <= i < |s.dets| && s.frame == ScanLock(Round, |s.dets|) && LaggedOk(s, i)
    ensures LaggedOk(StepFrame(s), i)
  {
    assert DetectorOk(s, i);
    assert s.dets[i].processingDone;
  }

  lemma FrameStepKeepsLagged(s: Pool, i: nat)
    requires Inv(s) && FrameEnabled(s) && s.plain <= i < |s.dets| && LaggedOk(s, i)
    ensures LaggedOk(StepFrame(s), i)
  {
    assert DetectorOk(s, i);
    if s.frame == DispatchSet(i) {
      DispatchKeepsLagged(s, i);
    } else if s.frame == ScanLock(Round, |s.dets|) {
      EndRoundKeepsLagged(s, i);
    } else if s.frame != CloseSet(i) {
      FrameLeavesDetector(s, i);
      Untouched(s, StepFrame(s), i);
    }
  }

  lemma FrameLeavesDetector(s: Pool, i: nat)
    requires |s.dets| < 256 && FrameOk(s) && FrameEnabled(s) && i < |s.dets|
    requires s.frame != DispatchSet(i) && s.frame != CloseSet(i) && s.frame != ScanLock(Round, |s.dets|)
    ensures var s' := StepFrame(s);
      && s'.plain == s.plain && |s'.dets| == |s.dets| && s'.frameN == s.frameN
      && s'.dets[i].(mutex := Free) == s.dets[i].(mutex := Free)
      && (i < DispatchBound(s) <==> i < DispatchBound(s'))
  {
  }

  lemma OtherStepKeepsLagged(s: Pool, who: nat, outcome: Mode, i: nat)
    requires Inv(s) && SlotsOk(s) && DetectorEnabled(s, who) && who != i && LaggedOk(s, i)
    ensures LaggedOk(StepDetector(s, who, outcome), i)
  {
    var s' := StepDetector(s, who, outcome);
    WakingKeepsBounds(s, s', i);
    Untouched(s, s', i);
  }

  /** Spurious wake-ups and what the caller does. */
  lemma RestKeepsLagged(s: Pool, a: Action, i: nat)
    requires Inv(s) && SlotsOk(s) && Enabled(s, a) && s.plain <= i < |s.dets| && LaggedOk(s, i)
    requires !a.FrameStep? && !a.DetectorStep?
    ensures LaggedOk(Step(s, a), i)
  {
    assert DetectorOk(s, i);
    if a != DetectorSpurious(i) {
      Untouched(s, Step(s, a), i);
    }
  }

  lemma StepKeepsLagged(s: Pool, a: Action, i: nat)
    requires Inv(s) && SlotsOk(s) && Enabled(s, a) && s.plain <= i < |s.dets| && LaggedOk(s, i)
    ensures LaggedOk(Step(s, a), i)
  {
    match a {
      case FrameStep => FrameStepKeepsLagged(s, i);
      case DetectorStep(who, outcome) =>
        if who == i {
          OwnStepKeepsLagged(s, i, outcome);
        } else {
          OtherStepKeepsLagged(s, who, outcome, i);
        }
      case _ => RestKeepsLagged(s, a, i);
    }
  }

  lemma {:induction false} LaggedAlong(trace: seq<Pool>, actions: seq<Action>, k: nat, i: nat)
    requires Run(trace, actions) && Init(trace[0]) && k < |trace|
    ensures |trace[k].dets| == |trace[0].dets| && trace[k].plain == trace[0].plain && LaggedOk(trace[k], i)
  {
    if k == 0 {
      InitLagged(trace[0], i);
    } else {
      LaggedAlong(trace, actions, k - 1, i);
      Reachable(trace, actions, k - 1);
      LaggedBetween(trace[k - 1], actions[k - 1], trace[k], i);
    }
  }

  lemma LaggedBetween(s: Pool, a: Action, s': Pool, i: nat)
    requires Inv(s) && StepBetween(s, a, s') && LaggedOk(s, i)
    ensures |s'.dets| == |s.dets| && s'.plain == s.plain && LaggedOk(s', i)
  {
    if s.plain <= i < |s.dets| {
      StepKeepsLagged(s, a, i);
    }
  }

  // ------------------------------------------------------------------------
  // Main result

  /** At the end of a round without a detection, lagged detector j (from 0) has
      evaluated nothing if this is among the first j + 1 rounds, and all samples
      of the round otherwise. */
  lemma LaggedSitsOut(s: Pool, i: nat)
    requires Reached(s) && RoundOver(s) && !SomeResult(s) && s.plain <= i < |s.dets|
    ensures if s.frameN + 1 <= i - s.plain + 1 then s.dets[i].evaluated == {}
      else forall k: nat :: k in s.dets[i].evaluated <==> 1 <= k <= RoundSamples(s.frameN, s.frameSamples)
  {
    var trace, actions :| Run(trace, actions) && Init(trace[0]) && trace[|actions|] == s;
    LaggedAlong(trace, actions, |actions|, i);
    ReachedInv(s);
    assert DetectorOk(s, i);
    assert s.dets[i].processingDone && s.dets[i].result == Nothing;
    assert forall k: nat :: Mine(Slot(1, 0), k);
  }
}
