/** Every call of avmd_process and avmd_session_close returns: a bound on the
    steps all threads together can take before it does, under every schedule. */
module AvmdPoolTermination {
  import opened AvmdLayout
  import opened AvmdPool
  import opened AvmdPoolInvariant
  import opened AvmdPoolSafety

  /** Steps a detector can still take on its own before it sleeps or exits. */
  function Left(d: Detector): nat
  {
    var active := !d.processingDone && !d.shouldExit;
    match d.pc
    case LockSignal => if active then d.samples + 11 else 4
    case Signal => if active then d.samples + 10 else 3
    case LockStart => if active then d.samples + 9 else 2
    case Check => if active then d.samples + 8 else 1
    case Sampling(k, limit) => if k <= limit + 1 then limit - k + 8 else 7
    case LockDone => 6
    case Publish => 5
    case Asleep => 0
    case Exited => 0
  }

  function TotalLeft(dets: seq<Detector>): nat
  {
    if dets == [] then 0 else TotalLeft(dets[..|dets| - 1]) + Left(dets[|dets| - 1])
  }

  lemma {:induction false} TotalLeftUpdate(dets: seq<Detector>, i: nat, d: Detector)
    requires i < |dets|
    ensures TotalLeft(dets[i := d]) == TotalLeft(dets) - Left(dets[i]) + Left(d)
  {
    var last := |dets| - 1;
    if i < last {
      TotalLeftUpdate(dets[..last], i, d);
      assert dets[i := d][..last] == dets[..last][i := d];
    } else {
      assert dets[i := d][..last] == dets[..last];
    }
  }

  /** n * c, by repeated addition. */
  function Times(n: nat, c: nat): nat
  {
    if n == 0 then 0 else Times(n - 1, c) + c
  }

  lemma {:induction false} TimesIsProduct(n: nat, c: nat)
    ensures Times(n, c) == n * c
  {
    if n > 0 {
      TimesIsProduct(n - 1, c);
      assert (n - 1) * c + c == n * c;
    }
  }

  lemma {:induction false} TimesAdds(a: nat, b: nat, c: nat)
    ensures Times(a + b, c) == Times(a, c) + Times(b, c)
  {
    if b > 0 {
      TimesAdds(a, b - 1, c);
    }
  }

  lemma Peel(n: nat, i: nat, c: nat)
    requires i < n
    ensures Times(n - i, c) == Times(n - (i + 1), c) + c
  {
  }

  /** What one step of one of `n` detectors is worth in frame steps: a signal
      makes the frame thread scan all of them again. */
  function Weight(n: nat): nat
  {
    2 * n + 8
  }

  /** Worth of dispatching one detector with `m` samples. */
  function DispatchCost(n: nat, m: nat): nat
  {
    Times(m + 11, Weight(n)) + 2
  }

  function CloseCost(n: nat): nat
  {
    4 * Weight(n) + 3
  }

  /** Cost of one uninterrupted scan from index `i`. */
  function ScanCost(n: nat, i: nat): nat
  {
    if i < n then 2 * (n - i) + 2 else 2
  }

  function DispatchRest(n: nat, m: nat, i: nat): nat
  {
    if i < n then Times(n - i, DispatchCost(n, m)) else 0
  }

  function CloseRest(n: nat, i: nat): nat
  {
    if i < n then Times(n - i, CloseCost(n)) else 0
  }

  /** What is due once the scan of a phase is over. */
  function AfterPhase(n: nat, m: nat, ph: Phase): nat
  {
    match ph
    case Entry => DispatchRest(n, m, 0) + Weight(n) + 3
    case Round => 0
    case Closing => CloseRest(n, 0) + 1
  }

  /** Steps the frame thread can still take, with what it adds to the detectors. */
  function FrameLeft(n: nat, m: nat, f: FramePc): nat
  {
    match f
    case Idle => 0
    case LockDones(ph) => AfterPhase(n, m, ph) + ScanCost(n, 0) + 1
    case ScanLock(ph, i) => AfterPhase(n, m, ph) + ScanCost(n, i)
    case ScanRead(ph, i) => AfterPhase(n, m, ph) + ScanCost(n, i) - 1
    case BeginWait(ph) => AfterPhase(n, m, ph) + 1
    case FrameAsleep(ph) => AfterPhase(n, m, ph)
    case Decide => DispatchRest(n, m, 0) + Weight(n) + 2
    case Insert => DispatchRest(n, m, 0) + Weight(n) + 1
    case DispatchLock(i) => DispatchRest(n, m, i) + Weight(n)
    case DispatchSet(i) => DispatchRest(n, m, i) + Weight(n) - 1
    case CloseLock(i) => CloseRest(n, i) + 1
    case CloseSet(i) => CloseRest(n, i)
    case Join(i) => CloseRest(n, i + 1) + 2
    case Closed => 0
  }

  function Rank(s: Pool): nat
  {
    Times(TotalLeft(s.dets), Weight(|s.dets|)) + FrameLeft(|s.dets|, RoundSamples(s.frameN, s.frameSamples), s.frame)
  }

  /** A step some thread takes of its own accord. */
  predicate Ordinary(a: Action)
  {
    a.FrameStep? || a.DetectorStep?
  }

  predicate Spurious(a: Action)
  {
    a.FrameSpurious? || a.DetectorSpurious?
  }

  /** A spurious wake-up costs at most this. */
  function SpuriousCost(n: nat): nat
  {
    2 * Weight(n)
  }

  // ------------------------------------------------------------------------

  lemma StepSelfDecreases(s: Pool, who: nat, outcome: Mode)
    requires Inv(s) && SlotsOk(s) && DetectorEnabled(s, who)
    ensures Left(StepSelf(s.dets[who], outcome)) < Left(s.dets[who])
  {
    assert DetectorOk(s, who);
  }

  /** Moving detector `who` on makes the sum at least one weight smaller. */
  lemma DetectorStepDecreases(s: Pool, who: nat, outcome: Mode)
    requires Inv(s) && SlotsOk(s) && DetectorEnabled(s, who)
    ensures Rank(StepDetector(s, who, outcome)) < Rank(s)
  {
    var s' := StepDetector(s, who, outcome);
    StepSelfDecreases(s, who, outcome);
    TotalLeftUpdate(s.dets, who, StepSelf(s.dets[who], outcome));
    var drop := TotalLeft(s.dets) - TotalLeft(s'.dets);
    TimesAdds(TotalLeft(s'.dets), drop, Weight(|s.dets|));
    assert Times(drop, Weight(|s.dets|)) >= Weight(|s.dets|);
    WakingCost(|s.dets|, RoundSamples(s.frameN, s.frameSamples), s.frame);
  }

  lemma WakingCost(n: nat, m: nat, f: FramePc)
    ensures FrameLeft(n, m, WokenFrame(f)) < FrameLeft(n, m, f) + Weight(n)
  {
  }

  lemma DispatchFrameLeft(n: nat, m: nat, i: nat)
    requires i < n < 256
    ensures FrameLeft(n, m, DispatchSet(i)) == FrameLeft(n, m, DispatchLock(Next8(i))) + Times(m + 11, Weight(n)) + 1
  {
    Peel(n, i, DispatchCost(n, m));
  }

  lemma DispatchDecreases(s: Pool)
    requires FrameOk(s) && |s.dets| < 256 && s.frame.DispatchSet?
    ensures Rank(StepFrame(s)) < Rank(s)
  {
    var m := RoundSamples(s.frameN, s.frameSamples);
    DispatchRaises(s.dets, s.frame.i, m);
    RankFalls(s, StepFrame(s), m + 11);
    DispatchFrameLeft(|s.dets|, m, s.frame.i);
  }

  lemma DispatchRaises(dets: seq<Detector>, i: nat, m: nat)
    requires i < |dets|
    ensures TotalLeft(dets[i := Dispatched(dets[i], m)]) <= TotalLeft(dets) + m + 11
  {
    TotalLeftUpdate(dets, i, Dispatched(dets[i], m));
    DispatchedLeft(dets[i], m);
  }

  /** The frame thread's part of the rank pays for what it adds to the detectors. */
  lemma RankFalls(s: Pool, e: Pool, rise: nat)
    requires |e.dets| == |s.dets| && e.frameN == s.frameN && e.frameSamples == s.frameSamples
    requires TotalLeft(e.dets) <= TotalLeft(s.dets) + rise
    ensures var n, m := |s.dets|, RoundSamples(s.frameN, s.frameSamples);
            FrameLeft(n, m, e.frame) + Times(rise, Weight(n)) < FrameLeft(n, m, s.frame) ==> Rank(e) < Rank(s)
  {
    RankRises(TotalLeft(s.dets), TotalLeft(e.dets), rise, Weight(|s.dets|));
  }

  lemma DispatchedLeft(d: Detector, m: nat)
    ensures Left(Dispatched(d, m)) <= Left(d) + m + 11
  {
  }

  lemma RankRises(a: nat, b: nat, rise: nat, w: nat)
    requires b <= a + rise
    ensures Times(b, w) <= Times(a, w) + Times(rise, w)
  {
    TimesAdds(a, rise, w);
    TimesAdds(b, a + rise - b, w);
  }

  lemma CloseDecreases(s: Pool)
    requires FrameOk(s) && |s.dets| < 256 && s.frame.CloseSet?
    ensures Rank(StepFrame(s)) < Rank(s)
  {
    ToldRaises(s.dets, s.frame.i);
    RankFalls(s, StepFrame(s), 4);
    TimesIsProduct(4, Weight(|s.dets|));
    Peel(|s.dets|, s.frame.i, CloseCost(|s.dets|));
  }

  lemma ToldRaises(dets: seq<Detector>, i: nat)
    requires i < |dets|
    ensures TotalLeft(dets[i := ToldToExit(dets[i])]) <= TotalLeft(dets) + 4
  {
    TotalLeftUpdate(dets, i, ToldToExit(dets[i]));
  }

  /** Taking or giving up a mutex leaves the detectors' rest alone. */
  lemma MutexStepLeft(s: Pool, i: nat, m: Owner)
    requires i < |s.dets|
    ensures TotalLeft(s.dets[i := s.dets[i].(mutex := m)]) == TotalLeft(s.dets)
  {
    TotalLeftUpdate(s.dets, i, s.dets[i].(mutex := m));
  }

  lemma ScanStepDecreases(s: Pool)
    requires FrameOk(s) && |s.dets| < 256 && FrameEnabled(s)
    requires s.frame.ScanLock? || s.frame.ScanRead?
    ensures Rank(StepFrame(s)) < Rank(s)
  {
    if s.frame.ScanLock? && s.frame.i >= |s.dets| {
      ScanEndDecreases(s);
    } else {
      MutexStepLeft(s, s.frame.i, if s.frame.ScanLock? then ByFrame else Free);
    }
  }

  lemma ScanEndDecreases(s: Pool)
    requires |s.dets| < 256 && FrameEnabled(s) && s.frame.ScanLock? && s.frame.i >= |s.dets|
    ensures Rank(StepFrame(s)) < Rank(s)
  {
  }

  lemma LockStepDecreases(s: Pool)
    requires FrameOk(s) && |s.dets| < 256 && FrameEnabled(s)
    requires s.frame.DispatchLock? || s.frame.CloseLock?
    ensures Rank(StepFrame(s)) < Rank(s)
  {
    if s.frame.i < |s.dets| {
      MutexStepLeft(s, s.frame.i, ByFrame);
      Peel(|s.dets|, s.frame.i, DispatchCost(|s.dets|, RoundSamples(s.frameN, s.frameSamples)));
      Peel(|s.dets|, s.frame.i, CloseCost(|s.dets|));
    }
  }

  lemma FrameStepDecreases(s: Pool)
    requires FrameOk(s) && |s.dets| < 256 && FrameEnabled(s)
    ensures Rank(StepFrame(s)) < Rank(s)
  {
    match s.frame {
      case DispatchSet(_) => DispatchDecreases(s);
      case CloseSet(_) => CloseDecreases(s);
      case ScanLock(_, _) => ScanStepDecreases(s);
      case ScanRead(_, _) => ScanStepDecreases(s);
      case DispatchLock(_) => LockStepDecreases(s);
      case CloseLock(_) => LockStepDecreases(s);
      case _ =>
    }
  }

  lemma DozerRaises(s: Pool, i: nat)
    requires i < |s.dets| && s.dets[i].pc == Asleep && s.dets[i].processingDone
    ensures Rank(WithDetector(s, i, s.dets[i].(pc := LockStart))) <= Rank(s) + SpuriousCost(|s.dets|)
  {
    var s' := WithDetector(s, i, s.dets[i].(pc := LockStart));
    TotalLeftUpdate(s.dets, i, s'.dets[i]);
    RankRises(TotalLeft(s.dets), TotalLeft(s'.dets), 2, Weight(|s.dets|));
    TimesIsProduct(2, Weight(|s.dets|));
  }

  lemma SpuriousRaises(s: Pool, a: Action)
    requires Inv(s) && SlotsOk(s) && Spurious(a) && Enabled(s, a)
    ensures Rank(Step(s, a)) <= Rank(s) + SpuriousCost(|s.dets|)
  {
    if a.DetectorSpurious? {
      assert DetectorOk(s, a.dozer);
      DozerRaises(s, a.dozer);
    } else {
      WakingCost(|s.dets|, RoundSamples(s.frameN, s.frameSamples), s.frame);
    }
  }

  /** One action between the call and the return of the frame thread. */
  lemma RankStep(s: Pool, a: Action)
    requires Inv(s) && Enabled(s, a) && (Ordinary(a) || Spurious(a))
    ensures SlotsOk(s) && |Step(s, a).dets| == |s.dets|
    ensures Ordinary(a) ==> Rank(Step(s, a)) < Rank(s)
    ensures Spurious(a) ==> Rank(Step(s, a)) <= Rank(s) + SpuriousCost(|s.dets|)
  {
    SlotsAreOk(s);
    match a {
      case FrameStep => FrameStepDecreases(s);
      case DetectorStep(i, outcome) => DetectorStepDecreases(s, i, outcome);
      case _ => SpuriousRaises(s, a);
    }
  }

  /** Among the first `n` actions, those that are (or are not) spurious. */
  function Count(actions: seq<Action>, n: nat, spurious: bool): nat
    requires n <= |actions|
  {
    if n == 0 then 0
    else Count(actions, n - 1, spurious) + (if Spurious(actions[n - 1]) == spurious then 1 else 0)
  }

  lemma LastStep(s: Pool, a: Action, s': Pool)
    requires Inv(s) && StepBetween(s, a, s') && (Ordinary(a) || Spurious(a))
    ensures Inv(s') && |s'.dets| == |s.dets|
    ensures Ordinary(a) ==> Rank(s') < Rank(s)
    ensures Spurious(a) ==> Rank(s') <= Rank(s) + SpuriousCost(|s.dets|)
  {
    StepKeeps(s, a);
    RankStep(s, a);
  }

  lemma CountStep(actions: seq<Action>, n: nat, cost: nat)
    requires 0 < n <= |actions|
    ensures var a := actions[n - 1];
      && Count(actions, n, false) == Count(actions, n - 1, false) + (if Spurious(a) then 0 else 1)
      && Times(Count(actions, n, true), cost) == Times(Count(actions, n - 1, true), cost)
           + (if Spurious(a) then cost else 0)
  {
  }

  predicate OnlySteps(actions: seq<Action>, n: nat)
  {
    forall k :: 0 <= k < n <= |actions| ==> Ordinary(actions[k]) || Spurious(actions[k])
  }

  lemma {:induction false} InvAlong(trace: seq<Pool>, actions: seq<Action>, n: nat)
    requires Run(trace, actions) && Inv(trace[0]) && n <= |actions| && OnlySteps(actions, n)
    ensures Inv(trace[n]) && |trace[n].dets| == |trace[0].dets|
  {
    if n > 0 {
      InvAlong(trace, actions, n - 1);
      assert StepBetween(trace[n - 1], actions[n - 1], trace[n]);
      LastStep(trace[n - 1], actions[n - 1], trace[n]);
    }
  }

  /** What action n - 1 does to the rank. */
  lemma RankAlong(trace: seq<Pool>, actions: seq<Action>, n: nat)
    requires Run(trace, actions) && Inv(trace[0]) && 0 < n <= |actions| && OnlySteps(actions, n)
    ensures if Spurious(actions[n - 1]) then Rank(trace[n]) <= Rank(trace[n - 1]) + SpuriousCost(|trace[0].dets|)
            else Rank(trace[n]) < Rank(trace[n - 1])
  {
    InvAlong(trace, actions, n - 1);
    assert StepBetween(trace[n - 1], actions[n - 1], trace[n]);
    LastStep(trace[n - 1], actions[n - 1], trace[n]);
  }

  /** Ranks along the first n actions: spurious wake-ups may cost, others bring it down. */
  predicate Moves(ranks: seq<nat>, actions: seq<Action>, n: nat, cost: nat)
  {
    && |ranks| == n + 1 && n <= |actions|
    && forall k :: 0 <= k < n ==> Move(ranks[k], actions[k], ranks[k + 1], cost)
  }

  predicate Move(from: nat, a: Action, to: nat, cost: nat)
  {
    if Spurious(a) then to <= from + cost else to < from
  }

  lemma {:induction false} MovesAreBounded(ranks: seq<nat>, actions: seq<Action>, n: nat, cost: nat)
    requires Moves(ranks, actions, n, cost)
    ensures Count(actions, n, false) + ranks[n] <= ranks[0] + Times(Count(actions, n, true), cost)
  {
    if n > 0 {
      MovesAreBounded(ranks[..n], actions, n - 1, cost);
      assert Move(ranks[n - 1], actions[n - 1], ranks[n], cost);
      CountStep(actions, n, cost);
    }
  }

  lemma MovesOn(ranks: seq<nat>, actions: seq<Action>, n: nat, cost: nat, r: nat)
    requires Moves(ranks, actions, n, cost) && n < |actions| && Move(ranks[n], actions[n], r, cost)
    ensures Moves(ranks + [r], actions, n + 1, cost)
  {
  }

  lemma {:induction false} RanksMove(trace: seq<Pool>, actions: seq<Action>, n: nat, cost: nat, r0: nat, r: nat)
      returns (ranks: seq<nat>)
    requires Run(trace, actions) && Inv(trace[0]) && n <= |actions| && OnlySteps(actions, n)
    requires cost == SpuriousCost(|trace[0].dets|) && r0 == Rank(trace[0]) && r == Rank(trace[n])
    ensures Moves(ranks, actions, n, cost) && ranks[0] == r0 && ranks[n] == r
  {
    if n == 0 {
      ranks := [r0];
    } else {
      var m := n - 1;
      var before := RanksMove(trace, actions, m, cost, r0, Rank(trace[m]));
      RankAlong(trace, actions, n);
      MovesOn(before, actions, m, cost, r);
      ranks := before + [r];
    }
  }

  /** However the threads are scheduled, the steps they take without a new call
      are bounded by the state they start in plus a charge for each spurious
      wake-up. */
  lemma StepsAreBounded(trace: seq<Pool>, actions: seq<Action>, n: nat)
    requires Run(trace, actions) && Inv(trace[0]) && n <= |actions| && OnlySteps(actions, n)
    ensures Count(actions, n, false) + Rank(trace[n])
            <= Rank(trace[0]) + Times(Count(actions, n, true), SpuriousCost(|trace[0].dets|))
  {
    var cost := SpuriousCost(|trace[0].dets|);
    var ranks := RanksMove(trace, actions, n, cost, Rank(trace[0]), Rank(trace[n]));
    MovesAreBounded(ranks, actions, n, cost);
  }

  /** A run without spurious wake-ups that can go no further has returned from
      its call: with the bound, every schedule of a call ends in a return. */
  lemma EveryCallReturns(trace: seq<Pool>, actions: seq<Action>)
    requires Run(trace, actions) && Reached(trace[0])
    requires forall k :: 0 <= k < |actions| ==> Ordinary(actions[k])
    ensures |actions| <= Rank(trace[0])
    ensures !ThreadCanRun(trace[|actions|]) ==> trace[|actions|].frame == Idle || trace[|actions|].frame == Closed
  {
    ReachedInv(trace[0]);
    OrdinaryCount(actions, |actions|);
    InvAlong(trace, actions, |actions|);
    StepsAreBounded(trace, actions, |actions|);
    if trace[|actions|].frame != Idle && trace[|actions|].frame != Closed {
      InvNoDeadlock(trace[|actions|]);
    }
  }

  lemma {:induction false} OrdinaryCount(actions: seq<Action>, n: nat)
    requires n <= |actions| && forall k :: 0 <= k < n ==> Ordinary(actions[k])
    ensures Count(actions, n, false) == n && Count(actions, n, true) == 0
  {
    if n > 0 {
      OrdinaryCount(actions, n - 1);
    }
  }
}
