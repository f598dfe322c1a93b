/** The pool of detectors with the detectors' own state machine in it: what a
    beep event says about the samples. */
module AvmdEndToEnd {
  import opened AvmdLayout
  import opened AvmdPool
  import opened AvmdPoolInvariant
  import opened AvmdStreak

  /** The session's settings as detector `d` applies them. */
  function SettingsOf(c: Settings, d: Detector): Settings
  {
    c.(resolution := d.slot.resolution)
  }

  /** The action is detector i evaluating a sample. */
  predicate Evaluates(s: Pool, a: Action, i: nat)
  {
    && a.DetectorStep? && a.who == i && i < |s.dets| && s.dets[i].slot.resolution > 0
    && s.dets[i].pc.Sampling? && s.dets[i].pc.next <= s.dets[i].pc.limit && Mine(s.dets[i].slot, s.dets[i].pc.next)
  }

  /** The samples detector i evaluated in the first n actions; `feed` has the
      sample of each action. */
  function Evaluated(trace: seq<Pool>, actions: seq<Action>, feed: seq<Sample>, i: nat, n: nat): seq<Sample>
    requires n <= |actions| < |trace| && |feed| == |actions|
  {
    if n == 0 then []
    else
      Evaluated(trace, actions, feed, i, n - 1)
      + if Evaluates(trace[n - 1], actions[n - 1], i) then [feed[n - 1]] else []
  }

  /** Every evaluation comes out as avmd_process_sample does on the detector's
      samples so far; see StreakBuffer.ProcessSample. */
  ghost predicate Faithful(c: Settings, trace: seq<Pool>, actions: seq<Action>, feed: seq<Sample>)
  {
    && Run(trace, actions) && |feed| == |actions|
    && forall n :: 0 <= n < |actions| ==> OutcomeOk(c, trace, actions, feed, n)
  }

  predicate OutcomeOk(c: Settings, trace: seq<Pool>, actions: seq<Action>, feed: seq<Sample>, n: nat)
    requires n < |actions| < |trace| && |feed| == |actions|
  {
    var a := actions[n];
    a.DetectorStep? && Evaluates(trace[n], a, a.who) ==>
      a.outcome == Verdict(SettingsOf(c, trace[n].dets[a.who]), Evaluated(trace, actions, feed, a.who, n + 1))
  }

  /** A result is the verdict on the samples evaluated so far. */
  predicate Justified(c: Settings, d: Detector, h: seq<Sample>)
    requires d.slot.resolution > 0
  {
    && (d.result != Nothing ==> d.result == d.res)
    && (d.res != Nothing ==> h != [] && Verdict(SettingsOf(c, d), h) == d.res)
  }

  predicate JustifiedAt(c: Settings, s: Pool, i: nat, h: seq<Sample>)
  {
    i < |s.dets| ==> s.dets[i].slot.resolution > 0 && Justified(c, s.dets[i], h)
  }

  /** Steps of other threads, and the frame thread's, leave a detector's results. */
  lemma ResultsLeft(s: Pool, a: Action, i: nat)
    requires SlotsOk(s) && Enabled(s, a) && i < |s.dets| && !(a.DetectorStep? && a.who == i)
    ensures |Step(s, a).dets| == |s.dets|
    ensures var d, e := s.dets[i], Step(s, a).dets[i]; e.result == d.result && e.res == d.res && e.slot == d.slot
  {
    if a == FrameStep {
      FrameLeavesResults(s, i);
    }
  }

  lemma FrameLeavesResults(s: Pool, i: nat)
    requires FrameEnabled(s) && i < |s.dets|
    ensures |StepFrame(s).dets| == |s.dets|
    ensures var d, e := s.dets[i], StepFrame(s).dets[i]; e.result == d.result && e.res == d.res && e.slot == d.slot
  {
  }

  lemma SelfJustified(c: Settings, d: Detector, outcome: Mode, h: seq<Sample>, x: Sample)
    requires d.slot.resolution > 0 && Justified(c, d, h)
    requires d.pc.Sampling? ==> d.res == Nothing && d.result == Nothing
    requires d.pc.Sampling? && d.pc.next <= d.pc.limit && Mine(d.slot, d.pc.next) ==>
               outcome == Verdict(SettingsOf(c, d), h + [x])
    ensures var e := StepSelf(d, outcome);
      e.slot == d.slot &&
      Justified(c, e, if d.pc.Sampling? && d.pc.next <= d.pc.limit && Mine(d.slot, d.pc.next) then h + [x] else h)
  {
  }

  /** A detector still sampling has found nothing. */
  lemma SamplingFoundNothing(s: Pool, i: nat)
    requires Inv(s) && i < |s.dets|
    ensures s.dets[i].pc.Sampling? ==> s.dets[i].res == Nothing && s.dets[i].result == Nothing
  {
    assert DetectorOk(s, i);
  }

  lemma StepJustified(c: Settings, trace: seq<Pool>, actions: seq<Action>, feed: seq<Sample>, i: nat, n: nat)
    requires Faithful(c, trace, actions, feed) && n < |actions| && Inv(trace[n])
    requires JustifiedAt(c, trace[n], i, Evaluated(trace, actions, feed, i, n))
    ensures JustifiedAt(c, trace[n + 1], i, Evaluated(trace, actions, feed, i, n + 1))
  {
    var s, a, h := trace[n], actions[n], Evaluated(trace, actions, feed, i, n);
    assert StepBetween(s, a, trace[n + 1]);
    assert OutcomeOk(c, trace, actions, feed, n);
    SameDetectors(s, a);
    if i < |s.dets| {
      if a.DetectorStep? && a.who == i {
        SamplingFoundNothing(s, i);
        SelfJustified(c, s.dets[i], a.outcome, h, feed[n]);
        assert h + [] == h;
      } else {
        ResultsLeft(s, a, i);
        assert h + [] == h;
      }
    }
  }

  lemma SameDetectors(s: Pool, a: Action)
    requires SlotsOk(s) && Enabled(s, a)
    ensures |Step(s, a).dets| == |s.dets|
  {
  }

  lemma InitJustified(c: Settings, s: Pool, i: nat)
    requires Init(s)
    ensures JustifiedAt(c, s, i, [])
  {
    if i < |s.dets| {
      assert Launched(s.dets[i], s.plain, i);
    }
  }

  lemma NextJustified(c: Settings, trace: seq<Pool>, actions: seq<Action>, feed: seq<Sample>, i: nat, m: nat,
    s: Pool, h: seq<Sample>)
    requires Faithful(c, trace, actions, feed) && m < |actions| && Inv(trace[m])
    requires s == trace[m + 1] && h == Evaluated(trace, actions, feed, i, m + 1)
    requires JustifiedAt(c, trace[m], i, Evaluated(trace, actions, feed, i, m))
    ensures JustifiedAt(c, s, i, h)
  {
    StepJustified(c, trace, actions, feed, i, m);
  }

  lemma {:induction false} AllJustified(c: Settings, trace: seq<Pool>, actions: seq<Action>, feed: seq<Sample>,
    i: nat, n: nat, s: Pool, h: seq<Sample>)
    requires Faithful(c, trace, actions, feed) && Init(trace[0]) && n <= |actions|
    requires s == trace[n] && h == Evaluated(trace, actions, feed, i, n)
    ensures JustifiedAt(c, s, i, h)
  {
    if n == 0 {
      InitJustified(c, s, i);
    } else {
      var m := n - 1;
      AllJustified(c, trace, actions, feed, i, m, trace[m], Evaluated(trace, actions, feed, i, m));
      Reachable(trace, actions, m);
      NextJustified(c, trace, actions, feed, i, m, s, h);
    }
  }

  /** The detector a beep event names had a verdict on exactly the samples it had
      evaluated, and evaluated none after it. */
  lemma BeepHasVerdict(c: Settings, trace: seq<Pool>, actions: seq<Action>, feed: seq<Sample>, m: nat) returns (j: nat)
    requires Faithful(c, trace, actions, feed) && Init(trace[0]) && m <= |actions| && trace[m].beep
    ensures trace[m].events == [j] && j < |trace[m].dets| && trace[m].dets[j].slot.resolution > 0
    ensures var h := Evaluated(trace, actions, feed, j, m);
      h != [] && Verdict(SettingsOf(c, trace[m].dets[j]), h) == trace[m].dets[j].result != Nothing
  {
    Reachable(trace, actions, m);
    FirstResultFrom(trace[m].dets, 0);
    j := FirstResult(trace[m].dets, 0);
    AllJustified(c, trace, actions, feed, j, m, trace[m], Evaluated(trace, actions, feed, j, m));
  }

  /** End to end, under every interleaving: with continuous streaks required, a
      beep event means that the last max(n + 1, beep length) samples its detector
      evaluated were all valid -- and in both-mode the last amplitudes too.  In
      amplitude-only mode only a detector of a resolution above the beep length
      can have sent it. */
  lemma BeepMeansCleanSamples(c: Settings, trace: seq<Pool>, actions: seq<Action>, feed: seq<Sample>, m: nat)
    returns (j: nat)
    requires Faithful(c, trace, actions, feed) && Init(trace[0]) && m <= |actions| && trace[m].beep
    ensures trace[m].events == [j] && j < |trace[m].dets| && trace[m].dets[j].slot.resolution > 0
    ensures var h, cj := Evaluated(trace, actions, feed, j, m), SettingsOf(c, trace[m].dets[j]);
      && c.toSkip == 0 && c.mode != Nothing
      && (c.mode != Amp && c.continuous ==> Clean(OmegaStream, h, Max(c.n + 1, BeepSamples(cj))))
      && (c.mode == Both && c.continuous && c.continuousAmp ==> Clean(AmpStream, h, c.nAmp + 1))
      && (c.mode == Amp ==> cj.resolution > c.rate / 500)
  {
    j := BeepHasVerdict(c, trace, actions, feed, m);
    var h, cj := Evaluated(trace, actions, feed, j, m), SettingsOf(c, trace[m].dets[j]);
    VerdictMeans(cj, h);
  }

  lemma VerdictMeans(c: Settings, h: seq<Sample>)
    requires c.resolution > 0 && h != [] && Verdict(c, h) != Nothing
    ensures c.toSkip == 0 && c.mode != Nothing
    ensures c.mode != Amp && c.continuous ==> Clean(OmegaStream, h, Max(c.n + 1, BeepSamples(c)))
    ensures c.mode == Both && c.continuous && c.continuousAmp ==> Clean(AmpStream, h, c.nAmp + 1)
    ensures c.mode == Amp ==> c.resolution > c.rate / 500
  {
    EnoughIs(c, h);
    if c.mode == Amp {
      AmpModeDetectsIff(c);
    }
  }
}
