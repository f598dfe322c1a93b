/** The per-sample state machine of one beep detector: avmd_process_sample and
    the two avmd_decision functions of net-voip/freeswitch/files/mod_avmd.new.c.
    The signal processing enters as the class of its two outputs and as the
    outcome of the threshold tests. */
module AvmdStreak {

  import opened AvmdLayout

  datatype Omega = NotANumber | OutOfRange | InRange

  datatype Sample = Sample(
    omega: Omega,
    finiteAmp: bool,   // the amplitude is neither NaN nor infinite
    ampOk: bool,       // the amplitude tests of avmd_decision_amplitude would pass
    freqOk: bool)      // the frequency band and deviation tests of avmd_decision_freq would pass

  datatype Settings = Settings(
    mode: Mode,
    toSkip: nat,            // sample_n_to_skip
    continuous: bool,       // require_continuous_streak
    n: nat,                 // sample_n_continuous_streak
    continuousAmp: bool,
    nAmp: nat,
    rate: nat,
    resolution: nat)

  /** AVMD_BEEP_LEN(rate) / resolution, in the source's integer arithmetic. */
  function BeepSamples(c: Settings): nat
    requires c.resolution > 0
  {
    (c.rate / (1000 / 2)) / c.resolution
  }

  // ------------------------------------------------------------------------
  // What the counters mean, in terms of the samples seen so far

  /** The two streams of values a sample contributes to. */
  datatype Stream = OmegaStream | AmpStream

  /** The sample is valid as an omega, or as an amplitude. */
  predicate Good(p: Stream, x: Sample)
  {
    if p == OmegaStream then x.omega == InRange else x.finiteAmp
  }

  /** Length of the run of samples valid for `p` that ends the history. */
  function TrailingRun(h: seq<Sample>, p: Stream): nat
  {
    if h == [] || !Good(p, h[|h| - 1]) then 0 else TrailingRun(h[..|h| - 1], p) + 1
  }

  /** How many samples of the history are valid for `p`. */
  function Total(h: seq<Sample>, p: Stream): nat
  {
    if h == [] then 0 else Total(h[..|h| - 1], p) + (if Good(p, h[|h| - 1]) then 1 else 0)
  }

  predicate Watches(c: Settings, m: Mode)
  {
    c.toSkip == 0 && (c.mode == m || c.mode == Both)
  }

  /** Length of the frequency average: the valid samples since the last reset. */
  function FreqLen(c: Settings, h: seq<Sample>): nat
  {
    if !Watches(c, Freq) then 0
    else if c.continuous then TrailingRun(h, OmegaStream)
    else Total(h, OmegaStream)
  }

  function AmpLen(c: Settings, h: seq<Sample>): nat
  {
    if !Watches(c, Amp) then 0
    else if c.continuousAmp then TrailingRun(h, AmpStream)
    else Total(h, AmpStream)
  }

  /** Samples still missing from a streak that the last invalid sample started. */
  function Missing(watched: bool, n: nat, run: nat, seen: nat): nat
  {
    if watched && run < seen && run < n then n - run else 0
  }

  function FreqMissing(c: Settings, h: seq<Sample>): nat
  {
    Missing(Watches(c, Freq) && c.continuous, c.n, FreqLen(c, h), |h|)
  }

  function AmpMissing(c: Settings, h: seq<Sample>): nat
  {
    Missing(Watches(c, Amp) && c.continuousAmp, c.nAmp, AmpLen(c, h), |h|)
  }

  /** The gate of a decision: how much clean input it asks for. */
  predicate Gate(continuous: bool, n: nat, len: nat)
  {
    len > (if continuous then n else 1)
  }

  function Max(a: nat, b: nat): nat
  {
    if a < b then b else a
  }

  /** The last `m` samples exist and were all valid for `p`. */
  predicate Clean(p: Stream, h: seq<Sample>, m: nat)
  {
    m <= |h| && forall k :: |h| - m <= k < |h| ==> Good(p, h[k])
  }

  /** What avmd_process_sample reports for the last sample of a history. */
  function Verdict(c: Settings, h: seq<Sample>): Mode
    requires c.resolution > 0 && h != []
  {
    var x := h[|h| - 1];
    var long := FreqLen(c, h) >= BeepSamples(c);
    var amp := long && Gate(c.continuousAmp, c.nAmp, AmpLen(c, h)) && x.ampOk;
    var freq := long && Gate(c.continuous, c.n, FreqLen(c, h)) && x.freqOk;
    if c.toSkip > 0 then Nothing
    else if c.mode == Amp && x.finiteAmp && amp then Amp
    else if c.mode == Freq && Good(OmegaStream, x) && freq then Freq
    else if c.mode == Both && Good(OmegaStream, x) && amp && freq then Both
    else Nothing
  }

  lemma RunAtMostAll(h: seq<Sample>, p: Stream)
    ensures TrailingRun(h, p) <= |h|
  {
  }

  /** A run of at least `m` is the same as `m` samples valid for `p` at the end. */
  lemma {:induction false} RunIsSuffix(h: seq<Sample>, p: Stream, m: nat)
    ensures TrailingRun(h, p) >= m <==> Clean(p, h, m)
  {
    if m > 0 && h != [] {
      var front := h[..|h| - 1];
      RunIsSuffix(front, p, m - 1);
      if m <= |h| && Good(p, h[|h| - 1]) {
        assert Clean(p, h, m) <==> Clean(p, front, m - 1) by {
          if Clean(p, front, m - 1) {
            assert forall k :: |h| - m <= k < |h| - 1 ==> h[k] == front[k];
          }
          if Clean(p, h, m) {
            assert forall k :: |h| - m <= k < |h| - 1 ==> front[k] == h[k];
          }
        }
      }
    }
  }

  /** Enough valid omegas: with a continuous streak required the last ones, and
      in a row; otherwise at least two, and as many as a beep is long. */
  predicate FreqEnough(c: Settings, h: seq<Sample>)
    requires c.resolution > 0
  {
    if c.continuous then Clean(OmegaStream, h, Max(c.n + 1, BeepSamples(c)))
    else Total(h, OmegaStream) >= Max(2, BeepSamples(c))
  }

  /** Enough valid amplitudes, and a frequency average as long as a beep. */
  predicate AmpEnough(c: Settings, h: seq<Sample>)
    requires c.resolution > 0
  {
    FreqLen(c, h) >= BeepSamples(c) &&
    if c.continuousAmp then Clean(AmpStream, h, c.nAmp + 1) else Total(h, AmpStream) > 1
  }

  lemma EnoughIs(c: Settings, h: seq<Sample>)
    requires c.resolution > 0
    ensures Watches(c, Freq) ==>
            (FreqEnough(c, h) <==> FreqLen(c, h) >= BeepSamples(c) && Gate(c.continuous, c.n, FreqLen(c, h)))
    ensures Watches(c, Amp) ==>
            (AmpEnough(c, h) <==> FreqLen(c, h) >= BeepSamples(c) && Gate(c.continuousAmp, c.nAmp, AmpLen(c, h)))
  {
    RunIsSuffix(h, OmegaStream, Max(c.n + 1, BeepSamples(c)));
    RunIsSuffix(h, AmpStream, c.nAmp + 1);
  }

  /** The two tests at the end of avmd_process_sample. */
  function Decided(c: Settings, h: seq<Sample>, validAmplitude: bool, validOmega: bool): Mode
    requires c.resolution > 0 && h != []
  {
    var x := h[|h| - 1];
    if c.mode == Amp && validAmplitude && AmpEnough(c, h) && x.ampOk then Amp
    else if c.mode == Freq && validOmega && FreqEnough(c, h) && x.freqOk then Freq
    else if c.mode == Both && validOmega && AmpEnough(c, h) && x.ampOk && FreqEnough(c, h) && x.freqOk then Both
    else Nothing
  }

  lemma VerdictIsDecided(c: Settings, h: seq<Sample>, x: Sample, validAmplitude: bool, validOmega: bool)
    requires c.resolution > 0 && c.toSkip == 0
    requires Watches(c, Amp) ==> validAmplitude == (x.finiteAmp && (c.continuousAmp ==> AmpMissing(c, h) == 0))
    requires Watches(c, Freq) ==> validOmega == (Good(OmegaStream, x) && (c.continuous ==> FreqMissing(c, h) == 0))
    ensures Verdict(c, h + [x]) == Decided(c, h + [x], validAmplitude, validOmega)
  {
    MissingMeansShort(c, h, x);
    EnoughIs(c, h + [x]);
  }

  /** One detector's buffer, reduced to its counters. */
  class StreakBuffer {
    const c: Settings
    var freqLpos: nat       // sma_b.lpos
    var ampLpos: nat        // sma_amp_b.lpos
    var samplesStreak: nat
    var samplesStreakAmp: nat
    ghost var history: seq<Sample>

    ghost predicate Valid()
      reads this
    {
      c.resolution > 0 && FreqCountersMean(history) && AmpCountersMean(history)
    }

    ghost predicate FreqCountersMean(h: seq<Sample>)
      reads this
    {
      freqLpos == FreqLen(c, h) && samplesStreak == FreqMissing(c, h)
    }

    ghost predicate AmpCountersMean(h: seq<Sample>)
      reads this
    {
      ampLpos == AmpLen(c, h) && samplesStreakAmp == AmpMissing(c, h)
    }

    constructor (c: Settings)
      requires c.resolution > 0
      ensures Valid() && this.c == c && history == []
    {
      this.c := c;
      freqLpos, ampLpos, samplesStreak, samplesStreakAmp := 0, 0, 0, 0;
      history := [];
    }

    /** avmd_decision_amplitude for the latest sample. With a continuous streak
        required, the last amplitudes have to be valid in a row. */
    method DecisionAmplitude(x: Sample) returns (yes: bool)
      requires Valid() && Watches(c, Amp)
      ensures yes <==> AmpEnough(c, history) && x.ampOk
    {
      EnoughIs(c, history);
      yes := false;
      if freqLpos >= BeepSamples(c)
         && ((c.continuousAmp && ampLpos > c.nAmp && samplesStreakAmp == 0) || (!c.continuousAmp && ampLpos > 1)) {
        yes := x.ampOk;
      }
    }

    /** avmd_decision_freq for the latest sample. With a continuous streak
        required, the last omegas have to be valid in a row. */
    method DecisionFreq(x: Sample) returns (yes: bool)
      requires Valid() && Watches(c, Freq)
      ensures yes <==> FreqEnough(c, history) && x.freqOk
    {
      EnoughIs(c, history);
      yes := false;
      if freqLpos >= BeepSamples(c)
         && ((c.continuous && freqLpos > c.n && samplesStreak == 0) || (!c.continuous && freqLpos > 1)) {
        yes := x.freqOk;
      }
    }

    /** The amplitude part of avmd_process_sample. */
    method UpdateAmplitude(x: Sample) returns (valid: bool)
      requires Watches(c, Amp) && AmpCountersMean(history)
      modifies this`ampLpos, this`samplesStreakAmp
      ensures AmpCountersMean(history + [x])
      ensures valid == (x.finiteAmp && (c.continuousAmp ==> AmpMissing(c, history) == 0))
    {
      assert (history + [x])[..|history|] == history;
      RunAtMostAll(history, AmpStream);
      valid := true;
      if !x.finiteAmp {
        valid := false;
        if c.continuousAmp {
          ampLpos := 0;
          samplesStreakAmp := c.nAmp;
        }
      } else {
        ampLpos := ampLpos + 1;
        if c.continuousAmp && samplesStreakAmp > 0 {
          samplesStreakAmp := samplesStreakAmp - 1;
          valid := false;
        }
      }
    }

    /** The frequency part of avmd_process_sample. */
    method UpdateFrequency(x: Sample) returns (valid: bool)
      requires Watches(c, Freq) && FreqCountersMean(history)
      modifies this`freqLpos, this`samplesStreak
      ensures FreqCountersMean(history + [x])
      ensures valid == (Good(OmegaStream, x) && (c.continuous ==> FreqMissing(c, history) == 0))
    {
      assert (history + [x])[..|history|] == history;
      RunAtMostAll(history, OmegaStream);
      valid := true;
      if x.omega == NotANumber {
        valid := false;
        if c.continuous {
          freqLpos := 0;
          samplesStreak := c.n;
        }
      } else if x.omega == OutOfRange {
        valid := false;
        if c.continuous {
          freqLpos := 0;
          samplesStreak := c.n;
        }
      } else {
        freqLpos := freqLpos + 1;
        if c.continuous && samplesStreak > 0 {
          samplesStreak := samplesStreak - 1;
          valid := false;
        }
      }
    }

    /** avmd_process_sample. */
    method ProcessSample(x: Sample) returns (res: Mode)
      requires Valid()
      modifies this
      ensures Valid() && history == old(history) + [x]
      ensures res == Verdict(c, history)
    {
      var validAmplitude, validOmega := true, true;
      ghost var before := history;
      if c.toSkip > 0 {
        history := history + [x];
        return Nothing;
      }
      if c.mode == Amp || c.mode == Both {
        validAmplitude := UpdateAmplitude(x);
      }
      if c.mode == Freq || c.mode == Both {
        validOmega := UpdateFrequency(x);
      }
      history := history + [x];
      VerdictIsDecided(c, before, x, validAmplitude, validOmega);
      res := Decide(x, validAmplitude, validOmega);
    }

    method Decide(x: Sample, validAmplitude: bool, validOmega: bool) returns (res: Mode)
      requires Valid() && c.toSkip == 0 && history != [] && history[|history| - 1] == x
      ensures res == Decided(c, history, validAmplitude, validOmega)
    {
      if (c.mode == Amp || c.mode == Both) && validAmplitude {
        if c.mode == Amp {
          var a := DecisionAmplitude(x);
          if a {
            return Amp;
          }
        }
      }
      if (c.mode == Freq || c.mode == Both) && validOmega {
        if c.mode == Freq {
          var f := DecisionFreq(x);
          if f {
            return Freq;
          }
        }
        if c.mode == Both {
          var a := DecisionAmplitude(x);
          if a {
            var f := DecisionFreq(x);
            if f {
              return Both;
            }
          }
        }
      }
      return Nothing;
    }
  }

  /** The streak counters never decide anything by themselves: when one was
      above zero before a sample, the length gate fails after it. */
  lemma MissingMeansShort(c: Settings, h: seq<Sample>, x: Sample)
    ensures c.continuous && (FreqMissing(c, h) > 0 || FreqMissing(c, h + [x]) > 0) ==> FreqLen(c, h + [x]) <= c.n
    ensures c.continuousAmp && (AmpMissing(c, h) > 0 || AmpMissing(c, h + [x]) > 0) ==> AmpLen(c, h + [x]) <= c.nAmp
    ensures c.continuous && !Good(OmegaStream, x) ==> FreqLen(c, h + [x]) == 0
    ensures c.continuousAmp && !Good(AmpStream, x) ==> AmpLen(c, h + [x]) == 0
  {
    assert (h + [x])[..|h|] == h;
  }

  // ------------------------------------------------------------------------
  // What a detection implies

  /** Over any samples, a streak counter is 0 or makes up the required length
      together with the samples already averaged. */
  lemma StreakPlusLength(b: StreakBuffer)
    requires b.Valid() && b.c.toSkip == 0
    ensures b.samplesStreak == 0 || b.samplesStreak + b.freqLpos == b.c.n
    ensures b.samplesStreakAmp == 0 || b.samplesStreakAmp + b.ampLpos == b.c.nAmp
  {
  }

  /** With a continuous streak required, a frequency is detected exactly when
      the last max(n + 1, beep length) samples were all valid and the tests pass. */
  lemma FreqDetectedIff(c: Settings, h: seq<Sample>)
    requires c.resolution > 0 && h != [] && c.mode == Freq && c.toSkip == 0 && c.continuous
    ensures Verdict(c, h) == Freq <==>
      Clean(OmegaStream, h, Max(c.n + 1, BeepSamples(c))) && h[|h| - 1].freqOk
  {
    RunIsSuffix(h, OmegaStream, Max(c.n + 1, BeepSamples(c)));
  }

  /** In BOTH mode the amplitude's own streak is needed as well. */
  lemma BothDetectedIff(c: Settings, h: seq<Sample>)
    requires c.resolution > 0 && h != [] && c.mode == Both && c.toSkip == 0 && c.continuous && c.continuousAmp
    ensures Verdict(c, h) == Both <==>
      && Clean(OmegaStream, h, Max(c.n + 1, BeepSamples(c))) && h[|h| - 1].freqOk
      && Clean(AmpStream, h, c.nAmp + 1) && h[|h| - 1].ampOk
  {
    RunIsSuffix(h, OmegaStream, Max(c.n + 1, BeepSamples(c)));
    RunIsSuffix(h, AmpStream, c.nAmp + 1);
  }

  /** The amplitude decision also asks for the length of the frequency average,
      which AMP mode never fills: a detector can report an amplitude if and only
      if its resolution exceeds the beep length in samples. */
  lemma AmpModeDetectsIff(c: Settings)
    requires c.resolution > 0 && c.mode == Amp && c.toSkip == 0
    ensures (exists h :: h != [] && Verdict(c, h) == Amp) <==> c.resolution > c.rate / 500
  {
    BeepSamplesZero(c);
    if c.resolution > c.rate / 500 {
      var m := c.nAmp + 2;
      var h := seq(m, _ => Sample(InRange, true, true, true));
      RunIsSuffix(h, AmpStream, m);
      TotalOfClean(h);
      assert Verdict(c, h) == Amp;
    }
  }

  lemma BeepSamplesZero(c: Settings)
    requires c.resolution > 0
    ensures BeepSamples(c) == 0 <==> c.resolution > c.rate / 500
  {
    var b := c.rate / 500;
    if b < c.resolution {
      assert b / c.resolution == 0;
    } else {
      assert b / c.resolution >= 1;
    }
  }

  lemma {:induction false} TotalOfClean(h: seq<Sample>)
    requires forall k :: 0 <= k < |h| ==> Good(AmpStream, h[k])
    ensures Total(h, AmpStream) == |h|
  {
    if h != [] {
      TotalOfClean(h[..|h| - 1]);
    }
  }

  /** A non-zero sample_n_to_skip skips every sample, not only the first ones:
      however many samples came, all counters are still 0. */
  lemma SkippingNeverEnds(b: StreakBuffer)
    requires b.Valid() && b.c.toSkip > 0
    ensures b.freqLpos == 0 && b.ampLpos == 0 && b.samplesStreak == 0 && b.samplesStreakAmp == 0
  {
  }
}
