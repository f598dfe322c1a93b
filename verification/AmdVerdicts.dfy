/** The verdicts of mod_amd.c that also wait for the session counter, and that
    counter itself, in terms of the frames heard. */
module AmdVerdicts {

  import opened Amd
  import opened AmdRuns

  /** When the last noisy frame before frame n ended; 0 if there was none. */
  function LastNoisy(cfg: Settings, fs: seq<Frame>, n: nat): int
    requires n <= |fs|
  {
    if n == 0 then 0 else if Loud(cfg, fs, n - 1) then fs[n - 1].clock.end else LastNoisy(cfg, fs, n - 1)
  }

  predicate Hushed(cfg: Settings, fs: seq<Frame>, i: nat)
  {
    i < |fs| && !Noisy(cfg, fs[i])
  }

  /** The first frame of the silence that frame i belongs to. */
  function SilenceStart(cfg: Settings, fs: seq<Frame>, i: nat): (r: nat)
    requires Hushed(cfg, fs, i)
    ensures r <= i && (r == 0 || !Hushed(cfg, fs, r - 1))
    ensures forall k :: r <= k <= i ==> Hushed(cfg, fs, k)
  {
    if i == 0 || !Hushed(cfg, fs, i - 1) then i else SilenceStart(cfg, fs, i - 1)
  }

  /** When that silence began: at its first frame, read where the state changes,
      or at the end of the call's first frame. */
  function QuietSince(cfg: Settings, fs: seq<Frame>, i: nat): int
    requires Hushed(cfg, fs, i)
  {
    var z := SilenceStart(cfg, fs, i);
    if z == 0 then fs[0].clock.endSilent else fs[z].clock.stopTalking
  }

  /** The clock never reads 0, which the code takes for "not yet". */
  predicate Running(fs: seq<Frame>)
  {
    forall i :: 0 <= i < |fs| ==> fs[i].clock.stopTalking != 0 && fs[i].clock.endSilent != 0
  }

  /** A burst after a silence has lasted the minimum length at frame n. */
  predicate InIntroAt(cfg: Settings, fs: seq<Frame>, n: nat)
  {
    Qualified(cfg, fs, n) && Start(cfg, fs, n) > 0
  }

  // ---- the session counter ----

  /** total_time after n frames */
  function TotalTo(fs: seq<Frame>, n: nat): int
    requires n <= |fs|
  {
    if n == 0 then 0 else Wrap32(TotalTo(fs, n - 1) + fs[n - 1].len)
  }

  predicate TimeUpAt(cfg: Settings, fs: seq<Frame>, n: nat)
  {
    n < |fs| && Ms(TotalTo(fs, n + 1)) >= cfg.totalAnalysisTime
  }

  /** Before any long enough burst this silence has lasted silent_initial. */
  ghost predicate QuietTooLong(cfg: Settings, fs: seq<Frame>, n: nat)
  {
    && n > 0 && Hushed(cfg, fs, n) && !Introduced(cfg, fs, n)
    && Ms(fs[n].clock.initial - QuietSince(cfg, fs, n)) >= cfg.silentInitial
  }

  /** In the intro the last noisy frame is noise_max_intro old. */
  predicate NoiseTooOld(cfg: Settings, fs: seq<Frame>, n: nat)
  {
    && InIntroAt(cfg, fs, n) && !IntroTooLong(cfg, fs, n)
    && Ms(fs[n].clock.sinceNoisy - LastNoisy(cfg, fs, n)) >= cfg.noiseMaxIntro
  }

  /** What frame n adds because the time is up, ... */
  function FromTime(cfg: Settings, fs: seq<Frame>, n: nat): int
    requires n < |fs|
  {
    if TimeUpAt(cfg, fs, n) then Ms(fs[n].clock.session - LastNoisy(cfg, fs, n)) else 0
  }

  /** ... and because of what was heard. */
  ghost function FromSound(cfg: Settings, fs: seq<Frame>, n: nat): int
    requires n < |fs|
  {
    if QuietTooLong(cfg, fs, n) then Ms(fs[n].clock.initialEnd - LastNoisy(cfg, fs, n))
    else if NoiseTooOld(cfg, fs, n) then Ms(fs[n].clock.maxIntro - LastNoisy(cfg, fs, n))
    else 0
  }

  /** The session counter before frame n: what the frames before it added. */
  ghost function Counter(cfg: Settings, fs: seq<Frame>, n: nat): int
    requires n <= |fs|
  {
    if n == 0 then 0 else Counter(cfg, fs, n - 1) + FromTime(cfg, fs, n - 1) + FromSound(cfg, fs, n - 1)
  }

  /** ... and when frame n is judged. */
  ghost function CounterAt(cfg: Settings, fs: seq<Frame>, n: nat): int
    requires n < |fs|
  {
    Counter(cfg, fs, n) + FromTime(cfg, fs, n)
  }

  ghost predicate Times(cfg: Settings, fs: seq<Frame>, n: nat, h: Helper)
    requires n <= |fs|
  {
    && h.lastNoisy == LastNoisy(cfg, fs, n)
    && (n == 0 ==> h.firstSilent == 0)
    && (n > 0 && Hushed(cfg, fs, n - 1) ==> h.firstSilent == QuietSince(cfg, fs, n - 1))
  }

  /** The time is up and the counter at its limit: the frame is not judged. */
  ghost predicate ExpiredAt(cfg: Settings, fs: seq<Frame>, n: nat)
  {
    TimeUpAt(cfg, fs, n) && Counter(cfg, fs, n) >= cfg.silentMaxSession
  }

  /** The helper's two running totals. */
  ghost predicate Totals(cfg: Settings, fs: seq<Frame>, n: nat, h: Helper)
    requires n <= |fs|
  {
    h.totalTime == TotalTo(fs, n) && h.endSession == Counter(cfg, fs, n)
  }

  lemma NoisyTimes(cfg: Settings, h: Helper, f: Frame)
    requires Noisy(cfg, f) && !Step(cfg, h, f).done
    ensures Step(cfg, h, f).helper.lastNoisy == f.clock.end
  {
    TimedKeeps(cfg, h, f);
    TalkingEnds(cfg, Started(Timed(cfg, h, f).helper, f), f);
  }

  lemma TalkingEnds(cfg: Settings, h: Helper, f: Frame)
    requires h.state == Noise && !Talking(cfg, h, f).done
    ensures Talking(cfg, h, f).helper.lastNoisy == f.clock.end
  {
  }

  /** What firstSilent is when a silent frame tests it. */
  function Since(h: Helper, f: Frame): int
  {
    if h.state == Noise then f.clock.stopTalking else h.firstSilent
  }

  lemma SilentTimes(cfg: Settings, h: Helper, f: Frame)
    requires !Noisy(cfg, f) && !Step(cfg, h, f).done
    ensures var r := Step(cfg, h, f).helper;
            r.lastNoisy == h.lastNoisy && r.firstSilent == if Since(h, f) == 0 then f.clock.endSilent else Since(h, f)
  {
    TimedKeeps(cfg, h, f);
  }

  /** Both ways a silent frame finds the beginning of its silence. */
  lemma SinceIs(cfg: Settings, fs: seq<Frame>, n: nat, h: Helper)
    requires Hushed(cfg, fs, n) && Running(fs) && Heard(cfg, fs, n, h) && Times(cfg, fs, n, h)
    ensures Since(h, fs[n]) == if n == 0 then 0 else QuietSince(cfg, fs, n)
    ensures n > 0 ==> QuietSince(cfg, fs, n) != 0
  {
  }

  lemma NextTimes(cfg: Settings, fs: seq<Frame>, n: nat, g: Helper, h: Helper)
    requires n < |fs| && Running(fs) && Heard(cfg, fs, n, g) && Times(cfg, fs, n, g)
             && Step(cfg, g, fs[n]) == Turn(h, false)
    ensures Times(cfg, fs, n + 1, h)
  {
    if Noisy(cfg, fs[n]) {
      NoisyTimes(cfg, g, fs[n]);
    } else {
      SilentTimes(cfg, g, fs[n]);
      SinceIs(cfg, fs, n, g);
    }
  }

  lemma {:induction false} KnowsTimes(cfg: Settings, fs: seq<Frame>, n: nat, h: Helper)
    requires n <= |fs| && Running(fs) && After(cfg, fs, n) == Turn(h, false)
    ensures Times(cfg, fs, n, h)
  {
    if n > 0 {
      var m := n - 1;
      AfterNext(cfg, fs, m);
      var g := After(cfg, fs, m).helper;
      KnowsTimes(cfg, fs, m, g);
      Knows(cfg, fs, m, g);
      NextTimes(cfg, fs, m, g, h);
    }
  }

  /** The session counter when a frame is judged. */
  function Session(cfg: Settings, h: Helper, f: Frame): int
  {
    Timed(cfg, h, f).helper.endSession
  }

  // ---- the counter is that sum ----

  lemma TimedTotals(cfg: Settings, fs: seq<Frame>, n: nat, h: Helper)
    requires n < |fs| && Totals(cfg, fs, n, h) && h.lastNoisy == LastNoisy(cfg, fs, n)
    ensures TimeReached(cfg, h, fs[n]) <==> TimeUpAt(cfg, fs, n)
    ensures Expired(cfg, h, fs[n]) <==> ExpiredAt(cfg, fs, n)
    ensures Timed(cfg, h, fs[n]).helper.totalTime == TotalTo(fs, n + 1)
    ensures !Expired(cfg, h, fs[n]) ==> Session(cfg, h, fs[n]) == CounterAt(cfg, fs, n)
  {
  }

  /** On values: whether a noisy frame finds the last noise too old. */
  predicate FindsOldNoise(cfg: Settings, h: Helper, f: Frame, intro: bool)
  {
    && LongEnough(cfg, Started(h, f), f) && intro
    && Ms(f.clock.sinceSilent - h.lastSilent) < cfg.noiseMaxIntro
    && Ms(f.clock.sinceNoisy - h.lastNoisy) >= cfg.noiseMaxIntro
  }

  lemma TalkingCounts(cfg: Settings, h: Helper, f: Frame)
    requires h.state == Noise && !Talking(cfg, h, f).done
    ensures var r := Talking(cfg, h, f).helper;
            && r.totalTime == h.totalTime
            && r.endSession == h.endSession
                 + (if FindsOldNoise(cfg, h, f, r.intro) then Ms(f.clock.maxIntro - h.lastNoisy) else 0)
  {
  }

  lemma NoisyAdds(cfg: Settings, h: Helper, f: Frame)
    requires Noisy(cfg, f) && !Step(cfg, h, f).done
    ensures var r := Step(cfg, h, f).helper;
            && r.totalTime == Timed(cfg, h, f).helper.totalTime
            && r.endSession == Session(cfg, h, f)
                 + (if FindsOldNoise(cfg, h, f, r.intro) then Ms(f.clock.maxIntro - h.lastNoisy) else 0)
  {
    TimedKeeps(cfg, h, f);
    TalkingCounts(cfg, Started(Timed(cfg, h, f).helper, f), f);
  }

  /** On values: whether a silent frame finds the silence too long. */
  predicate FindsLongQuiet(cfg: Settings, h: Helper, f: Frame)
  {
    Since(h, f) != 0 && h.initial && Ms(f.clock.initial - Since(h, f)) >= cfg.silentInitial
  }

  lemma QuietCounts(cfg: Settings, h: Helper, f: Frame)
    requires !Quiet(cfg, h, f).done
    ensures var r := Quiet(cfg, h, f).helper;
            && r.totalTime == h.totalTime
            && r.endSession == h.endSession
                 + (if NobodySpoke(cfg, h, f) then Ms(f.clock.initialEnd - h.lastNoisy) else 0)
  {
  }

  lemma SilentAdds(cfg: Settings, h: Helper, f: Frame)
    requires !Noisy(cfg, f) && !Step(cfg, h, f).done
    ensures var r := Step(cfg, h, f).helper;
            && r.totalTime == Timed(cfg, h, f).helper.totalTime
            && r.endSession == Session(cfg, h, f)
                 + (if FindsLongQuiet(cfg, h, f) then Ms(f.clock.initialEnd - h.lastNoisy) else 0)
  {
    TimedKeeps(cfg, h, f);
    QuietCounts(cfg, Stopped(Timed(cfg, h, f).helper, f), f);
  }

  /** The same in terms of the frames. */
  lemma FindsLongQuietIs(cfg: Settings, fs: seq<Frame>, n: nat, h: Helper)
    requires Hushed(cfg, fs, n) && Running(fs) && Remembers(cfg, fs, n, h) && Times(cfg, fs, n, h)
    ensures FindsLongQuiet(cfg, h, fs[n]) <==> QuietTooLong(cfg, fs, n)
  {
    SinceIs(cfg, fs, n, h);
  }

  lemma InIntroAtIs(cfg: Settings, fs: seq<Frame>, n: nat, h: Helper, intro: bool)
    requires Loud(cfg, fs, n) && Heard(cfg, fs, n, h) && intro == Introduced(cfg, fs, n + 1)
    ensures LongEnough(cfg, Started(h, fs[n]), fs[n]) && intro <==> InIntroAt(cfg, fs, n)
    ensures InIntroAt(cfg, fs, n) ==>
              (Ms(fs[n].clock.sinceSilent - h.lastSilent) >= cfg.noiseMaxIntro <==> IntroTooLong(cfg, fs, n))
  {
    QualifiesIs(cfg, fs, n, h);
    if Qualified(cfg, fs, n) {
      InIntroIff(cfg, fs, n);
      if Start(cfg, fs, n) > 0 {
        SilenceBefore(cfg, fs, n, h);
      }
    }
  }

  lemma FindsOldNoiseIs(cfg: Settings, fs: seq<Frame>, n: nat, h: Helper, intro: bool)
    requires Loud(cfg, fs, n) && Heard(cfg, fs, n, h) && h.lastNoisy == LastNoisy(cfg, fs, n)
    requires intro == Introduced(cfg, fs, n + 1)
    ensures FindsOldNoise(cfg, h, fs[n], intro) <==> NoiseTooOld(cfg, fs, n)
  {
    InIntroAtIs(cfg, fs, n, h, intro);
  }

  lemma SoundOfNoise(cfg: Settings, fs: seq<Frame>, n: nat)
    requires Loud(cfg, fs, n)
    ensures FromSound(cfg, fs, n) ==
            if NoiseTooOld(cfg, fs, n) then Ms(fs[n].clock.maxIntro - LastNoisy(cfg, fs, n)) else 0
  {
  }

  lemma SoundOfSilence(cfg: Settings, fs: seq<Frame>, n: nat)
    requires Hushed(cfg, fs, n)
    ensures FromSound(cfg, fs, n) ==
            if QuietTooLong(cfg, fs, n) then Ms(fs[n].clock.initialEnd - LastNoisy(cfg, fs, n)) else 0
  {
  }

  lemma NextTotals(cfg: Settings, fs: seq<Frame>, n: nat, g: Helper, h: Helper)
    requires n < |fs| && Running(fs) && Step(cfg, g, fs[n]) == Turn(h, false)
    requires Remembers(cfg, fs, n, g) && Times(cfg, fs, n, g) && Totals(cfg, fs, n, g)
    ensures Totals(cfg, fs, n + 1, h)
  {
    ExpiredStep(cfg, g, fs[n]);
    TimedTotals(cfg, fs, n, g);
    if Noisy(cfg, fs[n]) {
      NoisyAdds(cfg, g, fs[n]);
      NoisyCounts(cfg, fs, n, g);
      FindsOldNoiseIs(cfg, fs, n, g, h.intro);
      SoundOfNoise(cfg, fs, n);
    } else {
      SilentAdds(cfg, g, fs[n]);
      FindsLongQuietIs(cfg, fs, n, g);
      SoundOfSilence(cfg, fs, n);
    }
  }

  lemma {:induction false} KnowsTotals(cfg: Settings, fs: seq<Frame>, n: nat, h: Helper)
    requires n <= |fs| && Running(fs) && After(cfg, fs, n) == Turn(h, false)
    ensures Totals(cfg, fs, n, h)
  {
    if n > 0 {
      var m := n - 1;
      AfterNext(cfg, fs, m);
      var g := After(cfg, fs, m).helper;
      KnowsTotals(cfg, fs, m, g);
      KnowsTimes(cfg, fs, m, g);
      Knows(cfg, fs, m, g);
      NextTotals(cfg, fs, m, g, h);
    }
  }

  /** What the helper knows before a frame that is reached, as one fact. */
  lemma KnowsAll(cfg: Settings, fs: seq<Frame>, n: nat, h: Helper)
    requires n < |fs| && Running(fs) && After(cfg, fs, n) == Turn(h, false)
    ensures Remembers(cfg, fs, n, h) && Times(cfg, fs, n, h)
    ensures Expired(cfg, h, fs[n]) <==> ExpiredAt(cfg, fs, n)
    ensures Timed(cfg, h, fs[n]).done <==> ExpiredAt(cfg, fs, n)
    ensures !ExpiredAt(cfg, fs, n) ==> Session(cfg, h, fs[n]) == CounterAt(cfg, fs, n)
  {
    Knows(cfg, fs, n, h);
    KnowsTimes(cfg, fs, n, h);
    KnowsTotals(cfg, fs, n, h);
    TimedTotals(cfg, fs, n, h);
    ExpiredStep(cfg, h, fs[n]);
  }

  // ---- too-long ----

  /** The call ends as too long exactly when the time is up and what the frames
      before added to the session counter has reached silent_max_session. */
  lemma TooLongIff(cfg: Settings, fs: seq<Frame>, n: nat)
    requires Reaches(cfg, fs, n) && Running(fs)
    ensures EndsAt(cfg, fs, n) && After(cfg, fs, n + 1).helper.verdict == TooLong <==> ExpiredAt(cfg, fs, n)
  {
    var h := After(cfg, fs, n).helper;
    KnowsAll(cfg, fs, n, h);
    AfterNext(cfg, fs, n);
    ExpiredStep(cfg, h, fs[n]);
    if Step(cfg, h, fs[n]).done {
      FinalCases(cfg, h, fs[n]);
    }
  }

  // ---- silent-initial ----

  lemma SilentInitialStep(cfg: Settings, h: Helper, f: Frame)
    requires !Noisy(cfg, f) && !Timed(cfg, h, f).done && h.initial == !h.intro
    ensures var r := Step(cfg, h, f);
            r.done && r.helper.verdict == SilentInitial <==>
              FindsLongQuiet(cfg, h, f) && Session(cfg, h, f) >= cfg.silentMaxSession
  {
    TimedKeeps(cfg, h, f);
  }

  /** The silent-initial verdict comes exactly at a silent frame when no burst
      after a silence has ever been long enough, this silence has lasted
      silent_initial, and the session counter has reached its limit. */
  lemma SilentInitialIff(cfg: Settings, fs: seq<Frame>, n: nat)
    requires Reaches(cfg, fs, n) && Running(fs)
    ensures EndsAt(cfg, fs, n) && After(cfg, fs, n + 1).helper.verdict == SilentInitial <==>
              !ExpiredAt(cfg, fs, n) && QuietTooLong(cfg, fs, n) && CounterAt(cfg, fs, n) >= cfg.silentMaxSession
  {
    var h := After(cfg, fs, n).helper;
    KnowsAll(cfg, fs, n, h);
    AfterNext(cfg, fs, n);
    ExpiredStep(cfg, h, fs[n]);
    if Noisy(cfg, fs[n]) {
      if Step(cfg, h, fs[n]).done {
        FinalCases(cfg, h, fs[n]);
      }
    } else if !Timed(cfg, h, fs[n]).done {
      SilentInitialStep(cfg, h, fs[n]);
      FindsLongQuietIs(cfg, fs, n, h);
    }
  }

  // ---- max-intro ----

  /** On values: which noisy frames report max-intro, given the counter. */
  predicate ReportsMaxIntro(cfg: Settings, h: Helper, f: Frame, r: Helper, session: int)
  {
    && FindsOldNoise(cfg, h, f, r.intro) && !(Qualifies(cfg, h, f) && r.noiseCount >= cfg.noiseMaxCount)
    && session >= cfg.silentMaxSession
  }

  lemma MaxIntroStep(cfg: Settings, h: Helper, f: Frame)
    requires Noisy(cfg, f) && !Timed(cfg, h, f).done
    ensures var r := Step(cfg, h, f);
            r.done && r.helper.verdict == MaxIntro <==> ReportsMaxIntro(cfg, h, f, r.helper, Session(cfg, h, f))
  {
    TimedKeeps(cfg, h, f);
    var s := Started(Timed(cfg, h, f).helper, f);
    TalkingPhases(cfg, s, f);
    IntroCases(cfg, s, f);
  }

  lemma IntroCases(cfg: Settings, h: Helper, f: Frame)
    requires h.state == Noise
    ensures var r := Talking(cfg, h, f);
            (r.done && r.helper.verdict == MaxIntro <==>
              && FindsOldNoise(cfg, h, f, r.helper.intro)
              && !(h.talkingMin && LongEnough(cfg, h, f) && r.helper.noiseCount >= cfg.noiseMaxCount)
              && h.endSession >= cfg.silentMaxSession)
  {
    var counted := Counted(cfg, h, f);
    if LongEnough(cfg, h, f) && !counted.done {
      IntroKeeps(cfg, counted.helper, f);
    }
  }

  /** ... and in terms of the frames. */
  ghost predicate MaxIntroDue(cfg: Settings, fs: seq<Frame>, n: nat)
    requires n < |fs|
  {
    && NoiseTooOld(cfg, fs, n) && !(First(cfg, fs, n) && |Bursts(cfg, fs, n + 1)| >= cfg.noiseMaxCount)
    && CounterAt(cfg, fs, n) >= cfg.silentMaxSession
  }

  lemma MaxIntroAt(cfg: Settings, fs: seq<Frame>, n: nat, h: Helper, r: Helper, session: int)
    requires Loud(cfg, fs, n) && Heard(cfg, fs, n, h) && h.lastNoisy == LastNoisy(cfg, fs, n)
    requires r.noiseCount == |Bursts(cfg, fs, n + 1)| && r.intro == Introduced(cfg, fs, n + 1)
    requires session == CounterAt(cfg, fs, n)
    ensures ReportsMaxIntro(cfg, h, fs[n], r, session) <==> MaxIntroDue(cfg, fs, n)
  {
    QualifiesIs(cfg, fs, n, h);
    FindsOldNoiseIs(cfg, fs, n, h, r.intro);
  }

  /** The max-intro verdict comes exactly at such a frame, not already reported as
      max-count, when the last noisy frame is noise_max_intro old and the session
      counter has reached its limit. */
  lemma MaxIntroIff(cfg: Settings, fs: seq<Frame>, n: nat)
    requires Reaches(cfg, fs, n) && Running(fs)
    ensures EndsAt(cfg, fs, n) && After(cfg, fs, n + 1).helper.verdict == MaxIntro <==>
              !ExpiredAt(cfg, fs, n) && MaxIntroDue(cfg, fs, n)
  {
    var h := After(cfg, fs, n).helper;
    KnowsAll(cfg, fs, n, h);
    AfterNext(cfg, fs, n);
    ExpiredStep(cfg, h, fs[n]);
    if Loud(cfg, fs, n) {
      if !Timed(cfg, h, fs[n]).done {
        MaxIntroStep(cfg, h, fs[n]);
        NoisyCounts(cfg, fs, n, h);
        MaxIntroAt(cfg, fs, n, h, Step(cfg, h, fs[n]).helper, Session(cfg, h, fs[n]));
      }
    } else if Step(cfg, h, fs[n]).done {
      FinalCases(cfg, h, fs[n]);
    }
  }
}
