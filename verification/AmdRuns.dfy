/** What mod_amd.c finds over a whole call, for every sequence of frames. */
module AmdRuns {

  import opened Common
  import opened Amd

  /** The helper after the first n frames; frames after the final verdict are
      not looked at any more. */
  function After(cfg: Settings, fs: seq<Frame>, n: nat): Turn
    requires n <= |fs|
  {
    if n == 0 then Turn(INITIAL, false)
    else
      var before := After(cfg, fs, n - 1);
      if before.done then before else Step(cfg, before.helper, fs[n - 1])
  }

  /** Frame n is looked at. */
  predicate Reaches(cfg: Settings, fs: seq<Frame>, n: nat)
  {
    n < |fs| && !After(cfg, fs, n).done
  }

  /** Frame n brings the final verdict. */
  predicate EndsAt(cfg: Settings, fs: seq<Frame>, n: nat)
  {
    Reaches(cfg, fs, n) && After(cfg, fs, n + 1).done
  }

  // ---- bursts of noise ----

  predicate Loud(cfg: Settings, fs: seq<Frame>, i: nat)
  {
    i < |fs| && Noisy(cfg, fs[i])
  }

  /** The first frame of the burst that frame i belongs to. */
  function Start(cfg: Settings, fs: seq<Frame>, i: nat): (r: nat)
    requires Loud(cfg, fs, i)
    ensures r <= i && (r == 0 || !Loud(cfg, fs, r - 1))
    ensures forall k :: r <= k <= i ==> Loud(cfg, fs, k)
  {
    if i == 0 || !Loud(cfg, fs, i - 1) then i else Start(cfg, fs, i - 1)
  }

  /** The burst has lasted noise_min_length at frame i. */
  predicate Qualified(cfg: Settings, fs: seq<Frame>, i: nat)
  {
    Loud(cfg, fs, i) && Ms(fs[i].clock.talking - fs[Start(cfg, fs, i)].clock.startTalking) >= cfg.noiseMinLength
  }

  /** Frame i is the first such frame of a burst that comes after a silence. */
  predicate First(cfg: Settings, fs: seq<Frame>, i: nat)
  {
    && Qualified(cfg, fs, i) && Start(cfg, fs, i) > 0
    && forall k :: Start(cfg, fs, i) <= k < i ==> !Qualified(cfg, fs, k)
  }

  /** ... and that silence ended noise_inter_silence before it. */
  predicate Counts(cfg: Settings, fs: seq<Frame>, i: nat)
  {
    First(cfg, fs, i) && Ms(fs[i].clock.interSilence - fs[Start(cfg, fs, i) - 1].clock.end) >= cfg.noiseInterSilence
  }

  /** The starts of the bursts counted in the first n frames. */
  function Bursts(cfg: Settings, fs: seq<Frame>, n: nat): set<nat>
    requires n <= |fs|
  {
    if n == 0 then {}
    else Bursts(cfg, fs, n - 1) + (if Counts(cfg, fs, n - 1) then {Start(cfg, fs, n - 1)} else {})
  }

  lemma {:induction false} BurstsAre(cfg: Settings, fs: seq<Frame>, n: nat, start: nat)
    requires n <= |fs|
    ensures start in Bursts(cfg, fs, n) <==> exists i :: 0 <= i < n && Counts(cfg, fs, i) && Start(cfg, fs, i) == start
  {
    if n > 0 {
      BurstsAre(cfg, fs, n - 1, start);
    }
  }

  ghost predicate Introduced(cfg: Settings, fs: seq<Frame>, n: nat)
  {
    exists i :: 0 <= i < n && First(cfg, fs, i)
  }

  /** talking_min == 1 before frame n */
  predicate Due(cfg: Settings, fs: seq<Frame>, n: nat)
    requires n <= |fs|
  {
    n > 0 && (!Loud(cfg, fs, n - 1) || (!Qualified(cfg, fs, n - 1) && Due(cfg, fs, n - 1)))
  }

  lemma {:induction false} DueInBurst(cfg: Settings, fs: seq<Frame>, i: nat)
    requires Loud(cfg, fs, i)
    ensures Due(cfg, fs, i) <==>
              Start(cfg, fs, i) > 0 && forall k :: Start(cfg, fs, i) <= k < i ==> !Qualified(cfg, fs, k)
  {
    if i > 0 && Loud(cfg, fs, i - 1) {
      DueInBurst(cfg, fs, i - 1);
    }
  }

  lemma {:induction false} SameStart(cfg: Settings, fs: seq<Frame>, i: nat, j: nat)
    requires Loud(cfg, fs, j) && Start(cfg, fs, j) <= i <= j
    ensures Loud(cfg, fs, i) && Start(cfg, fs, i) == Start(cfg, fs, j)
    decreases j - i
  {
    if i < j {
      SameStart(cfg, fs, i, j - 1);
    }
  }

  /** A burst counts at most once. */
  lemma CountedOnce(cfg: Settings, fs: seq<Frame>, i: nat, j: nat)
    requires i < j && Counts(cfg, fs, i) && Counts(cfg, fs, j)
    ensures Start(cfg, fs, i) != Start(cfg, fs, j)
  {
  }

  lemma BurstsStep(cfg: Settings, fs: seq<Frame>, n: nat)
    requires n < |fs|
    ensures |Bursts(cfg, fs, n + 1)| == |Bursts(cfg, fs, n)| + (if Counts(cfg, fs, n) then 1 else 0)
  {
    if Counts(cfg, fs, n) {
      var start := Start(cfg, fs, n);
      BurstsAre(cfg, fs, n, start);
      forall i: nat | i < n && Counts(cfg, fs, i) ensures Start(cfg, fs, i) != start {
        CountedOnce(cfg, fs, i, n);
      }
    }
  }

  // ---- what the helper knows ----

  /** The state is the last frame's classification, and the times of the current
      burst and of the last silence are remembered. */
  predicate Heard(cfg: Settings, fs: seq<Frame>, n: nat, h: Helper)
    requires n <= |fs|
  {
    && (h.state == Noise <==> n > 0 && Loud(cfg, fs, n - 1))
    && (n > 0 && Loud(cfg, fs, n - 1) ==> h.firstNoisy == fs[Start(cfg, fs, n - 1)].clock.startTalking)
    && (n > 0 && !Loud(cfg, fs, n - 1) ==> h.lastSilent == fs[n - 1].clock.end)
    && (n > 0 && Loud(cfg, fs, n - 1) && Start(cfg, fs, n - 1) > 0 ==>
         h.lastSilent == fs[Start(cfg, fs, n - 1) - 1].clock.end)
    && (h.talkingMin <==> Due(cfg, fs, n))
  }

  ghost predicate Phases(cfg: Settings, fs: seq<Frame>, n: nat, h: Helper)
    requires n <= |fs|
  {
    && h.noiseCount == |Bursts(cfg, fs, n)|
    && h.initial == !h.intro && h.intro == Introduced(cfg, fs, n)
    && (h.intro ==> exists i: nat :: LastQualified(cfg, fs, i, n) && h.introSilent == fs[i].clock.intro)
  }

  predicate LastQualified(cfg: Settings, fs: seq<Frame>, i: nat, n: nat)
  {
    i < n && Qualified(cfg, fs, i) && forall k: nat :: i < k < n ==> !Qualified(cfg, fs, k)
  }

  lemma StepHeard(cfg: Settings, fs: seq<Frame>, n: nat, h: Helper)
    requires n < |fs| && Heard(cfg, fs, n, h) && !Step(cfg, h, fs[n]).done
    ensures Heard(cfg, fs, n + 1, Step(cfg, h, fs[n]).helper)
  {
    if Loud(cfg, fs, n) {
      NoisyStep(cfg, h, fs[n]);
      assert LongEnough(cfg, Started(h, fs[n]), fs[n]) == Qualified(cfg, fs, n);
    } else {
      SilentStep(cfg, h, fs[n]);
    }
  }

  /** Long enough for the first time since the last silence. */
  predicate Qualifies(cfg: Settings, h: Helper, f: Frame)
  {
    h.talkingMin && LongEnough(cfg, Started(h, f), f)
  }

  lemma IntroKeeps(cfg: Settings, h: Helper, f: Frame)
    requires h.state == Noise
    ensures var r := InIntro(cfg, h, f).helper;
            && r.noiseCount == h.noiseCount && r.initial == h.initial && r.intro == h.intro
            && r.introSilent == if h.intro then f.clock.intro else h.introSilent
  {
  }

  lemma TalkingPhases(cfg: Settings, h: Helper, f: Frame)
    requires h.state == Noise
    ensures var r := Talking(cfg, h, f).helper; var q := h.talkingMin && LongEnough(cfg, h, f);
            && r.noiseCount == h.noiseCount
                 + (if q && Ms(f.clock.interSilence - h.lastSilent) >= cfg.noiseInterSilence then 1 else 0)
            && r.initial == (h.initial && !q) && r.intro == (h.intro || (h.initial && q))
    ensures var r := Talking(cfg, h, f);
            r.done || r.helper.introSilent ==
              if LongEnough(cfg, h, f) && r.helper.intro then f.clock.intro else h.introSilent
  {
    var counted := Counted(cfg, h, f);
    if LongEnough(cfg, h, f) && !counted.done {
      IntroKeeps(cfg, counted.helper, f);
    }
  }

  lemma TimedKeeps(cfg: Settings, h: Helper, f: Frame)
    ensures var r := Timed(cfg, h, f).helper;
            && r.noiseCount == h.noiseCount && r.initial == h.initial && r.intro == h.intro
            && r.introSilent == h.introSilent && r.talkingMin == h.talkingMin && r.lastSilent == h.lastSilent
            && r.state == h.state && r.firstNoisy == h.firstNoisy && r.firstSilent == h.firstSilent
            && r.lastNoisy == h.lastNoisy
  {
  }

  /** How a frame without a final verdict changes what is remembered. */
  predicate Hushes(h: Helper, f: Frame, r: Helper)
  {
    && r.state == Silent && r.lastSilent == f.clock.end && r.talkingMin
    && r.noiseCount == h.noiseCount && r.initial == h.initial && r.intro == h.intro && r.introSilent == h.introSilent
  }

  lemma QuietKeeps(cfg: Settings, h: Helper, f: Frame)
    requires h.state == Silent && !Quiet(cfg, h, f).done
    ensures Hushes(h, f, Quiet(cfg, h, f).helper)
  {
  }

  lemma SilentStep(cfg: Settings, h: Helper, f: Frame)
    requires !Noisy(cfg, f) && !Step(cfg, h, f).done
    ensures Hushes(h, f, Step(cfg, h, f).helper)
  {
    TimedKeeps(cfg, h, f);
    QuietKeeps(cfg, Stopped(Timed(cfg, h, f).helper, f), f);
  }

  lemma TalkingKeeps(cfg: Settings, h: Helper, f: Frame)
    requires h.state == Noise && !Talking(cfg, h, f).done
    ensures var r := Talking(cfg, h, f).helper;
            && r.state == Noise && r.firstNoisy == h.firstNoisy && r.lastSilent == h.lastSilent
            && r.talkingMin == (h.talkingMin && !LongEnough(cfg, h, f))
  {
  }

  lemma NoisyStep(cfg: Settings, h: Helper, f: Frame)
    requires Noisy(cfg, f) && !Step(cfg, h, f).done
    ensures var r := Step(cfg, h, f).helper; var s := Started(h, f);
            && r.state == Noise && r.firstNoisy == s.firstNoisy && r.lastSilent == h.lastSilent
            && r.talkingMin == (h.talkingMin && !LongEnough(cfg, s, f))
  {
    TimedKeeps(cfg, h, f);
    TalkingKeeps(cfg, Started(Timed(cfg, h, f).helper, f), f);
  }

  /** How a noisy frame counts and switches, on values. */
  predicate CountsOn(cfg: Settings, h: Helper, f: Frame, r: Helper)
  {
    var q := Qualifies(cfg, h, f);
    && r.noiseCount == h.noiseCount
         + (if q && Ms(f.clock.interSilence - h.lastSilent) >= cfg.noiseInterSilence then 1 else 0)
    && r.initial == (h.initial && !q) && r.intro == (h.intro || (h.initial && q))
  }

  lemma NoisyPhases(cfg: Settings, h: Helper, f: Frame)
    requires Noisy(cfg, f) && !Timed(cfg, h, f).done
    ensures CountsOn(cfg, h, f, Step(cfg, h, f).helper)
    ensures var r := Step(cfg, h, f);
            r.done ||
            r.helper.introSilent ==
              if LongEnough(cfg, Started(h, f), f) && r.helper.intro then f.clock.intro else h.introSilent
  {
    TimedKeeps(cfg, h, f);
    TalkingPhases(cfg, Started(Timed(cfg, h, f).helper, f), f);
  }

  lemma QualifiesIs(cfg: Settings, fs: seq<Frame>, n: nat, h: Helper)
    requires Loud(cfg, fs, n) && Heard(cfg, fs, n, h)
    ensures LongEnough(cfg, Started(h, fs[n]), fs[n]) <==> Qualified(cfg, fs, n)
    ensures Qualifies(cfg, h, fs[n]) <==> First(cfg, fs, n)
    ensures First(cfg, fs, n) ==> h.lastSilent == fs[Start(cfg, fs, n) - 1].clock.end
  {
    DueInBurst(cfg, fs, n);
  }

  lemma IntroducedStep(cfg: Settings, fs: seq<Frame>, n: nat)
    ensures Introduced(cfg, fs, n + 1) <==> Introduced(cfg, fs, n) || First(cfg, fs, n)
  {
  }

  ghost predicate CountsAre(cfg: Settings, fs: seq<Frame>, n: nat, r: Helper)
    requires n < |fs|
  {
    r.noiseCount == |Bursts(cfg, fs, n + 1)| && r.initial == !r.intro && r.intro == Introduced(cfg, fs, n + 1)
  }

  lemma CountsFollow(cfg: Settings, fs: seq<Frame>, n: nat, h: Helper, r: Helper)
    requires Loud(cfg, fs, n) && Heard(cfg, fs, n, h) && CountsOn(cfg, h, fs[n], r)
    requires h.noiseCount == |Bursts(cfg, fs, n)| && h.initial == !h.intro && h.intro == Introduced(cfg, fs, n)
    ensures CountsAre(cfg, fs, n, r)
  {
    QualifiesIs(cfg, fs, n, h);
    BurstsStep(cfg, fs, n);
    IntroducedStep(cfg, fs, n);
    CountsIs(cfg, fs, n, h.lastSilent);
  }

  lemma CountsIs(cfg: Settings, fs: seq<Frame>, n: nat, lastSilent: int)
    requires First(cfg, fs, n) ==> lastSilent == fs[Start(cfg, fs, n) - 1].clock.end
    ensures First(cfg, fs, n) && Ms(fs[n].clock.interSilence - lastSilent) >= cfg.noiseInterSilence <==>
            Counts(cfg, fs, n)
  {
  }

  /** Counting and switching, whether or not the frame ends the analysis. */
  lemma NoisyCounts(cfg: Settings, fs: seq<Frame>, n: nat, h: Helper)
    requires Loud(cfg, fs, n) && Heard(cfg, fs, n, h) && Phases(cfg, fs, n, h) && !Timed(cfg, h, fs[n]).done
    ensures CountsAre(cfg, fs, n, Step(cfg, h, fs[n]).helper)
  {
    NoisyPhases(cfg, h, fs[n]);
    CountsFollow(cfg, fs, n, h, Step(cfg, h, fs[n]).helper);
  }

  lemma FirstIsQualified(cfg: Settings, fs: seq<Frame>, n: nat)
    ensures First(cfg, fs, n) ==> LastQualified(cfg, fs, n, n + 1)
    ensures Qualified(cfg, fs, n) ==> LastQualified(cfg, fs, n, n + 1)
    ensures forall i: nat :: LastQualified(cfg, fs, i, n) && !Qualified(cfg, fs, n) ==> LastQualified(cfg, fs, i, n + 1)
  {
  }

  lemma StepPhases(cfg: Settings, fs: seq<Frame>, n: nat, h: Helper)
    requires n < |fs| && Heard(cfg, fs, n, h) && Phases(cfg, fs, n, h) && !Step(cfg, h, fs[n]).done
    ensures Phases(cfg, fs, n + 1, Step(cfg, h, fs[n]).helper)
  {
    FirstIsQualified(cfg, fs, n);
    if Loud(cfg, fs, n) {
      NoisyPhases(cfg, h, fs[n]);
      NoisyCounts(cfg, fs, n, h);
      QualifiesIs(cfg, fs, n, h);
    } else {
      SilentStep(cfg, h, fs[n]);
      BurstsStep(cfg, fs, n);
      IntroducedStep(cfg, fs, n);
    }
  }

  ghost predicate Remembers(cfg: Settings, fs: seq<Frame>, n: nat, h: Helper)
    requires n <= |fs|
  {
    Heard(cfg, fs, n, h) && Phases(cfg, fs, n, h)
  }

  lemma StepKnows(cfg: Settings, fs: seq<Frame>, n: nat, h: Helper)
    requires n < |fs| && Remembers(cfg, fs, n, h) && !Step(cfg, h, fs[n]).done
    ensures Remembers(cfg, fs, n + 1, Step(cfg, h, fs[n]).helper)
  {
    StepHeard(cfg, fs, n, h);
    StepPhases(cfg, fs, n, h);
  }

  lemma InitialKnows(cfg: Settings, fs: seq<Frame>)
    ensures Remembers(cfg, fs, 0, INITIAL)
  {
  }

  lemma AfterNext(cfg: Settings, fs: seq<Frame>, n: nat)
    requires n < |fs|
    ensures After(cfg, fs, n).done ==> After(cfg, fs, n + 1).done
    ensures !After(cfg, fs, n).done ==> After(cfg, fs, n + 1) == Step(cfg, After(cfg, fs, n).helper, fs[n])
  {
  }

  lemma NextKnows(cfg: Settings, fs: seq<Frame>, n: nat, g: Helper, h: Helper)
    requires n < |fs| && Step(cfg, g, fs[n]) == Turn(h, false) && Remembers(cfg, fs, n, g)
    ensures Remembers(cfg, fs, n + 1, h)
  {
    StepKnows(cfg, fs, n, g);
  }

  lemma {:induction false} Knows(cfg: Settings, fs: seq<Frame>, n: nat, h: Helper)
    requires n <= |fs| && After(cfg, fs, n) == Turn(h, false)
    ensures Remembers(cfg, fs, n, h)
  {
    if n == 0 {
      InitialKnows(cfg, fs);
    } else {
      var m := n - 1;
      AfterNext(cfg, fs, m);
      var g := After(cfg, fs, m).helper;
      Knows(cfg, fs, m, g);
      NextKnows(cfg, fs, m, g, h);
    }
  }

  // ---- main results ----

  /** After every frame that brings no final verdict, the state is that frame's
      classification, exactly one phase flag is set, the analysis is in the intro
      exactly once a burst after a silence has lasted noise_min_length, and the
      noise count is the number of different bursts counted so far. */
  lemma BetweenFrames(cfg: Settings, fs: seq<Frame>, n: nat)
    requires 0 < n <= |fs| && !After(cfg, fs, n).done
    ensures var h := After(cfg, fs, n).helper;
            && (h.state == Noise <==> Noisy(cfg, fs[n - 1]))
            && (h.initial <==> !h.intro) && (h.intro <==> Introduced(cfg, fs, n))
            && h.noiseCount == |Bursts(cfg, fs, n)|
  {
    Knows(cfg, fs, n, After(cfg, fs, n).helper);
  }

  /** So the switch from the initial silence to the intro happens once. */
  lemma SwitchesOnce(cfg: Settings, fs: seq<Frame>, m: nat, n: nat)
    requires m <= n <= |fs| && !After(cfg, fs, n).done && !After(cfg, fs, m).done && After(cfg, fs, m).helper.intro
    ensures After(cfg, fs, n).helper.intro && !After(cfg, fs, n).helper.initial
  {
    Knows(cfg, fs, m, After(cfg, fs, m).helper);
    Knows(cfg, fs, n, After(cfg, fs, n).helper);
  }

  /** Time is up and the session limit is reached: the frame is not judged. */
  predicate Expired(cfg: Settings, h: Helper, f: Frame)
  {
    TimeReached(cfg, h, f) && h.endSession >= cfg.silentMaxSession
  }

  /** Since the silence before the current burst noise_max_intro has passed. */
  predicate IntroTooLong(cfg: Settings, fs: seq<Frame>, n: nat)
  {
    && Qualified(cfg, fs, n) && Start(cfg, fs, n) > 0
    && Ms(fs[n].clock.sinceSilent - fs[Start(cfg, fs, n) - 1].clock.end) >= cfg.noiseMaxIntro
  }

  lemma {:induction false} QualifiedIntroduces(cfg: Settings, fs: seq<Frame>, n: nat, m: nat)
    requires Qualified(cfg, fs, m) && Start(cfg, fs, m) > 0 && m < n
    ensures Introduced(cfg, fs, n)
    decreases m
  {
    if k: nat :| Start(cfg, fs, m) <= k < m && Qualified(cfg, fs, k) {
      SameStart(cfg, fs, k, m);
      QualifiedIntroduces(cfg, fs, n, k);
    } else {
      assert First(cfg, fs, m);
    }
  }

  /** In the intro there was a silence, so every burst starts after one. */
  lemma IntroducedAfterSilence(cfg: Settings, fs: seq<Frame>, n: nat)
    requires Loud(cfg, fs, n) && Introduced(cfg, fs, n + 1)
    ensures Start(cfg, fs, n) > 0
  {
    var i: nat :| i < n + 1 && First(cfg, fs, i);
    if Start(cfg, fs, n) <= i {
      SameStart(cfg, fs, i, n);
    }
  }

  lemma SilenceBefore(cfg: Settings, fs: seq<Frame>, n: nat, h: Helper)
    requires Loud(cfg, fs, n) && Heard(cfg, fs, n, h) && Start(cfg, fs, n) > 0
    ensures h.lastSilent == fs[Start(cfg, fs, n) - 1].clock.end
  {
  }

  /** Which noisy frames report max-count, on values. */
  lemma MaxCountStep(cfg: Settings, h: Helper, f: Frame)
    requires Noisy(cfg, f) && !Timed(cfg, h, f).done
    ensures var r := Step(cfg, h, f);
            (r.done && r.helper.verdict == MaxCount <==>
              || (Qualifies(cfg, h, f) && r.helper.noiseCount >= cfg.noiseMaxCount)
              || (LongEnough(cfg, Started(h, f), f) && r.helper.intro
                && Ms(f.clock.sinceSilent - h.lastSilent) >= cfg.noiseMaxIntro))
  {
    TimedKeeps(cfg, h, f);
    var s := Started(Timed(cfg, h, f).helper, f);
    TalkingPhases(cfg, s, f);
    CountedCases(cfg, s, f);
  }

  lemma CountedCases(cfg: Settings, h: Helper, f: Frame)
    requires h.state == Noise
    ensures var r := Talking(cfg, h, f);
            (r.done && r.helper.verdict == MaxCount <==>
              || (h.talkingMin && LongEnough(cfg, h, f) && r.helper.noiseCount >= cfg.noiseMaxCount)
              || (LongEnough(cfg, h, f) && r.helper.intro
                && Ms(f.clock.sinceSilent - h.lastSilent) >= cfg.noiseMaxIntro))
  {
    var counted := Counted(cfg, h, f);
    if LongEnough(cfg, h, f) && !counted.done {
      IntroKeeps(cfg, counted.helper, f);
    }
  }

  lemma InIntroIff(cfg: Settings, fs: seq<Frame>, n: nat)
    requires Qualified(cfg, fs, n)
    ensures Introduced(cfg, fs, n + 1) <==> Start(cfg, fs, n) > 0
  {
    if Introduced(cfg, fs, n + 1) {
      IntroducedAfterSilence(cfg, fs, n);
    }
    if Start(cfg, fs, n) > 0 {
      QualifiedIntroduces(cfg, fs, n + 1, n);
    }
  }

  lemma TooLongIs(cfg: Settings, fs: seq<Frame>, n: nat, h: Helper, intro: bool)
    requires Loud(cfg, fs, n) && Heard(cfg, fs, n, h) && intro == Introduced(cfg, fs, n + 1)
    ensures LongEnough(cfg, Started(h, fs[n]), fs[n]) && intro
            && Ms(fs[n].clock.sinceSilent - h.lastSilent) >= cfg.noiseMaxIntro <==>
              IntroTooLong(cfg, fs, n)
  {
    QualifiesIs(cfg, fs, n, h);
    if Qualified(cfg, fs, n) {
      InIntroIff(cfg, fs, n);
      if Start(cfg, fs, n) > 0 {
        SilenceBefore(cfg, fs, n, h);
      }
    }
  }

  lemma MaxCountAt(cfg: Settings, fs: seq<Frame>, n: nat, h: Helper)
    requires Loud(cfg, fs, n) && Remembers(cfg, fs, n, h) && !Timed(cfg, h, fs[n]).done
    ensures var r := Step(cfg, h, fs[n]);
            (r.done && r.helper.verdict == MaxCount <==>
              (First(cfg, fs, n) && |Bursts(cfg, fs, n + 1)| >= cfg.noiseMaxCount) || IntroTooLong(cfg, fs, n))
  {
    MaxCountStep(cfg, h, fs[n]);
    NoisyCounts(cfg, fs, n, h);
    QualifiesIs(cfg, fs, n, h);
    TooLongIs(cfg, fs, n, h, Step(cfg, h, fs[n]).helper.intro);
  }

  /** The max-count verdict comes exactly at the first qualified frame of a burst
      with noise_max_count different bursts counted, or when the intro is too
      long: the latter is reported as max-count too. */
  lemma MaxCountIff(cfg: Settings, fs: seq<Frame>, n: nat)
    requires Reaches(cfg, fs, n)
    ensures EndsAt(cfg, fs, n) && After(cfg, fs, n + 1).helper.verdict == MaxCount <==>
              && !Expired(cfg, After(cfg, fs, n).helper, fs[n])
              && ((First(cfg, fs, n) && |Bursts(cfg, fs, n + 1)| >= cfg.noiseMaxCount) || IntroTooLong(cfg, fs, n))
  {
    var h := After(cfg, fs, n).helper;
    Knows(cfg, fs, n, h);
    AfterNext(cfg, fs, n);
    ExpiredStep(cfg, h, fs[n]);
    if Loud(cfg, fs, n) {
      if !Timed(cfg, h, fs[n]).done {
        MaxCountAt(cfg, fs, n, h);
      }
    } else if Step(cfg, h, fs[n]).done {
      FinalCases(cfg, h, fs[n]);
    }
  }

  lemma ExpiredStep(cfg: Settings, h: Helper, f: Frame)
    ensures Timed(cfg, h, f).done <==> Expired(cfg, h, f)
    ensures Expired(cfg, h, f) ==> Step(cfg, h, f).done && Step(cfg, h, f).helper.verdict == TooLong
  {
  }

  lemma AfterIntroStep(cfg: Settings, h: Helper, f: Frame)
    requires !Noisy(cfg, f) && !Timed(cfg, h, f).done && h.initial == !h.intro
    ensures var r := Step(cfg, h, f);
            (r.done && r.helper.verdict == SilentAfterIntro <==>
              h.intro && Ms(f.clock.afterIntro - h.introSilent) >= cfg.silentAfterIntro)
  {
    TimedKeeps(cfg, h, f);
  }

  lemma OneLastQualified(cfg: Settings, fs: seq<Frame>, i: nat, j: nat, n: nat)
    requires LastQualified(cfg, fs, i, n) && LastQualified(cfg, fs, j, n)
    ensures i == j
  {
  }

  /** silent_after_intro ms have passed since the last noisy frame of a burst
      that had lasted the minimum length. */
  ghost predicate SilentLongEnough(cfg: Settings, fs: seq<Frame>, n: nat)
    requires n < |fs|
  {
    exists i: nat :: LastQualified(cfg, fs, i, n)
      && Ms(fs[n].clock.afterIntro - fs[i].clock.intro) >= cfg.silentAfterIntro
  }

  lemma SilentLongEnoughIs(cfg: Settings, fs: seq<Frame>, n: nat, h: Helper)
    requires n < |fs| && Phases(cfg, fs, n, h) && h.intro
    ensures SilentLongEnough(cfg, fs, n) <==> Ms(fs[n].clock.afterIntro - h.introSilent) >= cfg.silentAfterIntro
  {
    var i: nat :| LastQualified(cfg, fs, i, n) && h.introSilent == fs[i].clock.intro;
    forall j: nat | LastQualified(cfg, fs, j, n) ensures j == i {
      OneLastQualified(cfg, fs, i, j, n);
    }
  }

  /** The silent-after-intro verdict comes exactly at a silent frame in the intro
      when the silence is long enough. */
  lemma SilentAfterIntroIff(cfg: Settings, fs: seq<Frame>, n: nat)
    requires Reaches(cfg, fs, n)
    ensures EndsAt(cfg, fs, n) && After(cfg, fs, n + 1).helper.verdict == SilentAfterIntro <==>
              && !Expired(cfg, After(cfg, fs, n).helper, fs[n])
              && !Noisy(cfg, fs[n]) && Introduced(cfg, fs, n) && SilentLongEnough(cfg, fs, n)
  {
    var h := After(cfg, fs, n).helper;
    Knows(cfg, fs, n, h);
    AfterNext(cfg, fs, n);
    ExpiredStep(cfg, h, fs[n]);
    if Loud(cfg, fs, n) {
      if Step(cfg, h, fs[n]).done {
        FinalCases(cfg, h, fs[n]);
      }
    } else if !Timed(cfg, h, fs[n]).done {
      AfterIntroStep(cfg, h, fs[n]);
      if h.intro {
        SilentLongEnoughIs(cfg, fs, n, h);
      }
    }
  }

  lemma FinalCases(cfg: Settings, h: Helper, f: Frame)
    requires Step(cfg, h, f).done
    ensures var r := Step(cfg, h, f).helper;
            && (r.verdict == TooLong <==> Expired(cfg, h, f))
            && (r.verdict == MaxCount || r.verdict == MaxIntro ==> Noisy(cfg, f) && r.status == Machine)
            && (r.verdict == SilentInitial || r.verdict == SilentAfterIntro ==> !Noisy(cfg, f) && r.status == Person)
            && r.verdict != NoVerdict
  {
  }

  lemma {:induction false} OneBurst(cfg: Settings, fs: seq<Frame>, i: nat)
    requires forall k: nat :: k <= i ==> Loud(cfg, fs, k)
    ensures Start(cfg, fs, i) == 0
  {
    if i > 0 {
      OneBurst(cfg, fs, i - 1);
    }
  }

  lemma NothingToJudge(cfg: Settings, h: Helper, f: Frame)
    requires Noisy(cfg, f) && !h.talkingMin && !h.intro
    ensures Step(cfg, h, f).done ==> Expired(cfg, h, f)
  {
    TimedKeeps(cfg, h, f);
  }

  /** A call that is noisy from its first frame on is never found to be a
      machine: the first burst is not counted, and only the time limit ends it. */
  lemma ConstantNoiseTimesOut(cfg: Settings, fs: seq<Frame>, n: nat)
    requires EndsAt(cfg, fs, n) && forall k: nat :: k <= n ==> Loud(cfg, fs, k)
    ensures After(cfg, fs, n + 1).helper.verdict == TooLong && After(cfg, fs, n + 1).helper.noiseCount == 0
  {
    var h := After(cfg, fs, n).helper;
    Knows(cfg, fs, n, h);
    AfterNext(cfg, fs, n);
    forall i: nat | i <= n ensures !First(cfg, fs, i) {
      OneBurst(cfg, fs, i);
    }
    NoneCounted(cfg, fs, n);
    OneBurst(cfg, fs, n);
    DueInBurst(cfg, fs, n);
    NothingToJudge(cfg, h, fs[n]);
    ExpiredStep(cfg, h, fs[n]);
  }

  lemma {:induction false} NoneCounted(cfg: Settings, fs: seq<Frame>, n: nat)
    requires n <= |fs| && forall i: nat :: i < n ==> !First(cfg, fs, i)
    ensures Bursts(cfg, fs, n) == {}
  {
    if n > 0 {
      NoneCounted(cfg, fs, n - 1);
    }
  }

  // A machine verdict by max-count need not have counted anything.

  const ODD_SETTINGS := Settings(100, 5000, 5000, 1000, 10, 0, 5000, 3, 100000)

  function At(t: int, score: real): Frame
  {
    Frame(160, Some(score), Clock(t, t, t, t, t, t, t, t, t, t, t, t, t, t))
  }

  lemma MaxCountWithoutBursts()
    ensures var fs := [At(20000, 0.0), At(40000, 200.0)];
            EndsAt(ODD_SETTINGS, fs, 1) && After(ODD_SETTINGS, fs, 2).helper.verdict == MaxCount
              && Bursts(ODD_SETTINGS, fs, 2) == {}
  {
    var fs := [At(20000, 0.0), At(40000, 200.0)];
    var h := Step(ODD_SETTINGS, INITIAL, fs[0]).helper;
    assert h == INITIAL.(totalTime := 160, lastSilent := 20000, talkingMin := true, firstSilent := 20000);
    AfterNext(ODD_SETTINGS, fs, 0);
    AfterNext(ODD_SETTINGS, fs, 1);
    assert Start(ODD_SETTINGS, fs, 1) == 1;
    assert !Counts(ODD_SETTINGS, fs, 0) && !Counts(ODD_SETTINGS, fs, 1);
    assert Bursts(ODD_SETTINGS, fs, 1) == {};
  }
}
