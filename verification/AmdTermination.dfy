/** How long the answering machine detector of mod_amd.c can take. */
module AmdTermination {

  import opened Common
  import opened Amd
  import opened AmdRuns

  /** The readings of one frame come in the order of their places. */
  predicate Ordered(c: Clock)
  {
    && c.session <= c.startTalking <= c.talking <= c.interSilence <= c.intro <= c.sinceSilent <= c.sinceNoisy
    && c.sinceNoisy <= c.maxIntro <= c.end
    && c.session <= c.stopTalking <= c.initial <= c.initialEnd <= c.afterIntro <= c.end <= c.endSilent
  }

  /** Readings of different frames are at least one millisecond apart, and the
      first frame is at least that far from the epoch. */
  predicate Spaced(fs: seq<Frame>)
  {
    && (forall i :: 0 <= i < |fs| ==> Ordered(fs[i].clock) && fs[i].clock.session >= EndOf(fs, i) + 1000)
  }

  /** The last reading before frame i. */
  function EndOf(fs: seq<Frame>, i: nat): int
    requires i <= |fs|
  {
    if i == 0 then 0 else fs[i - 1].clock.endSilent
  }

  predicate SameLength(fs: seq<Frame>, len: nat)
  {
    forall i :: 0 <= i < |fs| ==> fs[i].len == len
  }

  predicate NoSooner(h: Helper, f: Frame, r: Helper)
  {
    r.totalTime == h.totalTime && r.endSession >= h.endSession
      && (r.lastNoisy == h.lastNoisy || r.lastNoisy == f.clock.end)
  }

  lemma InIntroTime(cfg: Settings, h: Helper, f: Frame)
    requires h.lastNoisy <= f.clock.maxIntro
    ensures NoSooner(h, f, InIntro(cfg, h, f).helper)
  {
  }

  lemma TalkingTime(cfg: Settings, h: Helper, f: Frame)
    requires h.lastNoisy <= f.clock.maxIntro
    ensures NoSooner(h, f, Talking(cfg, h, f).helper)
  {
    var counted := Counted(cfg, h, f);
    assert NoSooner(h, f, counted.helper) && counted.helper.lastNoisy == h.lastNoisy;
    InIntroTime(cfg, counted.helper, f);
  }

  lemma QuietTime(cfg: Settings, h: Helper, f: Frame)
    requires h.lastNoisy <= f.clock.initialEnd
    ensures NoSooner(h, f, Quiet(cfg, h, f).helper)
  {
    var waited := Waited(cfg, h, f);
    assert NoSooner(h, f, waited.helper) && waited.helper.lastNoisy == h.lastNoisy;
  }

  lemma SoundedTime(cfg: Settings, h: Helper, f: Frame)
    requires h.lastNoisy <= f.clock.session && Ordered(f.clock)
    ensures NoSooner(h, f, Sounded(cfg, h, f).helper)
  {
    if Noisy(cfg, f) {
      TalkingTime(cfg, Started(h, f), f);
    } else {
      QuietTime(cfg, Stopped(h, f), f);
    }
  }

  lemma StepTime(cfg: Settings, h: Helper, f: Frame)
    requires h.lastNoisy + 1000 <= f.clock.session && Ordered(f.clock) && !Step(cfg, h, f).done
    ensures var r := Step(cfg, h, f).helper;
            && r.totalTime == Wrap32(h.totalTime + f.len) && r.lastNoisy <= f.clock.endSilent
            && (if TimeReached(cfg, h, f) then r.endSession >= h.endSession + 1 && h.endSession < cfg.silentMaxSession
                else r.endSession >= h.endSession)
  {
    SoundedTime(cfg, Timed(cfg, h, f).helper, f);
  }

  /** The least number of frames whose bytes reach total_analysis_time. */
  function FramesNeeded(cfg: Settings, len: nat): (r: nat)
    requires len > 0 && cfg.totalAnalysisTime > 0
    ensures 0 < r && (r - 1) * len < 1000 * cfg.totalAnalysisTime <= r * len
  {
    var bytes := 1000 * cfg.totalAnalysisTime;
    var r := (bytes + len - 1) / len;
    Division(bytes + len - 1, len);
    assert r * len + (bytes + len - 1) % len == bytes + len - 1;
    assert (r - 1) * len == r * len - len;
    r
  }

  lemma Division(x: nat, d: nat)
    requires d > 0
    ensures x / d * d + x % d == x && (x >= d ==> x / d > 0)
  {
  }

  lemma Monotone(a: nat, b: nat, len: nat)
    requires a <= b
    ensures a * len <= b * len
  {
  }

  /** total_time after n frames */
  function Total(len: nat, n: nat): int
  {
    if n == 0 then 0 else Wrap32(Total(len, n - 1) + len)
  }

  predicate TimeUp(cfg: Settings, len: nat, n: nat)
  {
    Ms(Total(len, n)) >= cfg.totalAnalysisTime
  }

  /** How many of the first n frames find the time reached. */
  function Late(cfg: Settings, len: nat, n: nat): nat
  {
    if n == 0 then 0 else Late(cfg, len, n - 1) + (if TimeUp(cfg, len, n) then 1 else 0)
  }

  lemma {:induction false} TotalIs(len: nat, n: nat)
    ensures n * len <= MAX_INT ==> Total(len, n) == n * len
    ensures n > 0 && (n - 1) * len <= MAX_INT < n * len <= MAX_INT + 0x8000_0000 ==> Total(len, n) < 0
  {
    if n > 0 {
      TotalIs(len, n - 1);
      assert n * len == (n - 1) * len + len;
    }
  }

  lemma Reached(cfg: Settings, len: nat, n: nat)
    requires len > 0 && cfg.totalAnalysisTime > 0
    ensures n * len / 1000 >= cfg.totalAnalysisTime <==> n >= FramesNeeded(cfg, len)
  {
    var k := FramesNeeded(cfg, len);
    if n >= k {
      Monotone(k, n, len);
    } else {
      Monotone(n, k - 1, len);
    }
  }

  predicate Timely(cfg: Settings, fs: seq<Frame>, len: nat, n: nat, h: Helper)
    requires n <= |fs|
  {
    h.totalTime == Total(len, n) && h.lastNoisy <= EndOf(fs, n) && h.endSession >= Late(cfg, len, n)
  }

  lemma NextTimely(cfg: Settings, fs: seq<Frame>, len: nat, n: nat, g: Helper, h: Helper)
    requires SameLength(fs, len) && Spaced(fs)
    requires n < |fs| && Timely(cfg, fs, len, n, g) && Step(cfg, g, fs[n]) == Turn(h, false)
    ensures Timely(cfg, fs, len, n + 1, h)
  {
    StepTime(cfg, g, fs[n]);
  }

  /** Every frame that finds the time reached brings the session limit closer. */
  lemma {:induction false} StaysTimely(cfg: Settings, fs: seq<Frame>, len: nat, n: nat, h: Helper)
    requires SameLength(fs, len) && Spaced(fs)
    requires n <= |fs| && After(cfg, fs, n) == Turn(h, false)
    ensures Timely(cfg, fs, len, n, h)
  {
    if n > 0 {
      var m := n - 1;
      AfterNext(cfg, fs, m);
      var g := After(cfg, fs, m).helper;
      StaysTimely(cfg, fs, len, m, g);
      NextTimely(cfg, fs, len, m, g, h);
    }
  }

  lemma {:induction false} AllLate(cfg: Settings, len: nat, n: nat)
    requires len > 0 && cfg.totalAnalysisTime > 0 && n * len <= MAX_INT
    ensures n > 0 && n >= FramesNeeded(cfg, len) ==> TimeUp(cfg, len, n)
    ensures Late(cfg, len, n) >= n - FramesNeeded(cfg, len) + 1
  {
    if n > 0 {
      Monotone(n - 1, n, len);
      AllLate(cfg, len, n - 1);
      TotalIs(len, n);
      Reached(cfg, len, n);
    }
  }

  lemma LastExpires(cfg: Settings, fs: seq<Frame>, len: nat, n: nat, h: Helper)
    requires n < |fs| && SameLength(fs, len) && Timely(cfg, fs, len, n, h)
    requires TimeUp(cfg, len, n + 1) && Late(cfg, len, n) >= cfg.silentMaxSession
    ensures Step(cfg, h, fs[n]).done
  {
    ExpiredStep(cfg, h, fs[n]);
  }

  /** The analysis is over within the frames total_analysis_time needs plus
      silent_max_session further ones, whatever the frames hold, provided the
      bytes up to there fit the 32-bit total. */
  lemma Terminates(cfg: Settings, fs: seq<Frame>, len: nat)
    requires len > 0 && cfg.totalAnalysisTime > 0 && cfg.silentMaxSession >= 0 && SameLength(fs, len) && Spaced(fs)
    requires |fs| == FramesNeeded(cfg, len) + cfg.silentMaxSession && |fs| * len <= MAX_INT
    ensures After(cfg, fs, |fs|).done
  {
    var n := |fs| - 1;
    Monotone(n, n + 1, len);
    AllLate(cfg, len, n);
    AllLate(cfg, len, n + 1);
    AfterNext(cfg, fs, n);
    var t := After(cfg, fs, n);
    if !t.done {
      StaysTimely(cfg, fs, len, n, t.helper);
      LastExpires(cfg, fs, len, n, t.helper);
    }
  }

  // ---- the bound is exact: a call that is loud from its first frame ----

  function LoudFrame(cfg: Settings, len: nat, i: nat): Frame
  {
    var t := 1000 * (i + 1);
    Frame(len, Some(cfg.silentThreshold as real), Clock(t, t, t, t, t, t, t, t, t, t, t, t, t, t))
  }

  function LoudCall(cfg: Settings, len: nat, n: nat): seq<Frame>
  {
    seq(n, i requires 0 <= i < n => LoudFrame(cfg, len, i))
  }

  predicate OnlyNoise(cfg: Settings, len: nat, n: nat, h: Helper)
  {
    && (n > 0 ==> h.state == Noise) && !h.talkingMin && !h.intro
    && h.totalTime == Total(len, n) && h.endSession == Late(cfg, len, n) && h.lastNoisy == 1000 * n
  }

  lemma LoudStep(cfg: Settings, len: nat, n: nat, h: Helper) returns (r: Helper)
    requires OnlyNoise(cfg, len, n, h)
    requires TimeUp(cfg, len, n + 1) ==> Late(cfg, len, n) < cfg.silentMaxSession
    ensures Step(cfg, h, LoudFrame(cfg, len, n)) == Turn(r, false) && OnlyNoise(cfg, len, n + 1, r)
  {
    r := Step(cfg, h, LoudFrame(cfg, len, n)).helper;
  }

  lemma {:induction false} LoudGoesOn(cfg: Settings, len: nat, fs: seq<Frame>, n: nat) returns (h: Helper)
    requires n <= |fs| && fs == LoudCall(cfg, len, |fs|) && Late(cfg, len, n) <= cfg.silentMaxSession
    ensures After(cfg, fs, n) == Turn(h, false) && OnlyNoise(cfg, len, n, h)
  {
    if n == 0 {
      h := INITIAL;
    } else {
      var g := LoudGoesOn(cfg, len, fs, n - 1);
      AfterNext(cfg, fs, n - 1);
      h := LoudStep(cfg, len, n - 1, g);
    }
  }

  lemma {:induction false} LateGrows(cfg: Settings, len: nat, a: nat, b: nat)
    requires a <= b
    ensures Late(cfg, len, b) <= Late(cfg, len, a) + (b - a)
  {
    if a < b {
      LateGrows(cfg, len, a, b - 1);
    }
  }

  lemma {:induction false} NoneLate(cfg: Settings, len: nat, n: nat)
    requires forall k: nat :: 0 < k <= n ==> !TimeUp(cfg, len, k)
    ensures Late(cfg, len, n) == 0
  {
    if n > 0 {
      NoneLate(cfg, len, n - 1);
    }
  }

  lemma NotYet(cfg: Settings, len: nat, n: nat)
    requires len > 0 && 0 < cfg.totalAnalysisTime <= MAX_INT / 1000 && n < FramesNeeded(cfg, len)
    ensures !TimeUp(cfg, len, n) && n * len <= MAX_INT
  {
    Monotone(n, FramesNeeded(cfg, len) - 1, len);
    TotalIs(len, n);
  }

  /** The frame at which the total overflows. */
  lemma {:induction false} Overflow(len: nat, n: nat) returns (k: nat)
    requires 0 < len <= 0x8000_0000 && n * len > MAX_INT
    ensures 0 < k <= n && (k - 1) * len <= MAX_INT < k * len
  {
    if (n - 1) * len > MAX_INT {
      k := Overflow(len, n - 1);
    } else {
      k := n;
    }
  }

  lemma TooFewAreLate(cfg: Settings, len: nat, n: nat)
    requires 0 < len <= 0x8000_0000 && cfg.totalAnalysisTime > 0 && cfg.silentMaxSession >= 0
    requires n == FramesNeeded(cfg, len) + cfg.silentMaxSession && n * len > MAX_INT
    ensures Late(cfg, len, n) <= cfg.silentMaxSession
  {
    var first := FramesNeeded(cfg, len);
    if cfg.totalAnalysisTime > MAX_INT / 1000 {
      NeverUp(cfg, len);
      NoneLate(cfg, len, n);
    } else {
      var k := Overflow(len, n);
      assert k * len == (k - 1) * len + len;
      TotalIs(len, k);
      if k < first {
        NotYet(cfg, len, k);
        assert false;
      }
      forall i: nat | 0 < i <= first - 1 ensures !TimeUp(cfg, len, i) {
        NotYet(cfg, len, i);
      }
      NoneLate(cfg, len, first - 1);
      LateGrows(cfg, len, first - 1, k - 1);
      LateGrows(cfg, len, k, n);
    }
  }

  lemma NeverUp(cfg: Settings, len: nat)
    requires cfg.totalAnalysisTime > MAX_INT / 1000
    ensures forall n: nat :: !TimeUp(cfg, len, n)
  {
  }

  /** Below the bound fewer frames find the time reached than the limit asks for. */
  lemma FewerAreLate(cfg: Settings, len: nat, n: nat)
    requires len > 0 && cfg.totalAnalysisTime > 0 && cfg.silentMaxSession >= 0
    requires n == FramesNeeded(cfg, len) + cfg.silentMaxSession && n * len <= MAX_INT
    ensures Late(cfg, len, n - 1) <= cfg.silentMaxSession
  {
    var first := FramesNeeded(cfg, len);
    Monotone(first, n, len);
    forall i: nat | 0 < i <= first - 1 ensures !TimeUp(cfg, len, i) {
      NotYet(cfg, len, i);
    }
    NoneLate(cfg, len, first - 1);
    LateGrows(cfg, len, first - 1, n - 1);
  }

  /** No smaller number of frames is enough. */
  lemma BoundIsLeast(cfg: Settings, len: nat, n: nat)
    requires len > 0 && cfg.totalAnalysisTime > 0 && cfg.silentMaxSession >= 0
    requires n == FramesNeeded(cfg, len) + cfg.silentMaxSession && n * len <= MAX_INT
    ensures !AlwaysEnds(cfg, len, n - 1)
  {
    FewerAreLate(cfg, len, n);
    LoudCallGoesOn(cfg, len, n - 1);
  }

  ghost predicate AlwaysEnds(cfg: Settings, len: nat, n: nat)
  {
    forall fs: seq<Frame> :: |fs| == n && SameLength(fs, len) && Spaced(fs) ==> After(cfg, fs, n).done
  }

  lemma FittingEnds(cfg: Settings, len: nat, n: nat)
    requires len > 0 && cfg.totalAnalysisTime > 0 && cfg.silentMaxSession >= 0
    requires n == FramesNeeded(cfg, len) + cfg.silentMaxSession && n * len <= MAX_INT
    ensures AlwaysEnds(cfg, len, n)
  {
    forall fs: seq<Frame> | |fs| == n && SameLength(fs, len) && Spaced(fs) ensures After(cfg, fs, n).done {
      Terminates(cfg, fs, len);
    }
  }

  /** Every call ends within that many frames if and only if the bytes of that
      many frames fit the 32-bit total. */
  lemma EndsInTimeIff(cfg: Settings, len: nat, n: nat)
    requires 0 < len <= 0x8000_0000 && cfg.totalAnalysisTime > 0 && cfg.silentMaxSession >= 0
    requires n == FramesNeeded(cfg, len) + cfg.silentMaxSession
    ensures AlwaysEnds(cfg, len, n) <==> n * len <= MAX_INT
  {
    if n * len <= MAX_INT {
      FittingEnds(cfg, len, n);
    } else {
      TooFewAreLate(cfg, len, n);
      LoudCallGoesOn(cfg, len, n);
    }
  }

  lemma LoudCallGoesOn(cfg: Settings, len: nat, n: nat)
    requires Late(cfg, len, n) <= cfg.silentMaxSession
    ensures !AlwaysEnds(cfg, len, n)
  {
    var fs := LoudCall(cfg, len, n);
    var h := LoudGoesOn(cfg, len, fs, n);
    assert SameLength(fs, len) && Spaced(fs);
  }
}
