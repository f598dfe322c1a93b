/** The answering machine detector of mod_amd.c (net-voip/freeswitch/files/AMD):
    amd_function runs once per audio frame on an amd_helper. */
module Amd {

  import opened Common

  datatype Sound = Silent | Noise

  datatype Verdict = NoVerdict | TooLong | MaxCount | MaxIntro | SilentInitial | SilentAfterIntro

  datatype Status = Unknown | Person | Machine

  datatype Settings = Settings(
    silentThreshold: int,
    silentInitial: int,
    silentAfterIntro: int,
    silentMaxSession: int,
    noiseMaxIntro: int,
    noiseMinLength: int,
    noiseInterSilence: int,
    noiseMaxCount: int,
    totalAnalysisTime: int)

  /** What switch_micro_time_now returns at each place a frame may read it, in
      the order of the places. */
  datatype Clock = Clock(
    session: int, startTalking: int, talking: int, interSilence: int, intro: int, sinceSilent: int,
    sinceNoisy: int, maxIntro: int, stopTalking: int, initial: int, initialEnd: int, afterIntro: int,
    end: int, endSilent: int)

  /** One frame: its length in bytes and its mean energy, which is not a number
      for a frame without samples. */
  datatype Frame = Frame(len: nat, score: Option<real>, clock: Clock)

  predicate Noisy(cfg: Settings, f: Frame)
  {
    f.score.Some? && f.score.value >= cfg.silentThreshold as real
  }

  /** C's division of microseconds by 1000. */
  function Ms(micros: int): int
  {
    if micros >= 0 then micros / 1000 else -(-micros / 1000)
  }

  /** Assignment to a 32-bit int. */
  function Wrap32(x: int): (r: int)
    ensures -0x8000_0000 <= r < 0x8000_0000
    ensures -0x8000_0000 <= x < 0x8000_0000 ==> r == x
  {
    (x + 0x8000_0000) % 0x1_0000_0000 - 0x8000_0000
  }

  /** The part of amd_helper that decides. */
  datatype Helper = Helper(
    state: Sound,
    initial: bool,       // state_silent_initial
    intro: bool,         // state_intro
    talkingMin: bool,
    totalTime: int,
    noiseCount: nat,
    endSession: int,
    lastNoisy: int,
    lastSilent: int,
    firstNoisy: int,
    firstSilent: int,
    introSilent: int,
    verdict: Verdict,
    status: Status)

  const HANGOVER := 0
  const HANGUNDER := 0
  const DIFF_LEVEL := 400

  const INITIAL := Helper(Silent, true, false, false, 0, 0, 0, 0, 0, 0, 0, 0, NoVerdict, Unknown)

  /** `done`: the frame returned SWITCH_STATUS_FALSE. */
  datatype Turn = Turn(helper: Helper, done: bool)

  // ---- one frame on values ----

  predicate TimeReached(cfg: Settings, h: Helper, f: Frame)
  {
    Ms(Wrap32(h.totalTime + f.len)) >= cfg.totalAnalysisTime
  }

  function Step(cfg: Settings, h: Helper, f: Frame): Turn
  {
    var timed := Timed(cfg, h, f);
    if timed.done then timed else Sounded(cfg, timed.helper, f)
  }

  function Timed(cfg: Settings, h: Helper, f: Frame): Turn
  {
    var timed := h.(totalTime := Wrap32(h.totalTime + f.len));
    if !TimeReached(cfg, h, f) then Turn(timed, false)
    else if h.endSession >= cfg.silentMaxSession then
      Turn(timed.(verdict := TooLong, status := Unknown), true)
    else
      Turn(timed.(verdict := TooLong, status := Unknown,
                  endSession := h.endSession + Ms(f.clock.session - h.lastNoisy)), false)
  }

  function Sounded(cfg: Settings, h: Helper, f: Frame): Turn
  {
    if Noisy(cfg, f) then Talking(cfg, Started(h, f), f) else Quiet(cfg, Stopped(h, f), f)
  }

  function Started(h: Helper, f: Frame): Helper
  {
    if h.state == Silent then h.(state := Noise, firstNoisy := f.clock.startTalking) else h
  }

  function Stopped(h: Helper, f: Frame): Helper
  {
    if h.state == Noise then h.(state := Silent, firstSilent := f.clock.stopTalking) else h
  }

  predicate LongEnough(cfg: Settings, h: Helper, f: Frame)
  {
    Ms(f.clock.talking - h.firstNoisy) >= cfg.noiseMinLength
  }

  function Talking(cfg: Settings, h: Helper, f: Frame): Turn
  {
    if !LongEnough(cfg, h, f) then Goes(h, f)
    else
      var counted := Counted(cfg, h, f);
      if counted.done then counted else InIntro(cfg, counted.helper, f)
  }

  /** The first time in a burst that it is long enough. */
  function Counted(cfg: Settings, h: Helper, f: Frame): Turn
  {
    if !h.talkingMin then Turn(h, false)
    else
      var count :=
        if Ms(f.clock.interSilence - h.lastSilent) >= cfg.noiseInterSilence then h.noiseCount + 1 else h.noiseCount;
      var after := h.(noiseCount := count, talkingMin := false, initial := false, intro := h.initial || h.intro);
      if count >= cfg.noiseMaxCount then Turn(after.(verdict := MaxCount, status := Machine), true)
      else Turn(after, false)
  }

  function InIntro(cfg: Settings, h: Helper, f: Frame): Turn
  {
    if !h.intro then Goes(h, f)
    else
      var marked := h.(introSilent := f.clock.intro);
      if Ms(f.clock.sinceSilent - h.lastSilent) >= cfg.noiseMaxIntro then
        Turn(marked.(verdict := MaxCount, status := Machine), true)
      else if Ms(f.clock.sinceNoisy - h.lastNoisy) < cfg.noiseMaxIntro then
        Goes(marked, f)
      else if h.endSession >= cfg.silentMaxSession then
        Turn(marked.(verdict := MaxIntro, status := Machine), true)
      else
        Goes(marked.(verdict := MaxIntro, status := Machine,
                     endSession := h.endSession + Ms(f.clock.maxIntro - h.lastNoisy)), f)
  }

  predicate NobodySpoke(cfg: Settings, h: Helper, f: Frame)
  {
    h.firstSilent != 0 && h.initial && Ms(f.clock.initial - h.firstSilent) >= cfg.silentInitial
  }

  function Quiet(cfg: Settings, h: Helper, f: Frame): Turn
  {
    var person := Waited(cfg, h, f);
    if person.done then person else AfterIntro(cfg, person.helper, f)
  }

  function Waited(cfg: Settings, h: Helper, f: Frame): Turn
  {
    if !NobodySpoke(cfg, h, f) then Turn(h, false)
    else if h.endSession >= cfg.silentMaxSession then Turn(h.(verdict := SilentInitial, status := Person), true)
    else
      Turn(h.(verdict := SilentInitial, status := Person,
              endSession := h.endSession + Ms(f.clock.initialEnd - h.lastNoisy)), false)
  }

  function AfterIntro(cfg: Settings, h: Helper, f: Frame): Turn
  {
    if h.intro && Ms(f.clock.afterIntro - h.introSilent) >= cfg.silentAfterIntro then
      Turn(h.(intro := false, verdict := SilentAfterIntro, status := Person), true)
    else Goes(h, f)
  }

  /** The end of a frame without a final verdict. */
  function Goes(h: Helper, f: Frame): Turn
  {
    Turn(if h.state == Noise then h.(lastNoisy := f.clock.end)
         else h.(lastSilent := f.clock.end, talkingMin := true,
                 firstSilent := if h.firstSilent == 0 then f.clock.endSilent else h.firstSilent), false)
  }

  // ---- amd_helper itself ----

  class AmdHelper {
    const settings: Settings
    var state: Sound
    var stateSilentInitial: int
    var stateIntro: int
    var talkingMin: int
    var totalTime: int
    var totalNoiseCount: nat
    var endSession: int
    var lastNoisy: int
    var lastSilent: int
    var firstNoisy: int
    var firstSilent: int
    var introSilent: int
    var amdResult: Verdict
    var amdStatus: Status
    var hangoverHits: nat
    var hangunderHits: nat

    ghost predicate Valid()
      reads this
    {
      0 <= stateSilentInitial <= 1 && 0 <= stateIntro <= 1 && 0 <= talkingMin <= 1
    }

    ghost predicate NoHangover()
      reads this
    {
      hangoverHits == 0 && hangunderHits == 0
    }

    /** What is left of a frame when a branch returns: its end, or nothing. */
    ghost function Rest(success: bool, f: Frame): Turn
      reads this
    {
      if success then Goes(View(), f) else Turn(View(), true)
    }

    ghost function View(): Helper
      reads this
    {
      Helper(state, stateSilentInitial == 1, stateIntro == 1, talkingMin == 1, totalTime, totalNoiseCount, endSession,
             lastNoisy, lastSilent, firstNoisy, firstSilent, introSilent, amdResult, amdStatus)
    }

    constructor (settings: Settings)
      ensures Valid() && NoHangover() && View() == INITIAL && this.settings == settings
    {
      this.settings := settings;
      state, stateSilentInitial, stateIntro, talkingMin := Silent, 1, 0, 0;
      totalTime, totalNoiseCount, endSession := 0, 0, 0;
      lastNoisy, lastSilent, firstNoisy, firstSilent, introSilent := 0, 0, 0, 0, 0;
      amdResult, amdStatus, hangoverHits, hangunderHits := NoVerdict, Unknown, 0, 0;
    }

    /** amd_function: the frame does to the helper what Step says. The hangover
        counters take no part in it, and are 0 between frames. */
    method Frame(f: Frame) returns (success: bool)
      requires Valid()
      modifies this
      ensures Valid() && (old(NoHangover()) ==> NoHangover())
      ensures Turn(View(), !success) == Step(settings, old(View()), f)
    {
      success := CheckTime(f);
      if success {
        if Noisy(settings, f) {
          success := NoisyFrame(f);
        } else {
          success := SilentFrame(f);
        }
      }
      if success {
        EndFrame(f);
      }
    }

    method CheckTime(f: Frame) returns (success: bool)
      requires Valid()
      modifies this`totalTime, this`endSession, this`amdResult, this`amdStatus
      ensures Turn(View(), !success) == Timed(settings, old(View()), f)
    {
      totalTime := Wrap32(totalTime + f.len);
      if Ms(totalTime) >= settings.totalAnalysisTime {
        amdResult, amdStatus := TooLong, Unknown;
        if endSession >= settings.silentMaxSession {
          return false;
        } else {
          endSession := endSession + Ms(f.clock.session - lastNoisy);
        }
      }
      return true;
    }

    method NoisyFrame(f: Frame) returns (success: bool)
      requires Valid() && Noisy(settings, f)
      modifies this
      ensures Valid() && (old(NoHangover()) ==> NoHangover())
      ensures Rest(success, f) == Sounded(settings, old(View()), f)
    {
      success := true;
      var diff := (f.score.value - settings.silentThreshold as real).Floor;
      if hangoverHits > 0 {
        hangoverHits := hangoverHits - 1;
      }
      if diff < DIFF_LEVEL {
        hangunderHits := hangunderHits + 1;
      }
      if diff >= DIFF_LEVEL || hangunderHits >= HANGUNDER {
        hangoverHits, hangunderHits := 0, 0;
        if state == Silent {
          state := Noise;
          firstNoisy := f.clock.startTalking;
        }
        success := TalkingFrame(f);
      }
    }

    method TalkingFrame(f: Frame) returns (success: bool)
      requires Valid() && state == Noise
      modifies this
      ensures Valid() && (old(NoHangover()) ==> NoHangover())
      ensures Rest(success, f) == Talking(settings, old(View()), f)
    {
      if Ms(f.clock.talking - firstNoisy) >= settings.noiseMinLength {
        if talkingMin == 1 {
          success := CountBurst(f);
          if !success {
            return;
          }
        }
        if stateIntro == 1 {
          success := IntroFrame(f);
          return;
        }
      }
      success := true;
    }

    method CountBurst(f: Frame) returns (success: bool)
      requires Valid() && talkingMin == 1
      modifies this`totalNoiseCount, this`talkingMin, this`stateSilentInitial, this`stateIntro, this`amdResult,
               this`amdStatus
      ensures Valid()
      ensures Turn(View(), !success) == Counted(settings, old(View()), f)
    {
      if Ms(f.clock.interSilence - lastSilent) >= settings.noiseInterSilence {
        totalNoiseCount := totalNoiseCount + 1;
      }
      talkingMin := 0;
      if stateSilentInitial == 1 {
        stateSilentInitial := 0;
        stateIntro := 1;
      }
      if totalNoiseCount >= settings.noiseMaxCount {
        amdResult, amdStatus := MaxCount, Machine;
        return false;
      }
      return true;
    }

    method IntroFrame(f: Frame) returns (success: bool)
      requires Valid() && state == Noise && stateIntro == 1
      modifies this
      ensures Valid() && (old(NoHangover()) ==> NoHangover())
      ensures Rest(success, f) == InIntro(settings, old(View()), f)
    {
      introSilent := f.clock.intro;
      if Ms(f.clock.sinceSilent - lastSilent) >= settings.noiseMaxIntro {
        amdResult, amdStatus := MaxCount, Machine;
        return false;
      }
      if Ms(f.clock.sinceNoisy - lastNoisy) >= settings.noiseMaxIntro {
        amdResult, amdStatus := MaxIntro, Machine;
        if endSession >= settings.silentMaxSession {
          return false;
        } else {
          endSession := endSession + Ms(f.clock.maxIntro - lastNoisy);
        }
      }
      return true;
    }

    method SilentFrame(f: Frame) returns (success: bool)
      requires Valid() && !Noisy(settings, f)
      modifies this
      ensures Valid() && (old(NoHangover()) ==> NoHangover())
      ensures Rest(success, f) == Sounded(settings, old(View()), f)
    {
      if hangunderHits > 0 {
        hangunderHits := hangunderHits - 1;
      }
      if state == Noise {
        hangoverHits := hangoverHits + 1;
        if hangoverHits >= HANGOVER {
          hangoverHits, hangunderHits := 0, 0;
          state := Silent;
          firstSilent := f.clock.stopTalking;
        }
      }
      success := CheckInitial(f);
      if success {
        success := CheckAfterIntro(f);
      }
    }

    method CheckInitial(f: Frame) returns (success: bool)
      requires Valid()
      modifies this`endSession, this`amdResult, this`amdStatus
      ensures Turn(View(), !success) == Waited(settings, old(View()), f)
    {
      if firstSilent != 0 && stateSilentInitial == 1 && Ms(f.clock.initial - firstSilent) >= settings.silentInitial {
        amdResult, amdStatus := SilentInitial, Person;
        if endSession >= settings.silentMaxSession {
          return false;
        } else {
          endSession := endSession + Ms(f.clock.initialEnd - lastNoisy);
        }
      }
      return true;
    }

    method CheckAfterIntro(f: Frame) returns (success: bool)
      requires Valid()
      modifies this
      ensures Valid() && (old(NoHangover()) ==> NoHangover())
      ensures Rest(success, f) == AfterIntro(settings, old(View()), f)
    {
      if stateIntro == 1 && Ms(f.clock.afterIntro - introSilent) >= settings.silentAfterIntro {
        stateIntro := 0;
        amdResult, amdStatus := SilentAfterIntro, Person;
        return false;
      }
      return true;
    }

    method EndFrame(f: Frame)
      requires Valid()
      modifies this`lastNoisy, this`lastSilent, this`talkingMin, this`firstSilent
      ensures Valid()
      ensures Turn(View(), false) == Goes(old(View()), f)
    {
      if state == Noise {
        lastNoisy := f.clock.end;
      } else {
        lastSilent := f.clock.end;
        talkingMin := 1;
        if firstSilent == 0 {
          firstSilent := f.clock.endSilent;
        }
      }
    }
  }
}
