/** The frame thread and the detector threads of one avmd session, as a state
    machine whose steps are the lock-to-lock fragments of
    net-voip/freeswitch/files/mod_avmd.new.c.  Mutex owners are part of the
    state; a step that needs a mutex is enabled only while the mutex is free. */
module AvmdPool {
  import opened AvmdLayout

  /** Owner of a detector's own mutex. */
  datatype Owner = Free | ByFrame | ByDetector

  /** Owner of mutex_detectors_done. */
  datatype DonesOwner = NoOne | FrameThread | DetectorThread(who: nat)

  /** Where a detector thread stands in avmd_detector_func. */
  datatype DetectorPc =
    | LockStart                       // loop head, or woken: wants its mutex
    | Check                           // owns its mutex, tests the flags
    | Asleep                          // waits on cond_start_processing
    | Sampling(next: nat, limit: nat) // sample loop, owns nothing
    | LockDone                        // left the loop, wants its mutex
    | Publish                         // owns its mutex, label done
    | LockSignal                      // wants mutex_detectors_done
    | Signal                          // owns mutex_detectors_done
    | Exited

  datatype Detector = Detector(
    slot: Slot,
    lagged: bool,
    lag: nat,
    processingDone: bool,
    shouldExit: bool,
    result: Mode,
    samples: nat,
    // thread state
    mutex: Owner,
    pc: DetectorPc,
    res: Mode,              // the local variable that outlives the rounds
    evaluated: set<nat>)    // samples evaluated since the last dispatch

  /** The three places that wait for the detectors. */
  datatype Phase = Entry | Round | Closing

  /** Where the frame thread stands: between calls, in avmd_process or in
      avmd_session_close. */
  datatype FramePc =
    | Idle
    | LockDones(phase: Phase)
    | ScanLock(phase: Phase, i: nat)  // owns dones, scan index i
    | ScanRead(phase: Phase, i: nat)  // owns dones and detector i
    | BeginWait(phase: Phase)         // owns dones, the scan said "in progress"
    | FrameAsleep(phase: Phase)       // waits on cond_detectors_done
    | Decide                          // the tests that return early
    | Insert                          // writes the frame into the shared buffer
    | DispatchLock(i: nat)
    | DispatchSet(i: nat)             // owns detector i
    | CloseLock(i: nat)
    | CloseSet(i: nat)                // owns detector i
    | Join(i: nat)
    | Closed

  datatype Pool = Pool(
    plain: nat,             // detectors_n; the lagged ones follow
    dets: seq<Detector>,
    frame: FramePc,
    dones: DonesOwner,
    beep: bool,
    events: seq<nat>,       // index of the detector of each beep event
    frameN: nat,
    toSkip: nat,
    frameSamples: nat)      // frame->samples of the current call

  /** One scheduling decision with the choice the environment makes in it. */
  datatype Action =
    | ProcessCall(samples: nat)
    | CloseCall
    | FrameStep
    | FrameSpurious
    | DetectorStep(who: nat, outcome: Mode)
    | DetectorSpurious(dozer: nat)

  const AVMD_P: nat := 5
  const UINT32: nat := 0x1_0000_0000

  /** Scan and dispatch indices are 8 bits wide. */
  function Next8(i: nat): nat
  {
    if i + 1 == 256 then 0 else i + 1
  }

  /** The index after k turns of a loop `for (i = 0; i < total; ++i)`. */
  function Index8(k: nat): nat
  {
    if k == 0 then 0 else Next8(Index8(k - 1))
  }

  lemma {:induction false} Index8Is(k: nat)
    ensures Index8(k) <= 255 && (k <= 255 ==> Index8(k) == k)
  {
    if k > 0 {
      Index8Is(k - 1);
    }
  }

  /** Such a loop leaves its range exactly if there are at most 255 detectors. */
  lemma ScanEndsIff(total: nat)
    ensures (exists k: nat :: Index8(k) >= total) <==> total <= 255
  {
    forall k: nat ensures Index8(k) <= 255 {
      Index8Is(k);
    }
    if total <= 255 {
      Index8Is(total);
    }
  }

  /** Samples dispatched for a frame: the first one gives up AVMD_P of them, in
      unsigned 32-bit arithmetic. */
  function RoundSamples(frameN: nat, samples: nat): nat
  {
    if frameN > 0 then samples
    else if samples >= AVMD_P then samples - AVMD_P
    else samples + UINT32 - AVMD_P
  }

  /** The lowest index from `i` on whose detector has a result. */
  function FirstResult(dets: seq<Detector>, i: nat): nat
    decreases |dets| - i
  {
    if i >= |dets| || dets[i].result != Nothing then i else FirstResult(dets, i + 1)
  }

  predicate FrameOwnsDones(f: FramePc)
  {
    f.ScanLock? || f.ScanRead? || f.BeginWait?
  }

  predicate FrameOwns(f: FramePc, i: nat)
  {
    (f.ScanRead? || f.DispatchSet? || f.CloseSet?) && f.i == i
  }

  // ------------------------------------------------------------------------
  // Steps

  predicate FrameEnabled(s: Pool)
  {
    match s.frame
    case Idle => false
    case LockDones(_) => s.dones == NoOne
    case ScanLock(_, i) => i < |s.dets| ==> s.dets[i].mutex == Free
    case ScanRead(_, i) => i < |s.dets|
    case BeginWait(_) => true
    case FrameAsleep(_) => false
    case Decide => true
    case Insert => true
    case DispatchLock(i) => i < |s.dets| ==> s.dets[i].mutex == Free
    case DispatchSet(i) => i < |s.dets|
    case CloseLock(i) => i < |s.dets| ==> s.dets[i].mutex == Free
    case CloseSet(i) => i < |s.dets|
    case Join(i) => i < |s.dets| && s.dets[i].pc == Exited
    case Closed => false
  }

  predicate DetectorEnabled(s: Pool, i: nat)
  {
    i < |s.dets| &&
    match s.dets[i].pc
    case LockStart => s.dets[i].mutex == Free
    case LockDone => s.dets[i].mutex == Free
    case LockSignal => s.dones == NoOne
    case Asleep => false
    case Exited => false
    case _ => true
  }

  predicate Enabled(s: Pool, a: Action)
  {
    match a
    case ProcessCall(samples) => s.frame == Idle && samples < UINT32
    case CloseCall => s.frame == Idle
    case FrameStep => FrameEnabled(s)
    case FrameSpurious => s.frame.FrameAsleep?
    case DetectorStep(i, _) => DetectorEnabled(s, i)
    case DetectorSpurious(i) => i < |s.dets| && s.dets[i].pc == Asleep
  }

  /** Signalling a condition variable wakes its one possible waiter, if any. */
  function WokenDetector(pc: DetectorPc): DetectorPc
  {
    if pc == Asleep then LockStart else pc
  }

  function WokenFrame(f: FramePc): FramePc
  {
    if f.FrameAsleep? then LockDones(f.phase) else f
  }

  /** avmd_detection_result, then the bookkeeping at the end of avmd_process. */
  function EndRound(s: Pool): Pool
  {
    var first := FirstResult(s.dets, 0);
    var s' := if first < |s.dets| then s.(beep := true, events := s.events + [first]) else s;
    s'.(dones := NoOne, frame := Idle, frameN := s.frameN + 1)
  }

  /** The scan reached its end without finding a detector in progress. */
  function AfterScan(s: Pool, phase: Phase): Pool
  {
    match phase
    case Entry => s.(dones := NoOne, frame := Decide)
    case Round => EndRound(s)
    case Closing => s.(dones := NoOne, frame := CloseLock(0))
  }

  function Dispatched(d: Detector, samples: nat): Detector
  {
    if d.result == Nothing then
      d.(processingDone := false, shouldExit := false, samples := samples, evaluated := {},
         mutex := Free, pc := WokenDetector(d.pc))
    else
      d.(mutex := Free)
  }

  function ToldToExit(d: Detector): Detector
  {
    d.(processingDone := false, shouldExit := true, samples := 0,
       mutex := Free, pc := WokenDetector(d.pc))
  }

  function WithDetector(s: Pool, i: nat, d: Detector): Pool
    requires i < |s.dets|
  {
    s.(dets := s.dets[i := d])
  }

  function StepFrame(s: Pool): Pool
    requires FrameEnabled(s)
  {
    match s.frame
    case LockDones(ph) => s.(dones := FrameThread, frame := ScanLock(ph, 0))
    case ScanLock(ph, i) =>
      if i < |s.dets| then
        WithDetector(s, i, s.dets[i].(mutex := ByFrame)).(frame := ScanRead(ph, i))
      else
        AfterScan(s, ph)
    case ScanRead(ph, i) =>
      WithDetector(s, i, s.dets[i].(mutex := Free))
        .(frame := if s.dets[i].processingDone then ScanLock(ph, Next8(i)) else BeginWait(ph))
    case BeginWait(ph) => s.(dones := NoOne, frame := FrameAsleep(ph))
    case Decide =>
      if s.beep then s.(frame := Idle)
      else if s.toSkip > 0 then s.(toSkip := s.toSkip - 1, frame := Idle)
      else s.(frame := Insert)
    case Insert => s.(frame := DispatchLock(0))
    case DispatchLock(i) =>
      if i < |s.dets| then
        WithDetector(s, i, s.dets[i].(mutex := ByFrame)).(frame := DispatchSet(i))
      else
        s.(frame := LockDones(Round))
    case DispatchSet(i) =>
      WithDetector(s, i, Dispatched(s.dets[i], RoundSamples(s.frameN, s.frameSamples)))
        .(frame := DispatchLock(Next8(i)))
    case CloseLock(i) =>
      if i < |s.dets| then
        WithDetector(s, i, s.dets[i].(mutex := ByFrame)).(frame := CloseSet(i))
      else
        s.(frame := Closed)
    case CloseSet(i) => WithDetector(s, i, ToldToExit(s.dets[i])).(frame := Join(i))
    case Join(i) => s.(frame := CloseLock(Next8(i)))
  }

  /** A detector's part of a step: its new fields. `outcome` is what
      avmd_process_sample would return for the sample at hand. */
  function StepSelf(d: Detector, outcome: Mode): Detector
    requires d.slot.resolution > 0
  {
    match d.pc
    case LockStart => d.(mutex := ByDetector, pc := Check)
    case Check =>
      if d.processingDone && !d.shouldExit then d.(mutex := Free, pc := Asleep)
      else if d.shouldExit then d.(processingDone := true, mutex := Free, pc := Exited)
      else if d.lagged && d.lag > 0 then d.(lag := d.lag - 1, pc := Publish)
      else d.(mutex := Free, pc := Sampling(1, d.samples))
    case Sampling(k, limit) =>
      if k > limit then d.(pc := LockDone)
      else if Mine(d.slot, k) then
        d.(res := outcome, evaluated := d.evaluated + {k},
           pc := if outcome != Nothing then LockDone else Sampling(k + 1, limit))
      else d.(pc := Sampling(k + 1, limit))
    case LockDone => d.(mutex := ByDetector, pc := Publish)
    case Publish => d.(processingDone := true, result := d.res, mutex := Free, pc := LockSignal)
    case LockSignal => d.(pc := Signal)
    case Signal => d.(pc := LockStart)
    case Asleep => d
    case Exited => d
  }

  function StepDetector(s: Pool, i: nat, outcome: Mode): Pool
    requires DetectorEnabled(s, i) && s.dets[i].slot.resolution > 0
  {
    var d := s.dets[i];
    var s' := WithDetector(s, i, StepSelf(d, outcome));
    if d.pc == LockSignal then s'.(dones := DetectorThread(i))
    else if d.pc == Signal then s'.(dones := NoOne, frame := WokenFrame(s.frame))
    else s'
  }

  predicate SlotsOk(s: Pool)
  {
    forall i :: 0 <= i < |s.dets| ==> s.dets[i].slot.resolution > 0
  }

  function Step(s: Pool, a: Action): Pool
    requires SlotsOk(s) && Enabled(s, a)
  {
    match a
    case ProcessCall(samples) => s.(frameSamples := samples, frame := LockDones(Entry))
    case CloseCall => s.(frame := LockDones(Closing))
    case FrameStep => StepFrame(s)
    case FrameSpurious => s.(frame := WokenFrame(s.frame))
    case DetectorStep(i, outcome) => StepDetector(s, i, outcome)
    case DetectorSpurious(i) => WithDetector(s, i, s.dets[i].(pc := LockStart))
  }

  // ------------------------------------------------------------------------
  // Start and runs

  /** Detector `i` of a session that avmd_start_app has just launched. */
  predicate Launched(d: Detector, plain: nat, i: nat)
  {
    && d.lagged == (i >= plain)
    && (i < plain ==> At(d.slot, i) && d.lag == 0)
    && (i >= plain ==> d.slot == Slot(1, 0) && d.lag == i - plain + 1)
    && d.processingDone && !d.shouldExit && d.result == Nothing && d.samples == 0
    && d.mutex == Free && d.pc == LockStart && d.res == Nothing && d.evaluated == {}
  }

  predicate Init(s: Pool)
  {
    && s.plain <= |s.dets| < 256
    && (forall i :: 0 <= i < |s.dets| ==> Launched(s.dets[i], s.plain, i))
    && s.frame == Idle && s.dones == NoOne && !s.beep && s.events == []
    && s.frameN == 0 && s.toSkip == 0
  }

  /** `trace` lists the states of a run: every step is one enabled action. */
  ghost predicate Run(trace: seq<Pool>, actions: seq<Action>)
  {
    && |trace| == |actions| + 1
    && forall k :: 0 <= k < |actions| ==> StepBetween(trace[k], actions[k], trace[k + 1])
  }

  predicate StepBetween(s: Pool, a: Action, s': Pool)
  {
    SlotsOk(s) && Enabled(s, a) && s' == Step(s, a)
  }

  // ------------------------------------------------------------------------
  // The loops that set a session up

  /** The session object as far as the set-up loops use it. */
  class Session {
    const plain: nat
    const laggedN: nat
    const detectors: array<Detector>

    constructor (plain: nat, laggedN: nat)
      requires plain + laggedN < 256
      ensures this.plain == plain && this.laggedN == laggedN
      ensures detectors.Length == plain + laggedN && fresh(detectors)
    {
      this.plain := plain;
      this.laggedN := laggedN;
      detectors := new Detector[plain + laggedN](
        _ => Detector(Slot(0, 0), false, 0, false, false, Nothing, 0, Free, LockStart, Nothing, {}));
    }

    /** The detector loops of init_avmd_session_data. */
    method InitDetectors()
      requires detectors.Length == plain + laggedN < 256
      modifies detectors
      ensures forall i :: 0 <= i < plain ==> At(detectors[i].slot, i)
      ensures forall i :: plain <= i < detectors.Length ==> detectors[i].slot == Slot(1, 0)
      ensures forall i :: 0 <= i < detectors.Length ==>
        detectors[i] == old(detectors[i]).(slot := detectors[i].slot, processingDone := true, shouldExit := true)
    {
      var idx, resolution := 0, 0;
      while idx < plain
        invariant idx <= plain && resolution <= idx
        invariant idx < plain ==> idx == Below(resolution + 1)
        invariant forall i :: 0 <= i < idx ==> At(detectors[i].slot, i)
        invariant forall i :: 0 <= i < detectors.Length ==>
          detectors[i] == if i < idx then Prepared(old(detectors[i]), detectors[i].slot) else old(detectors[i])
      {
        resolution := resolution + 1;
        BelowStep(resolution);
        var offset := 0;
        while offset < resolution && idx < plain
          invariant offset <= resolution <= idx + 1
          invariant offset > 0 ==> resolution <= idx
          invariant idx <= plain && idx == Below(resolution) + offset
          invariant forall i :: 0 <= i < idx ==> At(detectors[i].slot, i)
          invariant forall i :: 0 <= i < detectors.Length ==>
            detectors[i] == if i < idx then Prepared(old(detectors[i]), detectors[i].slot) else old(detectors[i])
          decreases plain - idx
        {
          detectors[idx] := Prepared(detectors[idx], Slot(resolution, offset));
          offset := offset + 1;
          idx := idx + 1;
        }
      }
      idx := 0;
      while idx < laggedN
        invariant idx <= laggedN
        invariant forall i :: 0 <= i < plain ==> At(detectors[i].slot, i)
        invariant forall i :: plain <= i < plain + idx ==> detectors[i].slot == Slot(1, 0)
        invariant forall i :: 0 <= i < detectors.Length ==>
          detectors[i] == if i < plain + idx then Prepared(old(detectors[i]), detectors[i].slot) else old(detectors[i])
      {
        detectors[plain + idx] := Prepared(detectors[plain + idx], Slot(1, 0));
        idx := idx + 1;
      }
    }

    function Prepared(d: Detector, slot: Slot): Detector
    {
      d.(slot := slot, processingDone := true, shouldExit := true)
    }

    /** avmd_launch_threads: after it the pool is in its initial state. */
    method LaunchThreads()
      requires detectors.Length == plain + laggedN < 256
      requires forall i :: 0 <= i < plain ==> At(detectors[i].slot, i)
      requires forall i :: plain <= i < detectors.Length ==> detectors[i].slot == Slot(1, 0)
      modifies detectors
      ensures Init(Pool(plain, detectors[..], Idle, NoOne, false, [], 0, 0, 0))
    {
      var idx := 0;
      while idx < plain
        invariant idx <= plain
        invariant forall i :: 0 <= i < idx ==> Launched(detectors[i], plain, i)
        invariant forall i :: idx <= i < detectors.Length ==> detectors[i] == old(detectors[i])
      {
        detectors[idx] := Started(detectors[idx].slot, false, 0);
        idx := idx + 1;
      }
      idx := 0;
      while idx < laggedN
        invariant idx <= laggedN
        invariant forall i :: 0 <= i < plain + idx ==> Launched(detectors[i], plain, i)
        invariant forall i :: plain + idx <= i < detectors.Length ==> detectors[i] == old(detectors[i])
      {
        detectors[plain + idx] := Started(detectors[plain + idx].slot, true, idx + 1);
        idx := idx + 1;
      }
    }

    /** A detector with its flags reset and its thread at the start of avmd_detector_func. */
    function Started(slot: Slot, lagged: bool, lag: nat): Detector
    {
      Detector(slot, lagged, lag, true, false, Nothing, 0, Free, LockStart, Nothing, {})
    }
  }
}
