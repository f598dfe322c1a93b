# FreeSWITCH modules: model and proofs

Dafny models of the algorithms inside the FreeSWITCH modules that this overlay
ships, and proofs of what they guarantee. `dafny verify dfyconfig.toml` checks
all of it.

**Beep detection (`mod_avmd.new.c`).** A frame thread hands audio frames to any
number of detector threads and waits for them. `AvmdPool` is a state machine
whose steps are the fragments between two lock operations: every detector mutex,
the common mutex, both kinds of condition variable, spurious wake-ups and the
scan "is anybody still working?", which locks the detectors one at a time, are in
the state. `AvmdPoolInvariant` proves what each step keeps, `AvmdPoolSafety` the
guarantees of every reachable state, and `AvmdPoolTermination` that every call
returns, by a rank that bounds the steps of all threads together.
`AvmdPoolLagged` says which rounds the lagged detectors sit out.
`AvmdLayout` is about the triangular layout by resolution and offset and which
samples a detector evaluates, `AvmdStreak` about the streak counters of one
detector. `AvmdEndToEnd` puts the two together: what a beep event says about the
samples its detector evaluated, under every interleaving.

**Audio over a websocket (`mod_audio_fork`).** `PipeService` is the state machine
of any number of pipes and service threads: API calls, libwebsockets callbacks and
the sections under the three list mutexes interleave freely. Sockets and pipes
have identities; a step is one callback, one API call or one locked section, and
each pipe records its notifications and the text it took and sent.
`PipeServiceInvariant` and `PipeServiceSafety` prove the invariant and the
properties of all runs, `PipeServiceClose` when a close can be carried through,
`PipeServiceProgress` that every schedule then does so, `PipeServiceConnects` and
`PipeServiceOneThread` which connection attempts are reported; `PipeServiceScenarios`
has the runs that show the exceptions. `PipeReceive` is the reassembly of fragmented
messages in the growing receive buffer, `PipeAudio` the audio buffer between the
media thread and the socket, `WsUri` the URI parser with the meaning of its regular
expression (shortest host that lets the rest match), `Base64` the codec.

**Answering machine detection (`mod_amd.c`).** `Amd` has the helper object with its
per-frame method, proved equal to a step on values. `AmdRuns` says what the counters
and verdicts mean in terms of the whole sequence of frames (bursts, silences and
clock readings), `AmdVerdicts` likewise for the three verdicts that also wait for the
session counter, which is a sum over those frames, `AmdTermination` how many frames an analysis can take, with the
32-bit time total. Every place of a frame that reads the clock has its own reading.

**Redialling (`mod_ytel_dial.c`).** `Redial` has the dial loop with its two rotating
positions and the release of the peer session.

## Results worth knowing

- A close that took effect can be completed by the service threads if and only if
  no graceful shutdown is on, or the socket had been given up already
  (`PipeServiceClose.CloseCompletesIff`): after do_graceful_shutdown every WRITEABLE
  callback returns early, and the pipe is left to the far end
  (`StuckUntilFarEnd`, `CloseCanBeLeftToFarEnd`). Without one, every schedule of the
  service threads completes the close (`PipeServiceProgress.EveryScheduleCloses`).
- An outcome can miss its pipe if and only if there are two service threads or more
  (`PipeServiceOneThread.OutcomeMissesIff`): the outcome for one pipe removes the entries
  queued before it whose socket is still null (`PipeServiceConnects.OutcomeRemoves`),
  and a pipe so removed is never notified (`LostStaysSilent`). With one thread an
  attempt that has a socket is never lost (`OneThreadLosesNoSocket`); an attempt that came
  back without a socket, and without a callback, can be, for any number of threads
  (`SilentFailureCanBeLost`).
- A text message over MAX_RECV_BUF_SIZE is meant to be discarded, but is not always
  (`PipeReceive.OversizedDiscardedIff`). One whose whole length its first fragment
  announces, as any unfragmented message does, gets a buffer of that length at once
  and is delivered whole (`AnnouncedArrives`); of any other, the bytes that arrive
  after the last time the buffer is dropped are delivered as a message of their own
  (`MessageRaises`).
- In amplitude-only mode a beep detector can fire if and only if its resolution
  exceeds the beep length in samples, because the decision also asks for the length
  of the frequency average (`AvmdStreak.AmpModeDetectsIff`).
- The time limit of the answering machine detector holds if and only if the bytes of
  the frames up to it fit an `int` (`AmdTermination.EndsInTimeIff`), and is then the
  least such limit (`BoundIsLeast`).
- The answering machine detector also reports max-count when the intro is too long
  (`AmdRuns.MaxCountIff`, `MaxCountWithoutBursts`), and never reports a machine for a
  call that is noisy from its first frame on (`AmdRuns.ConstantNoiseTimesOut`).
- With an even number of destinations half of the caller-id and destination pairs are
  never dialled (`Redial.EvenTriesEqualParity`).
- A host that ends in a digit loses its last digits to the port when no port is
  given (`WsUri.PrintedWithoutPort`).

## Model

| member | source | states |
|---|---|---|
| AvmdLayout.SlotUnique | net-voip/freeswitch/files/mod_avmd.new.c:473-494 | index r(r-1)/2 + o with o < r determines resolution and offset |
| AvmdPool.Session.InitDetectors | net-voip/freeswitch/files/mod_avmd.new.c:473-512 | the two set-up loops put detector i at the slot of the triangle with index i, and every lagged detector at (1, 0), flags set |
| AvmdPool.Session.LaunchThreads | net-voip/freeswitch/files/mod_avmd.new.c:288-336 | after the launch loops the pool is in the initial state of the state machine, lags counting from 1 |
| AvmdPool.ScanEndsIff | net-voip/freeswitch/files/mod_avmd.new.c:2020-2031 | the 8-bit index of the detector loops leaves its range if and only if there are at most 255 detectors |
| AvmdLayout.ShareSize | net-voip/freeswitch/files/mod_avmd.new.c:2281-2290 | a detector of resolution r and offset o takes exactly (S + o) div r of S samples |
| AvmdLayout.SampleCoveredOnce | net-voip/freeswitch/files/mod_avmd.new.c:473-494 | each sample falls to exactly one detector of every fully allocated resolution |
| AvmdLayout.Hermite | net-voip/freeswitch/files/mod_avmd.new.c:2281-2290 | the shares of the r detectors of one resolution sum to S |
| AvmdLayout.TriangleWork | net-voip/freeswitch/files/mod_avmd.new.c:2281-2290 | k(k+1)/2 detectors have exactly k*S evaluations for S samples |
| AvmdPoolInvariant.InitHolds | net-voip/freeswitch/files/mod_avmd.new.c:288-336 | a launched session satisfies the invariant |
| AvmdPoolInvariant.StepKeeps | net-voip/freeswitch/files/mod_avmd.new.c:2053-2117 | every step of every thread keeps the invariant |
| AvmdPoolSafety.NoLostWakeup | net-voip/freeswitch/files/mod_avmd.new.c:2061-2065 | while the frame thread sleeps some detector is still at work or has its signal still to send |
| AvmdPoolSafety.FrameThreadSleeps | net-voip/freeswitch/files/mod_avmd.new.c:2101-2104 | the wait in a round is reached by some run |
| AvmdPoolSafety.SleeperHasNoWork | net-voip/freeswitch/files/mod_avmd.new.c:2258-2265 | a detector asleep on its start condition has done = 1 and exit = 0 |
| AvmdPoolSafety.OnlyRoundsAreWaitedFor | net-voip/freeswitch/files/mod_avmd.new.c:2061-2065 | the waits before a frame and before closing never block; only a round is waited for |
| AvmdPoolSafety.NoDeadlock | net-voip/freeswitch/files/mod_avmd.new.c:2053-2106 | between call and return some thread can always run, spurious wake-ups aside |
| AvmdPoolSafety.DoneFallsOnlyByFrame | net-voip/freeswitch/files/mod_avmd.new.c:2087-2099 | the done flag goes from 1 to 0 only by the frame thread |
| AvmdPoolSafety.InsertIsExclusive | net-voip/freeswitch/files/mod_avmd.new.c:2061-2084 | when a frame is inserted no detector is inside its sample loop, although the scan is not atomic |
| AvmdPoolSafety.CloseIsClean | net-voip/freeswitch/files/mod_avmd.new.c:524-559 | from the start of closing no detector evaluates a sample, and at its end all left by the exit branch |
| AvmdPoolSafety.BeepIffResult | net-voip/freeswitch/files/mod_avmd.new.c:2034-2047 | between calls the state is detected exactly if some detector has a result; the one event comes from the lowest such detector |
| AvmdPoolSafety.OneBeepPerSession | net-voip/freeswitch/files/mod_avmd.new.c:2067-2069 | at most one event per session; after it no frame is inserted and no detector dispatched |
| AvmdPoolSafety.RoundShares | net-voip/freeswitch/files/mod_avmd.new.c:2245-2306 | in a round without detection every plain detector evaluated exactly its share, under every interleaving |
| AvmdPoolSafety.RoundCoversOnce | net-voip/freeswitch/files/mod_avmd.new.c:2281-2290 | then each sample was evaluated by exactly one detector of each fully allocated resolution |
| AvmdPoolSafety.RoundWork | net-voip/freeswitch/files/mod_avmd.new.c:2281-2290 | then k(k+1)/2 detectors made exactly k evaluations per sample |
| AvmdPoolTermination.StepsAreBounded | net-voip/freeswitch/files/mod_avmd.new.c:2053-2117 | the steps of all threads are bounded by a rank plus a cost per spurious wake-up |
| AvmdPoolTermination.EveryCallReturns | net-voip/freeswitch/files/mod_avmd.new.c:2053-2117 | a run without spurious wake-ups is finite, and when nothing can run the call has returned |
| AvmdStreak.StreakBuffer.ProcessSample | net-voip/freeswitch/files/mod_avmd.new.c:2123-2242 | the counters always mean trailing runs or totals of the samples seen, and the result is the verdict on that history |
| AvmdStreak.StreakBuffer.DecisionAmplitude | net-voip/freeswitch/files/mod_avmd.new.c:1916-1934 | in terms of the samples seen: passes exactly if the last amplitudes were valid in a row (or two in all), the frequency average is as long as a beep, and the tests pass |
| AvmdStreak.StreakBuffer.DecisionFreq | net-voip/freeswitch/files/mod_avmd.new.c:1936-1959 | in terms of the samples seen: passes exactly if the last max(n+1, beep length) omegas were valid (or enough in all) and the tests pass |
| AvmdStreak.StreakPlusLength | net-voip/freeswitch/files/mod_avmd.new.c:2150-2242 | whatever samples came, each streak field of a detector's buffer is 0 or adds up with its average's length to the required streak |
| AvmdStreak.MissingMeansShort | net-voip/freeswitch/files/mod_avmd.new.c:2150-2242 | while a streak counter is above zero the length gate fails as well |
| AvmdStreak.FreqDetectedIff | net-voip/freeswitch/files/mod_avmd.new.c:1936-1959 | a frequency is detected exactly if the last max(n+1, beep length) samples were all valid and the tests pass |
| AvmdStreak.BothDetectedIff | net-voip/freeswitch/files/mod_avmd.new.c:2226-2242 | in both-mode the amplitude needs its own unbroken streak too |
| AvmdStreak.AmpModeDetectsIff | net-voip/freeswitch/files/mod_avmd.new.c:1921-1923 | amplitude-only mode can detect if and only if the resolution exceeds rate/500 |
| AvmdStreak.SkippingNeverEnds | net-voip/freeswitch/files/mod_avmd.new.c:2123-2150 | with sample_n_to_skip above zero all four counters are still 0 after any number of samples |
| AvmdPoolLagged.LaggedSitsOut | net-voip/freeswitch/files/mod_avmd.new.c:2273-2279 | lagged detector j (from 0) sits out exactly its first j + 1 rounds and evaluates every sample of each later round without a detection |
| AvmdEndToEnd.BeepHasVerdict | net-voip/freeswitch/files/mod_avmd.new.c:2281-2295 | a beep event names a detector whose verdict, on exactly the samples it evaluated, was a detection |
| AvmdEndToEnd.BeepMeansCleanSamples | net-voip/freeswitch/files/mod_avmd.new.c:1936-1959 | under every interleaving a beep event with continuous streaks required means that the last max(n+1, beep length) samples its detector evaluated were valid |
| PipeService.FindAndRemovePendingConnect | net-voip/freeswitch/files/mod_audio_fork/audio_pipe.cpp:324-347 | finds the first connecting entry with the socket; removes it and the null-socket entries before it |
| PipeService.MarkIdle | net-voip/freeswitch/files/mod_audio_fork/audio_pipe.cpp:277-287 | takes each idle entry once and marks it connecting |
| PipeServiceInvariant.StepKeeps | net-voip/freeswitch/files/mod_audio_fork/audio_pipe.cpp:40-255 | every callback, API call and locked section keeps the invariant, for any number of pipes and threads |
| PipeServiceSafety.NotificationOrder | net-voip/freeswitch/files/mod_audio_fork/audio_pipe.cpp:79-130 | each pipe's events are a prefix of CONNECT_FAIL, or of CONNECT_SUCCESS MESSAGE* and one closing event |
| PipeServiceSafety.GracefulIffClosed | net-voip/freeswitch/files/mod_audio_fork/audio_pipe.cpp:106-129 | the connection ends gracefully exactly if close() had found the pipe connected |
| PipeServiceSafety.EventsOnlyGrow | net-voip/freeswitch/files/mod_audio_fork/audio_pipe.cpp:79-130 | after a closing event or a failure there are no more events |
| PipeServiceSafety.ConnectsOnce | net-voip/freeswitch/files/mod_audio_fork/audio_pipe.cpp:493-517 | connect_client runs at most once per pipe and its m_vhd assertion holds |
| PipeServiceSafety.PendingConnectsAreYoung | net-voip/freeswitch/files/mod_audio_fork/audio_pipe.cpp:277-292 | every pipe in pendingConnects is idle or connecting |
| PipeServiceConnects.OutcomeReportedIff | net-voip/freeswitch/files/mod_audio_fork/audio_pipe.cpp:79-105 | the outcome of an attempt reaches its pipe exactly if the pipe is still queued |
| PipeServiceConnects.OutcomeRemoves | net-voip/freeswitch/files/mod_audio_fork/audio_pipe.cpp:324-347 | exactly the found entry and the null-socket entries queued before it are removed |
| PipeServiceOneThread.OneThreadKeepsPipes | net-voip/freeswitch/files/mod_audio_fork/audio_pipe.cpp:277-347 | with one service thread every pipe waiting for an outcome is still queued when it comes |
| PipeServiceOneThread.OneThreadReports | net-voip/freeswitch/files/mod_audio_fork/audio_pipe.cpp:79-105 | so with one thread every outcome is reported to its pipe |
| PipeServiceOneThread.OutcomeMissesIff | net-voip/freeswitch/files/mod_audio_fork/audio_pipe.cpp:324-347 | a run in which an outcome misses its pipe exists if and only if there are two threads or more |
| PipeServiceOneThread.OneThreadLosesNoSocket | net-voip/freeswitch/files/mod_audio_fork/audio_pipe.cpp:324-347 | with one thread a connecting pipe that was dropped from the list never had a socket |
| PipeServiceOneThread.SilentFailureCanBeLost | net-voip/freeswitch/files/mod_audio_fork/audio_pipe.cpp:324-347 | for any number of threads from one on an attempt that came back without a socket can be dropped unreported |
| PipeServiceConnects.LostStaysSilent | net-voip/freeswitch/files/mod_audio_fork/audio_pipe.cpp:79-105 | a pipe dropped while connecting is never notified afterwards |
| PipeServiceSafety.TextConserved | net-voip/freeswitch/files/mod_audio_fork/audio_pipe.cpp:207-226 | text sent followed by m_metadata equals all text appended |
| PipeServiceSafety.LocalCloseIsComplete | net-voip/freeswitch/files/mod_audio_fork/audio_pipe.cpp:228-231 | once the local close is done all text ever accepted has been sent, and none is accepted later |
| PipeServiceSafety.GracefulStopsSending | net-voip/freeswitch/files/mod_audio_fork/audio_pipe.cpp:199-205 | after do_graceful_shutdown no text is sent and the local close is never performed |
| PipeServiceSafety.NoWriteIsLost | net-voip/freeswitch/files/mod_audio_fork/audio_pipe.cpp:309-322 | waiting text or audio is always queued, about to be served, or asked of the socket |
| PipeServiceSafety.NoCloseIsLost | net-voip/freeswitch/files/mod_audio_fork/audio_pipe.cpp:294-307 | so is a close that took effect |
| PipeServiceClose.CloseCompletesIff | net-voip/freeswitch/files/mod_audio_fork/audio_pipe.cpp:199-231 | service-thread steps, the far end closing excluded, can complete a close that took effect if and only if no graceful shutdown is on or the socket was given up already; from an open socket all text is sent and the local close performed |
| PipeServiceProgress.ServiceStepsAreBounded | net-voip/freeswitch/files/mod_audio_fork/audio_pipe.cpp:294-307 | the steps that carry closes through, of all service threads together, are bounded by a rank of the state |
| PipeServiceProgress.EveryScheduleCloses | net-voip/freeswitch/files/mod_audio_fork/audio_pipe.cpp:199-231 | so every schedule of those steps ends, and when none is left a close without graceful shutdown is complete, all text sent |
| PipeServiceClose.StuckUntilFarEnd | net-voip/freeswitch/files/mod_audio_fork/audio_pipe.cpp:199-205 | a pipe shut down gracefully, asked to close and still connected stays so in every run until the far end closes |
| PipeServiceClose.CloseCanBeLeftToFarEnd | net-voip/freeswitch/files/mod_audio_fork/audio_pipe.cpp:533-541 | for any number of threads a reached pipe of that kind |
| PipeReceive.Receiver.Receive | net-voip/freeswitch/files/mod_audio_fork/audio_pipe.cpp:132-188 | one callback does to the buffer what the value model says, every copy within the capacity |
| PipeReceive.DeliveredIff | net-voip/freeswitch/files/mod_audio_fork/audio_pipe.cpp:145-187 | a message is delivered once and whole if and only if it fits the largest capacity its first allocation can grow to |
| PipeReceive.ShortMessagesArrive | net-voip/freeswitch/files/mod_audio_fork/audio_pipe.cpp:8-9 | every message of at most 657408 bytes arrives, whatever the fragmentation and announced rest |
| PipeReceive.MessageRaises | net-voip/freeswitch/files/mod_audio_fork/audio_pipe.cpp:153-187 | every message, oversized or not, raises itself if nothing was dropped, and otherwise what arrived after the last drop |
| PipeReceive.AnnouncedArrives | net-voip/freeswitch/files/mod_audio_fork/audio_pipe.cpp:145-151 | a message whose length the first fragment announces is delivered whole, however long |
| PipeReceive.OversizedDiscardedIff | net-voip/freeswitch/files/mod_audio_fork/audio_pipe.cpp:7-9 | a message over MAX_RECV_BUF_SIZE raises nothing if and only if it exceeds its first allocation and no bytes follow the last drop |
| PipeReceive.MessageCapacity | net-voip/freeswitch/files/mod_audio_fork/audio_pipe.cpp:153-171 | the capacity never exceeds the larger of the first allocation and the maximum |
| PipeReceive.NullBetweenMessages | net-voip/freeswitch/files/mod_audio_fork/audio_pipe.cpp:145-151 | over any messages the buffer is absent after each, and each raises at most one event |
| PipeReceive.SessionDelivers | net-voip/freeswitch/files/mod_audio_fork/audio_pipe.cpp:132-188 | short messages arrive one by one in order |
| PipeAudio.AudioBuffer.ForkFrame | net-voip/freeswitch/files/mod_audio_fork/lws_glue.cpp:537-568 | frames are taken whole and in order; bytes are dropped exactly if no room for one more minimum frame is left |
| PipeAudio.AudioBuffer.ForkFrameResampled | net-voip/freeswitch/files/mod_audio_fork/lws_glue.cpp:569-601 | mono resampled output is taken in order, never overflows, and overrun is flagged exactly when room runs out |
| PipeAudio.AudioBuffer.Drain | net-voip/freeswitch/files/mod_audio_fork/audio_pipe.cpp:233-245 | without an overrun the drain sends exactly what was accepted and unsent |
| PipeAudio.AudioBuffer.Unlock | net-voip/freeswitch/files/mod_audio_fork/audio_pipe.cpp:528-531 | the lock is never released with unsent audio unqueued |
| PipeAudio.AudioBuffer.NotifyOverrun | net-voip/freeswitch/files/mod_audio_fork/lws_glue.cpp:548-551 | at most one overrun event |
| PipeAudio.AudioBuffer.Append | net-voip/freeswitch/files/mod_audio_fork/audio_pipe.hpp:48-59 | the write offset stays within the buffer and the conservation of bytes is kept |
| WsUri.ParseWsUri | net-voip/freeswitch/files/mod_audio_fork/lws_glue.cpp:314-363 | succeeds exactly for a known scheme with a matching rest (on one line: any rest), with the unique result; on failure the outputs are kept, or hold the port and flags of the known scheme |
| WsUri.SearchIsLazy | net-voip/freeswitch/files/mod_audio_fork/lws_glue.cpp:341-345 | the match found has the shortest host for which the rest of the expression matches |
| WsUri.SearchIsSound | net-voip/freeswitch/files/mod_audio_fork/lws_glue.cpp:341-345 | what is found is a match of the expression |
| WsUri.TailUnique | net-voip/freeswitch/files/mod_audio_fork/lws_glue.cpp:341-345 | for a given host the rest of a match is determined |
| WsUri.SchemeUnique | net-voip/freeswitch/files/mod_audio_fork/lws_glue.cpp:318-336 | at most one scheme fits, so the order of the tests does not matter |
| WsUri.AddressWithPort | net-voip/freeswitch/files/mod_audio_fork/lws_glue.cpp:341-363 | host, port digits and path printed together are found again |
| WsUri.AddressWithoutPort | net-voip/freeswitch/files/mod_audio_fork/lws_glue.cpp:341-363 | without a port the host is found whole exactly if it does not end in a digit or is one character |
| WsUri.PrintedUri | net-voip/freeswitch/files/mod_audio_fork/lws_glue.cpp:314-363 | parsing undoes printing of scheme, host, port and path, for ports that are ints and texts that fit the buffer |
| WsUri.PrintedWithoutPort | net-voip/freeswitch/files/mod_audio_fork/lws_glue.cpp:314-363 | without a port the default port results exactly if the host does not end in a digit or is one character |
| Base64.CharIsLookup | net-voip/freeswitch/files/mod_audio_fork/base64.hpp:43-46 | the character function is the lookup in the literal alphabet |
| Base64.CharInvertsFind | net-voip/freeswitch/files/mod_audio_fork/base64.hpp:53-58 | is_base64 accepts exactly the characters of the alphabet |
| Base64.SextetsAreTheGroups | net-voip/freeswitch/files/mod_audio_fork/base64.hpp:76-81 | the encoder's masks are the four 6-bit groups of RFC 4648, section 4 |
| Base64.OctetsAreTheBytes | net-voip/freeswitch/files/mod_audio_fork/base64.hpp:146-148 | the decoder's masks are the three bytes of the 24-bit group |
| Base64.Encode | net-voip/freeswitch/files/mod_audio_fork/base64.hpp:66-112 | the encoder loop computes the grouped encoding with padding |
| Base64.Decode | net-voip/freeswitch/files/mod_audio_fork/base64.hpp:131-174 | the decoder loop computes the unpacking of the longest alphabet prefix |
| Base64.ShortGroupDecoded | net-voip/freeswitch/files/mod_audio_fork/base64.hpp:157-171 | the 255 of a missing position never reaches the output |
| Base64.RoundTrip | net-voip/freeswitch/files/mod_audio_fork/base64.hpp:66-174 | decode(encode(b)) = b for every byte sequence |
| Base64.EncodedLength | net-voip/freeswitch/files/mod_audio_fork/base64.hpp:66-112 | encode yields 4*ceil(n/3) characters |
| Base64.PrefixDecides | net-voip/freeswitch/files/mod_audio_fork/base64.hpp:139-155 | decode depends only on the longest alphabet prefix |
| Base64.UnpackedLength | net-voip/freeswitch/files/mod_audio_fork/base64.hpp:131-174 | a prefix of m characters yields 3*(m div 4) + max(0, m mod 4 - 1) bytes |
| Amd.AmdHelper.Frame | net-voip/freeswitch/files/AMD/mod_amd.c:100-326 | the imperative frame does what the step on values says; both hangover counters are 0 between frames |
| AmdRuns.BetweenFrames | net-voip/freeswitch/files/AMD/mod_amd.c:150-199 | the state is the last classification, exactly one phase flag is set, the noise count is the number of different counted bursts |
| AmdRuns.SwitchesOnce | net-voip/freeswitch/files/AMD/mod_amd.c:186-191 | the intro is never left for the initial silence again |
| AmdRuns.CountedOnce | net-voip/freeswitch/files/AMD/mod_amd.c:176-184 | two counting frames belong to different bursts |
| AmdRuns.MaxCountIff | net-voip/freeswitch/files/AMD/mod_amd.c:193-211 | max-count comes exactly at noise_max_count different bursts or when the intro is too long |
| AmdRuns.MaxCountWithoutBursts | net-voip/freeswitch/files/AMD/mod_amd.c:205-211 | a max-count verdict with no burst counted |
| AmdRuns.SilentAfterIntroIff | net-voip/freeswitch/files/AMD/mod_amd.c:278-293 | silent-after-intro comes exactly when silent_after_intro ms passed since the last long enough noise |
| AmdVerdicts.KnowsTotals | net-voip/freeswitch/files/AMD/mod_amd.c:128-270 | between frames end_session is the sum of what overtime, overlong silences and old noises added in each frame so far; total_time is the bytes so far in 32 bits |
| AmdVerdicts.TooLongIff | net-voip/freeswitch/files/AMD/mod_amd.c:130-148 | too-long comes exactly when the time is up and that sum has reached silent_max_session |
| AmdVerdicts.SilentInitialIff | net-voip/freeswitch/files/AMD/mod_amd.c:255-273 | silent-initial comes exactly at a silent frame when no burst after a silence was ever long enough, this silence has lasted silent_initial, and that sum is at its limit |
| AmdVerdicts.MaxIntroIff | net-voip/freeswitch/files/AMD/mod_amd.c:202-226 | max-intro comes exactly at a long enough burst not reported as max-count, when the last noisy frame is noise_max_intro old and that sum is at its limit |
| AmdRuns.ConstantNoiseTimesOut | net-voip/freeswitch/files/AMD/mod_amd.c:170-204 | a call noisy from its first frame is only ended by the time limit |
| AmdTermination.Terminates | net-voip/freeswitch/files/AMD/mod_amd.c:130-148 | the final status comes within ceil(1000*total_analysis_time/len) + silent_max_session frames |
| AmdTermination.EndsInTimeIff | net-voip/freeswitch/files/AMD/mod_amd.c:130-148 | this bound holds for all calls if and only if the bytes of that many frames fit an int |
| AmdTermination.BoundIsLeast | net-voip/freeswitch/files/AMD/mod_amd.c:130-148 | then some call is still running one frame before the bound |
| Redial.DialLoop | net-voip/freeswitch/files/YTEL_DIAL/mod_ytel_dial.c:209-247 | attempt k uses caller id k mod 2 and destination k mod destCount; at most max(1, retry) attempts; why the loop ends |
| Redial.Dial | net-voip/freeswitch/files/YTEL_DIAL/mod_ytel_dial.c:209-354 | the peer is released exactly once if an attempt was answered, and never otherwise |
| Redial.Finish | net-voip/freeswitch/files/YTEL_DIAL/mod_ytel_dial.c:252-354 | every path after the loop releases an existing peer once |
| Redial.OddTriesAllOnce | net-voip/freeswitch/files/YTEL_DIAL/mod_ytel_dial.c:236-247 | with odd destCount any 2*destCount consecutive attempts try every pair exactly once |
| Redial.EvenTriesEqualParity | net-voip/freeswitch/files/YTEL_DIAL/mod_ytel_dial.c:236-247 | with even destCount exactly the pairs of equal parity are ever tried, each once per destCount attempts |

## Left out

- AvmdStreak.StreakBuffer.ProcessSample: the floating-point signal processing is not modelled; a sample enters as the validity of its outputs and the outcome of the threshold tests.
- AvmdPoolSafety.RoundCoversOnce: covers one round; where a detector reads in the shared buffer across frames (`pos` is taken once at thread start) is not modelled.
- AvmdPool.ScanEndsIff: all other pool results have at most 255 detectors as their premise.
- AvmdPoolSafety.BeepIffResult: the scan for results is one step, since all detectors are done then; report contents and logging are left out.
- The API "start" command of mod_avmd (lines 1852-1885), which launches no detector threads.
- PipeServiceSafety.NotificationOrder: libwebsockets is assumed to deliver ESTABLISHED before RECEIVE and CLOSED on a socket, and sockets are never reused.
- PipeServiceSafety.ConnectsOnce: connect() is only called on an idle pipe; do_graceful_shutdown() only after a connection attempt began.
- PipeServiceSafety.NoCloseIsLost: pipes are identities, so a deleted AudioPipe left in a pending list is not freed memory here; the log lines that dereference a missing pipe do nothing.
- PipeServiceSafety.NoWriteIsLost: an API call is one step; interleavings between its state test and its effect are not modelled.
- PipeServiceProgress.EveryScheduleCloses: the steps counted are those that carry closes through; connects, writes and further API calls interleaved with them are not bounded.
- PipeReceive.Receiver.Receive: fragments of at most 8192 bytes; allocation succeeds; the callback's C string, which ends at a NUL byte, is not modelled.
- PipeAudio.AudioBuffer.ForkFrame: the content after an overrun (the offset goes to 0, not LWS_PRE) is only accounted for by length; a frame is never larger than the room offered.
- PipeAudio.AudioBuffer.ForkFrameResampled: one channel; the capacity check of stereo output and the resampler itself are left out.
- PipeAudio.AudioBuffer.Drain: lws_write takes everything; the graceful shutdown branch is in PipeService only.
- WsUri.ParseWsUri: texts that fit the fixed buffer; port digits beyond an int and strncpy without terminator are left out.
- Amd.AmdHelper.Frame: the energy loop is not modelled, its quotient is an input (not a number for an empty frame); plain statistics counters and events are left out.
- AmdVerdicts.SilentInitialIff: the clock never reads 0, which the code takes for an unset time.
- AvmdEndToEnd.BeepMeansCleanSamples: the samples a detector evaluates are inputs; that consecutive ones are consecutive in the audio is not claimed.
- AmdTermination.Terminates: all frames have the same length, readings of different frames are at least 1 ms apart.
- Redial.DialLoop: 1 to 10 destinations; originate and channel tests are inputs.
- The Google dialogflow glue, `mod_vm.c`, `mod_ruby.c`, `simple_buffer.h`, XML and option parsing, event bodies and file I/O, and all packaging files: plumbing or easy members.
