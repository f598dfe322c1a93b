/** Runs of the audio pipe service that reach a lost connect and a close that
    waits for the far end. */
module PipeServiceScenarios {

  import opened Common
  import opened PipeService
  import opened PipeServiceSafety

  const FREE := Thread([], [], [])
  const MARKED := NEW_PIPE.(state := Connecting)
  const UP := Notify(Begun(MARKED, Some(0)), ConnectSuccess, Connected)

  function Idling(n: nat): seq<Thread>
  {
    seq(n, _ => FREE)
  }

  /** Thread t is about to connect pipe p, the others are free. */
  function Busy(n: nat, t: nat, p: nat): seq<Thread>
    requires t < n
  {
    Idling(n)[t := Thread([p], [], [])]
  }

  function AtStart(n: nat): Service
  {
    Service([], [], [], [], [], Idling(n))
  }

  lemma OneIdle(pipes: seq<Pipe>, list: seq<nat>, x: nat)
    requires Ids(pipes, list) && Ids(pipes, list + [x]) && x < |pipes| && IdleOnes(pipes, list) == []
    ensures IdleOnes(pipes, list + [x]) == if pipes[x].state == Idle then [x] else []
  {
    assert (list + [x])[..|list|] == list;
  }

  // ---- single steps ----

  lemma ReachNew(s: Service, e: Service)
    requires Reached(s) && Ids(s.pipes, s.connects) && s.disconnects == [] && s.writes == []
    requires e == s.(pipes := s.pipes + [NEW_PIPE])
    ensures Reached(e)
  {
    ReachedStep(s, New, e);
  }

  lemma ReachConnect(s: Service, p: nat, e: Service)
    requires Reached(s) && Ids(s.pipes, s.connects) && s.disconnects == [] && s.writes == []
    requires p < |s.pipes| && s.pipes[p].state == Idle && e == s.(connects := s.connects + [p])
    ensures Reached(e)
  {
    ReachedStep(s, Connect(p), e);
  }

  lemma ReachMark(s: Service, t: nat, p: nat, e: Service)
    requires Reached(s) && Ids(s.pipes, s.connects) && s.disconnects == [] && s.writes == []
    requires t < |s.threads| && s.threads[t] == FREE && p < |s.pipes| && IdleOnes(s.pipes, s.connects) == [p]
    requires e == s.(pipes := s.pipes[p := s.pipes[p].(state := Connecting)],
                     threads := s.threads[t := Thread([p], [], [])])
    ensures Reached(e)
  {
    assert PipeService.Marked(s.pipes, [p]) == e.pipes;
    ReachedStep(s, MarkConnects(t), e);
  }

  /** One pipe, created and queued. */
  function Queued(n: nat): Service
  {
    AtStart(n).(pipes := [NEW_PIPE], connects := [0])
  }

  function Marked(n: nat): Service
    requires n > 0
  {
    AtStart(n).(pipes := [MARKED], connects := [0], threads := Busy(n, 0, 0))
  }

  lemma ReachQueued(n: nat)
    ensures Reached(Queued(n))
  {
    var s := AtStart(n);
    assert Run(s, [], s);
    var s1 := s.(pipes := [NEW_PIPE]);
    ReachNew(s, s1);
    ReachConnect(s1, 0, Queued(n));
  }

  lemma OnlyFirstIdle(pipes: seq<Pipe>)
    requires pipes == [NEW_PIPE]
    ensures IdleOnes(pipes, [0]) == [0]
  {
    OneIdle(pipes, [], 0);
    assert [] + [0] == [0];
  }

  lemma FirstPipe(s: Service, e: Service)
    requires Reached(s) && s.pipes == [NEW_PIPE] && s.connects == [0]
    requires s.disconnects == [] && s.writes == [] && 0 < |s.threads| && s.threads[0] == FREE
    requires e == s.(pipes := [MARKED], threads := s.threads[0 := Thread([0], [], [])])
    ensures Reached(e)
  {
    OnlyFirstIdle(s.pipes);
    ReachMark(s, 0, 0, e);
  }

  lemma ReachMarked(n: nat)
    requires n > 0
    ensures Reached(Marked(n))
  {
    ReachQueued(n);
    FirstPipe(Queued(n), Marked(n));
  }

  lemma SecondQueued(s: Service, first: Pipe, e: Service)
    requires Reached(s) && s.pipes == [first] && s.connects == [0] && s.disconnects == [] && s.writes == []
    requires e == s.(pipes := [first, NEW_PIPE], connects := [0, 1])
    ensures Reached(e)
  {
    var s1 := s.(pipes := [first, NEW_PIPE]);
    ReachNew(s, s1);
    ReachConnect(s1, 1, e);
  }

  lemma SecondMarks(s: Service, first: Pipe, t: nat, e: Service)
    requires Reached(s) && s.pipes == [first, NEW_PIPE] && s.connects == [0, 1] && first.state != Idle
    requires s.disconnects == [] && s.writes == [] && t < |s.threads| && s.threads[t] == FREE
    requires e == s.(pipes := [first, MARKED], threads := s.threads[t := Thread([1], [], [])])
    ensures Reached(e)
  {
    OnlySecondIdle(s.pipes, first);
    ReachMark(s, t, 1, e);
  }

  /** A second pipe is created, queued and marked by thread t. */
  lemma SecondPipe(s: Service, first: Pipe, t: nat, e: Service)
    requires Reached(s) && s.pipes == [first] && s.connects == [0] && first.state != Idle
    requires s.disconnects == [] && s.writes == [] && t < |s.threads| && s.threads[t] == FREE
    requires e == s.(pipes := [first, MARKED], connects := [0, 1], threads := s.threads[t := Thread([1], [], [])])
    ensures Reached(e)
  {
    var s2 := s.(pipes := [first, NEW_PIPE], connects := [0, 1]);
    SecondQueued(s, first, s2);
    SecondMarks(s2, first, t, e);
  }

  lemma OnlySecondIdle(pipes: seq<Pipe>, first: Pipe)
    requires pipes == [first, NEW_PIPE] && first.state != Idle
    ensures IdleOnes(pipes, [0, 1]) == [1]
  {
    OneIdle(pipes, [], 0);
    OneIdle(pipes, [0], 1);
    assert [] + [0] == [0] && [0] + [1] == [0, 1];
  }

  // ---- a lost connect ----

  /** Both pipes are marked, each by a thread of its own. */
  function BothMarked(n: nat): Service
    requires n > 1
  {
    Service([MARKED, MARKED], [], [0, 1], [], [], Busy(n, 0, 0)[1 := Thread([1], [], [])])
  }

  /** The second pipe is connected, and the first has lost its entry. */
  function SecondUp(n: nat): Service
    requires n > 1
  {
    Service([MARKED, UP], [Socket(Open, Some(1), false)], [], [], [], Busy(n, 0, 0))
  }

  /** The first pipe has its socket by now. */
  function FirstWaits(n: nat): Service
    requires n > 1
  {
    Service([Begun(MARKED, Some(1)), UP], [Socket(Open, Some(1), false), Socket(Opening, None, false)], [], [], [],
      Idling(n))
  }

  lemma ReachBothMarked(n: nat)
    requires n > 1
    ensures Reached(BothMarked(n))
  {
    ReachMarked(n);
    SecondPipe(Marked(n), MARKED, 1, BothMarked(n));
  }

  lemma StopIs(pipes: seq<Pipe>, list: seq<nat>, w: nat, n: nat)
    requires Ids(pipes, list) && n < |list| && Awaits(pipes[list[n]], w)
    requires forall k :: 0 <= k < n ==> !Awaits(pipes[list[k]], w)
    ensures Stop(pipes, list, w) == n
  {
  }

  lemma HeadIsMember(list: seq<nat>)
    ensures list == [] || list[0] in list
  {
  }

  /** The second pipe has its socket, the first still waits for its thread. */
  function SecondPending(n: nat): Service
    requires n > 1
  {
    Service([MARKED, Begun(MARKED, Some(0))], [Socket(Opening, None, false)], [0, 1], [], [], Busy(n, 0, 0))
  }

  lemma ReachSecondPending(n: nat)
    requires n > 1
    ensures Reached(SecondPending(n))
  {
    ReachBothMarked(n);
    assert BothMarked(n).threads[1].connects[1..] == [];
    assert Step(BothMarked(n), ConnectNext(1, Pending)).threads == Busy(n, 0, 0);
    ReachedStep(BothMarked(n), ConnectNext(1, Pending), SecondPending(n));
  }

  lemma ReachSecondUp(n: nat)
    requires n > 1
    ensures Reached(SecondUp(n))
  {
    ReachSecondPending(n);
    OutcomeForSecond(SecondPending(n).pipes);
    ReachedStep(SecondPending(n), Established(0), SecondUp(n));
  }

  /** The outcome for the second pipe removes the first, which has no socket. */
  lemma OutcomeForSecond(pipes: seq<Pipe>)
    requires |pipes| == 2 && pipes[0].wsi == None && pipes[1] == Begun(MARKED, Some(0))
    ensures Found(pipes, [0, 1], 0) == Some(1) && Without([0, 1], Removed(pipes, [0, 1], 0)) == []
  {
    StopIs(pipes, [0, 1], 0, 1);
    assert 0 in NullOnes(pipes, [0, 1], 1) by { assert pipes[[0, 1][0]].wsi == None; }
    assert forall x :: x !in Without([0, 1], Removed(pipes, [0, 1], 0));
    HeadIsMember(Without([0, 1], Removed(pipes, [0, 1], 0)));
  }

  /** With two threads or more: a pipe marked by one but not yet given a socket is
      dropped by an outcome another one brings, and then waits for its own. */
  lemma ReachFirstWaits(n: nat)
    requires n > 1
    ensures Reached(FirstWaits(n))
  {
    ReachSecondUp(n);
    assert SecondUp(n).threads[0].connects[1..] == [];
    assert Step(SecondUp(n), ConnectNext(0, Pending)).threads == Idling(n);
    ReachedStep(SecondUp(n), ConnectNext(0, Pending), FirstWaits(n));
  }

  // ---- an attempt without a socket ----

  const SILENT := Begun(MARKED, None)

  /** The first attempt came back without a socket; the second pipe is marked. */
  function SecondMarked(n: nat): Service
    requires n > 0
  {
    Service([SILENT, MARKED], [], [0, 1], [], [], Busy(n, 0, 1))
  }

  lemma ReachSilent(n: nat)
    requires n > 0
    ensures Reached(AtStart(n).(pipes := [SILENT], connects := [0]))
  {
    ReachMarked(n);
    assert Marked(n).threads[0].connects[1..] == [];
    assert Step(Marked(n), ConnectNext(0, Nothing)).threads == Idling(n);
    ReachedStep(Marked(n), ConnectNext(0, Nothing), AtStart(n).(pipes := [SILENT], connects := [0]));
  }

  lemma ReachSecondMarked(n: nat)
    requires n > 0
    ensures Reached(SecondMarked(n))
  {
    ReachSilent(n);
    SecondPipe(AtStart(n).(pipes := [SILENT], connects := [0]), SILENT, 0, SecondMarked(n));
  }

  function SilentPending(n: nat): Service
  {
    Service([SILENT, Begun(MARKED, Some(0))], [Socket(Opening, None, false)], [0, 1], [], [], Idling(n))
  }

  lemma ReachSilentPending(n: nat)
    requires n > 0
    ensures Reached(SilentPending(n))
  {
    ReachSecondMarked(n);
    assert SecondMarked(n).threads[0].connects[1..] == [];
    assert Step(SecondMarked(n), ConnectNext(0, Pending)).threads == Idling(n);
    ReachedStep(SecondMarked(n), ConnectNext(0, Pending), SilentPending(n));
  }

  /** The second pipe is up, and the first was dropped from the queue. */
  function SilentlyLost(n: nat): Service
  {
    Service([SILENT, UP], [Socket(Open, Some(1), false)], [], [], [], Idling(n))
  }

  lemma ReachSilentlyLost(n: nat)
    requires n > 0
    ensures Reached(SilentlyLost(n))
  {
    ReachSilentPending(n);
    OutcomeForSecond(SilentPending(n).pipes);
    ReachedStep(SilentPending(n), Established(0), SilentlyLost(n));
  }

  // ---- a close that waits ----

  const ASKED := UP.(graceful := true, state := Disconnecting, closeTaken := true)

  /** Connected, shut down gracefully, then closed. */
  function GracefulThenClosed(n: nat): Service
  {
    Service([ASKED], [Socket(Open, Some(0), false)], [], [0], [0], Idling(n))
  }

  function FirstUp(n: nat): Service
  {
    Service([UP], [Socket(Open, Some(0), false)], [], [], [], Idling(n))
  }

  lemma ReachFirstUp(n: nat)
    requires n > 0
    ensures Reached(FirstUp(n))
  {
    ReachMarked(n);
    var s1 := Marked(n).(pipes := [Begun(MARKED, Some(0))], threads := Idling(n),
      sockets := [Socket(Opening, None, false)]);
    assert Marked(n).threads[0].connects[1..] == [];
    assert Step(Marked(n), ConnectNext(0, Pending)).threads == Idling(n);
    ReachedStep(Marked(n), ConnectNext(0, Pending), s1);
    OutcomeForOnly(s1.pipes);
    ReachedStep(s1, Established(0), FirstUp(n));
  }

  lemma OutcomeForOnly(pipes: seq<Pipe>)
    requires pipes == [Begun(MARKED, Some(0))]
    ensures Found(pipes, [0], 0) == Some(0) && Without([0], Removed(pipes, [0], 0)) == []
  {
    StopIs(pipes, [0], 0, 0);
    assert forall x :: x !in Without([0], Removed(pipes, [0], 0));
    HeadIsMember(Without([0], Removed(pipes, [0], 0)));
  }

  lemma ReachGracefulThenClosed(n: nat)
    requires n > 0
    ensures Reached(GracefulThenClosed(n))
  {
    ReachFirstUp(n);
    var s := FirstUp(n).(pipes := [UP.(graceful := true)], writes := [0]);
    ReachedStep(FirstUp(n), ShutDownGracefully(0), s);
    ReachedStep(s, Close(0), GracefulThenClosed(n));
  }
}
