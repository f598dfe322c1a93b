/** When a close() that took effect can be carried through by this side. */
module PipeServiceClose {

  import opened Common
  import opened PipeService
  import opened PipeServiceInvariant
  import opened PipeServiceSafety
  import PipeServiceScenarios

  predicate SocketIn(s: Service, p: nat, phase: Phase)
    requires p < |s.pipes|
  {
    s.pipes[p].wsi.Some? && InPhase(s, s.pipes[p].wsi.value, phase)
  }

  // ---- runs without the far end ----

  /** The step is not the far end closing: CLOSED comes only for a socket that a
      callback of this side gave up before. */
  predicate NotByFarEnd(s: Service, a: Action)
  {
    a.Closed? ==> InPhase(s, a.socket, Closing)
  }

  /** A step of a service thread, with text written whole. */
  predicate ByService(s: Service, a: Action)
  {
    a.TakeDisconnects? || a.DisconnectNext? || (a.Writeable? && a.whole) || (a.Closed? && NotByFarEnd(s, a))
  }

  predicate ServiceRun(s: Service, actions: seq<Action>, e: Service)
    decreases |actions|
  {
    if actions == [] then e == s
    else Enabled(s, actions[0]) && ByService(s, actions[0]) && ServiceRun(Step(s, actions[0]), actions[1..], e)
  }

  predicate OwnRun(s: Service, actions: seq<Action>, e: Service)
    decreases |actions|
  {
    if actions == [] then e == s
    else Enabled(s, actions[0]) && NotByFarEnd(s, actions[0]) && OwnRun(Step(s, actions[0]), actions[1..], e)
  }

  lemma {:induction false} ServiceRunIsOwn(s: Service, actions: seq<Action>, e: Service)
    requires ServiceRun(s, actions, e)
    ensures OwnRun(s, actions, e)
    decreases |actions|
  {
    if actions != [] {
      ServiceRunIsOwn(Step(s, actions[0]), actions[1..], e);
    }
  }

  /** The pipe was told of a graceful close, and it was this side that closed:
      with all text sent and the local close performed, or over a socket that a
      failed write had already given up. */
  predicate EndsWell(s: Service, p: nat, e: Service)
    requires p < |s.pipes|
  {
    && p < |e.pipes| && e.pipes[p].state == Disconnected && ConnectionClosedGracefully in e.pipes[p].events
    && (SocketIn(s, p, Open) ==> e.pipes[p].closedHere && e.pipes[p].sent == s.pipes[p].appended)
  }

  ghost predicate CanEnd(s: Service, p: nat)
    requires p < |s.pipes|
  {
    exists actions: seq<Action>, e: Service :: ServiceRun(s, actions, e) && EndsWell(s, p, e)
  }

  // ---- the schedule ----

  predicate Closable(s: Service, p: nat)
  {
    Inv(s) && p < |s.pipes| && s.pipes[p].state == Disconnecting && HasSocket(s, p)
  }

  /** Ends well from the next state on: what is left to do is done there. */
  predicate EndsAfter(s: Service, p: nat, t: Service)
    requires p < |s.pipes| && p < |t.pipes|
  {
    SocketIn(s, p, Open) ==>
      && t.pipes[p].appended == s.pipes[p].appended
      && (SocketIn(t, p, Open) || (t.pipes[p].closedHere && t.pipes[p].sent == t.pipes[p].appended))
  }

  lemma {:induction false} ServiceRunKeeps(s: Service, actions: seq<Action>, e: Service, p: nat)
    requires Inv(s) && ServiceRun(s, actions, e) && p < |s.pipes|
    ensures p < |e.pipes| && Later(s.pipes[p], e.pipes[p])
    ensures s.pipes[p].closedHere ==> e.pipes[p].sent == s.pipes[p].sent
    decreases |actions|
  {
    if actions != [] {
      StepKeeps(s, actions[0]);
      StepIsLater(s, actions[0], p);
      SentStays(s, actions[0], p);
      ServiceRunKeeps(Step(s, actions[0]), actions[1..], e, p);
    }
  }

  lemma SentStays(s: Service, a: Action, p: nat)
    requires Inv(s) && Enabled(s, a) && p < |s.pipes| && p < |Step(s, a).pipes|
    ensures s.pipes[p].closedHere ==> Step(s, a).pipes[p].sent == s.pipes[p].sent
  {
    ActorIsOk(s, a);
    assert History(s.pipes[p]);
    if Actor(s, a) == Some(p) {
      ActorTurns(s, a, p);
    } else {
      OtherPipes(s, a, p);
    }
  }

  lemma CanEndBefore(s: Service, a: Action, p: nat)
    requires Inv(s) && Enabled(s, a) && ByService(s, a) && p < |s.pipes| && p < |Step(s, a).pipes|
    requires CanEnd(Step(s, a), p) && EndsAfter(s, p, Step(s, a))
    ensures CanEnd(s, p)
  {
    var t := Step(s, a);
    var rest, e :| ServiceRun(t, rest, e) && EndsWell(t, p, e);
    StepKeeps(s, a);
    ServiceRunKeeps(t, rest, e, p);
    EndsWellBefore(s, t, p, e);
    ServiceRunBefore(s, a, rest, e);
  }

  lemma ServiceRunBefore(s: Service, a: Action, rest: seq<Action>, e: Service)
    requires Enabled(s, a) && ByService(s, a) && ServiceRun(Step(s, a), rest, e)
    ensures ServiceRun(s, [a] + rest, e)
  {
    assert ([a] + rest)[1..] == rest;
  }

  lemma EndsWellBefore(s: Service, t: Service, p: nat, e: Service)
    requires p < |s.pipes| && p < |t.pipes| && p < |e.pipes| && EndsAfter(s, p, t) && EndsWell(t, p, e)
    requires t.pipes[p].closedHere ==> e.pipes[p].closedHere && e.pipes[p].sent == t.pipes[p].sent
    ensures EndsWell(s, p, e)
  {
  }

  lemma EndByClosed(s: Service, p: nat)
    requires Closable(s, p) && SocketIn(s, p, Closing)
    ensures CanEnd(s, p)
  {
    var a := Closed(s.pipes[p].wsi.value);
    var e := Step(s, a);
    ActorIsOk(s, a);
    ActorTurns(s, a, p);
    assert [a][1..] == [];
    assert ServiceRun(s, [a], e);
    var events := e.pipes[p].events;
    assert events[|events| - 1] == ConnectionClosedGracefully;
    assert EndsWell(s, p, e);
  }

  /** A WRITEABLE callback sends the text there is, or performs the local close. */
  lemma WriteableCloses(s: Service, p: nat)
    requires Closable(s, p) && !s.pipes[p].graceful && SocketIn(s, p, Open) && s.sockets[s.pipes[p].wsi.value].writable
    ensures var a := Writeable(s.pipes[p].wsi.value, true); var t := Step(s, a);
            && Enabled(s, a) && Closable(t, p) && !t.pipes[p].graceful && EndsAfter(s, p, t)
            && (if s.pipes[p].metadata == "" then SocketIn(t, p, Closing)
                else t.pipes[p].metadata == "" && SocketIn(t, p, Open) && t.sockets[t.pipes[p].wsi.value].writable)
  {
    var a := Writeable(s.pipes[p].wsi.value, true);
    var t := Step(s, a);
    ActorIsOk(s, a);
    ActorTurns(s, a, p);
    StepKeeps(s, a);
    SocketsAfter(s, a);
    assert HasSocket(t, p);
    assert History(s.pipes[p]);
  }

  /** Text first if there is any, then the close frame, then CLOSED. */
  lemma EndWhenRoused(s: Service, p: nat)
    requires Closable(s, p) && !s.pipes[p].graceful && Roused(s, p)
    ensures CanEnd(s, p)
    decreases |s.pipes[p].metadata|
  {
    var w := s.pipes[p].wsi.value;
    if s.sockets[w].phase == Closing {
      EndByClosed(s, p);
    } else {
      var a := Writeable(w, true);
      WriteableCloses(s, p);
      if s.pipes[p].metadata == "" {
        EndByClosed(Step(s, a), p);
      } else {
        EndWhenRoused(Step(s, a), p);
      }
      CanEndBefore(s, a, p);
    }
  }

  lemma ListStepIsQuiet(s: Service, a: Action, p: nat)
    requires Closable(s, p) && Enabled(s, a) && (a.TakeDisconnects? || a.DisconnectNext?)
    ensures Closable(Step(s, a), p) && Step(s, a).pipes[p] == s.pipes[p] && EndsAfter(s, p, Step(s, a))
  {
    ActorIsOk(s, a);
    StepKeeps(s, a);
    OtherPipes(s, a, p);
    SocketsAfter(s, a);
    assert HasSocket(Step(s, a), p);
  }

  lemma EndFromThread(s: Service, p: nat, t: nat)
    requires Closable(s, p) && !s.pipes[p].graceful && t < |s.threads| && p in s.threads[t].disconnects
    ensures CanEnd(s, p)
    decreases |s.threads[t].disconnects|
  {
    var a := DisconnectNext(t);
    DisconnectIsEnabled(s, t);
    var head := s.threads[t].disconnects[0];
    ListStepIsQuiet(s, a, p);
    ThreadAfter(s, a, t);
    ActorIsOk(s, a);
    if head == p {
      Requested(s, a, p);
      EndWhenRoused(Step(s, a), p);
    } else {
      EndFromThread(Step(s, a), p, t);
    }
    CanEndBefore(s, a, p);
  }

  lemma EndFromQueue(s: Service, p: nat)
    requires Closable(s, p) && !s.pipes[p].graceful && p in s.disconnects && |s.threads| > 0
    ensures CanEnd(s, p)
    decreases |s.threads[0].disconnects|
  {
    var a := if s.threads[0].disconnects == [] then TakeDisconnects(0) else DisconnectNext(0);
    if a.DisconnectNext? {
      DisconnectIsEnabled(s, 0);
    }
    ListStepIsQuiet(s, a, p);
    ThreadAfter(s, a, 0);
    WritesAfter(s, a);
    if a.TakeDisconnects? {
      EndFromThread(Step(s, a), p, 0);
    } else {
      EndFromQueue(Step(s, a), p);
    }
    CanEndBefore(s, a, p);
  }

  lemma DisconnectIsEnabled(s: Service, t: nat)
    requires Inv(s) && t < |s.threads| && s.threads[t].disconnects != []
    ensures Enabled(s, DisconnectNext(t))
  {
    assert Ids(s.pipes, s.threads[t].disconnects);
  }

  /** A close() that took effect can be carried through by the service threads,
      whatever else is queued, unless a graceful shutdown is on. */
  lemma CloseCanComplete(s: Service, p: nat)
    requires Reached(s) && |s.threads| > 0
    requires p < |s.pipes| && s.pipes[p].state == Disconnecting && !s.pipes[p].graceful
    ensures CanEnd(s, p)
  {
    ReachedInv(s);
    assert HasSocket(s, p);
    if Roused(s, p) {
      EndWhenRoused(s, p);
    } else if p in s.disconnects {
      EndFromQueue(s, p);
    } else {
      var t :| 0 <= t < |s.threads| && p in s.threads[t].disconnects;
      EndFromThread(s, p, t);
    }
  }

  // ---- graceful shutdown ----

  /** Shut down gracefully, asked to close, and the connection still up. */
  predicate Stuck(s: Service, p: nat)
  {
    p < |s.pipes| && s.pipes[p].state == Disconnecting && s.pipes[p].graceful && SocketIn(s, p, Open)
  }

  lemma StepKeepsStuck(s: Service, a: Action, p: nat)
    requires Inv(s) && Enabled(s, a) && NotByFarEnd(s, a) && Stuck(s, p)
    ensures Stuck(Step(s, a), p)
  {
    ActorIsOk(s, a);
    PipesGrow(s, a);
    SocketsAfter(s, a);
    WsiAfter(s, a, p);
    assert HasSocket(s, p);
    if Actor(s, a) == Some(p) {
      ActorTurns(s, a, p);
    } else {
      OtherPipes(s, a, p);
      OtherSocket(s, a, p);
    }
  }

  /** Such a pipe stays as it is until the far end closes, whatever this side does. */
  lemma {:induction false} StuckUntilFarEnd(s: Service, actions: seq<Action>, e: Service, p: nat)
    requires Inv(s) && OwnRun(s, actions, e) && Stuck(s, p)
    ensures Stuck(e, p)
    decreases |actions|
  {
    if actions != [] {
      StepKeeps(s, actions[0]);
      StepKeepsStuck(s, actions[0], p);
      StuckUntilFarEnd(Step(s, actions[0]), actions[1..], e, p);
    }
  }

  /** The service threads can complete a close that took effect if and only if no
      graceful shutdown is on, or the socket had been given up already. */
  lemma CloseCompletesIff(s: Service, p: nat)
    requires Reached(s) && |s.threads| > 0
    requires p < |s.pipes| && s.pipes[p].state == Disconnecting
    ensures CanEnd(s, p) <==> !s.pipes[p].graceful || SocketIn(s, p, Closing)
  {
    ReachedInv(s);
    assert HasSocket(s, p);
    if !s.pipes[p].graceful {
      CloseCanComplete(s, p);
    } else if SocketIn(s, p, Closing) {
      EndByClosed(s, p);
    } else if CanEnd(s, p) {
      var actions, e :| ServiceRun(s, actions, e) && EndsWell(s, p, e);
      ServiceRunIsOwn(s, actions, e);
      StuckUntilFarEnd(s, actions, e, p);
    }
  }

  /** With any number of threads both cases arise: a pipe shut down gracefully and
      then closed is left to the far end. */
  lemma CloseCanBeLeftToFarEnd(n: nat) returns (s: Service)
    requires n > 0
    ensures Reached(s) && |s.threads| == n && Stuck(s, 0) && s.pipes[0].closeTaken && !CanEnd(s, 0)
  {
    s := PipeServiceScenarios.GracefulThenClosed(n);
    PipeServiceScenarios.ReachGracefulThenClosed(n);
    CloseCompletesIff(s, 0);
  }
}
