/** What holds of every run of the audio pipe service. */
module PipeServiceSafety {

  import opened Common
  import opened PipeService
  import opened PipeServiceInvariant

  ghost predicate Reached(s: Service)
  {
    exists s0: Service, actions: seq<Action> :: Init(s0) && Run(s0, actions, s)
  }

  lemma ReachedInv(s: Service)
    requires Reached(s)
    ensures Inv(s)
  {
    var s0: Service, actions: seq<Action> :| Init(s0) && Run(s0, actions, s);
    InitHolds(s0);
    Reachable(s0, actions, s);
  }

  lemma {:induction false} RunAppend(s: Service, xs: seq<Action>, m: Service, ys: seq<Action>, e: Service)
    requires Run(s, xs, m) && Run(m, ys, e)
    ensures Run(s, xs + ys, e)
    decreases |xs|
  {
    if xs == [] {
      assert xs + ys == ys;
    } else {
      assert (xs + ys)[1..] == xs[1..] + ys;
      RunAppend(Step(s, xs[0]), xs[1..], m, ys, e);
    }
  }

  lemma ReachedStep(s: Service, a: Action, e: Service)
    requires Reached(s) && Enabled(s, a) && e == Step(s, a)
    ensures Reached(e)
  {
    var s0: Service, actions: seq<Action> :| Init(s0) && Run(s0, actions, s);
    assert [a][1..] == [];
    assert Run(s, [a], e);
    RunAppend(s0, actions, s, [a], e);
  }

  // ---- the order of notifications ----

  /** CONNECT_FAIL, or CONNECT_SUCCESS MESSAGE* and one of the two closing
      events, or a beginning of such a sequence. */
  predicate InOrder(events: seq<Event>)
  {
    events == [] || events == [ConnectFail] || (events[0] == ConnectSuccess && AfterSuccess(events[1..]))
  }

  predicate AfterSuccess(events: seq<Event>)
  {
    || events == [] || events == [ConnectionDropped] || events == [ConnectionClosedGracefully]
    || (events[0] == Message && AfterSuccess(events[1..]))
  }

  lemma {:induction false} MessagesInOrder(events: seq<Event>, last: Event)
    requires forall k :: 0 <= k < |events| ==> events[k] == Message
    requires last == ConnectionDropped || last == ConnectionClosedGracefully
    ensures AfterSuccess(events) && AfterSuccess(events + [last])
  {
    if events != [] {
      MessagesInOrder(events[1..], last);
      assert (events + [last])[1..] == events[1..] + [last];
    } else {
      assert events + [last] == [last];
    }
  }

  lemma HistoryInOrder(p: Pipe)
    requires History(p)
    ensures InOrder(p.events)
  {
    if Live(p) {
      MessagesInOrder(p.events[1..], ConnectionDropped);
    } else if p.state == Disconnected {
      var n := |p.events| - 1;
      EndInOrder(p.events[..n], p.events[n]);
      assert p.events == p.events[..n] + [p.events[n]];
    }
  }

  lemma EndInOrder(before: seq<Event>, last: Event)
    requires Talking(before) && (last == ConnectionDropped || last == ConnectionClosedGracefully)
    ensures InOrder(before + [last])
  {
    MessagesInOrder(before[1..], last);
    assert (before + [last])[1..] == before[1..] + [last];
  }

  lemma NotificationOrder(s: Service, p: nat)
    requires Reached(s) && p < |s.pipes|
    ensures InOrder(s.pipes[p].events)
  {
    ReachedInv(s);
    HistoryInOrder(s.pipes[p]);
  }

  /** The last event tells how a connection ended: gracefully exactly if close()
      had found the pipe connected. */
  lemma GracefulIffClosed(s: Service, p: nat)
    requires Reached(s) && p < |s.pipes|
    ensures s.pipes[p].state == Disconnected <==>
              (ConnectionClosedGracefully in s.pipes[p].events || ConnectionDropped in s.pipes[p].events)
    ensures ConnectionClosedGracefully in s.pipes[p].events <==>
            s.pipes[p].state == Disconnected && s.pipes[p].closeTaken
    ensures ConnectFail in s.pipes[p].events <==> s.pipes[p].state == Failed
  {
    ReachedInv(s);
    HistoryEnds(s.pipes[p]);
  }

  lemma HistoryEnds(p: Pipe)
    requires History(p)
    ensures p.state == Disconnected <==> (ConnectionClosedGracefully in p.events || ConnectionDropped in p.events)
    ensures ConnectionClosedGracefully in p.events <==> p.state == Disconnected && p.closeTaken
    ensures ConnectFail in p.events <==> p.state == Failed
  {
    if p.state == Disconnected {
      var n := |p.events| - 1;
      assert forall k :: 0 <= k < n ==> p.events[k] == p.events[..n][k];
      assert p.events[n] in p.events;
    }
  }

  // ---- connecting ----

  /** The assertions of connect_client hold, and it never runs twice for a pipe. */
  lemma ConnectsOnce(s: Service, t: nat, outcome: Outcome)
    requires Reached(s) && Enabled(s, ConnectNext(t, outcome))
    ensures var p := s.threads[t].connects[0]; !s.pipes[p].vhd && s.pipes[p].attempts == 0 && s.pipes[p].events == []
    ensures forall p :: 0 <= p < |s.pipes| ==> s.pipes[p].attempts <= 1
  {
    ReachedInv(s);
    assert Waiting(s.pipes[s.threads[t].connects[0]]);
    forall p | 0 <= p < |s.pipes| ensures s.pipes[p].attempts <= 1 {
      assert History(s.pipes[p]);
    }
    assert History(s.pipes[s.threads[t].connects[0]]);
  }

  lemma PendingConnectsAreYoung(s: Service, p: nat)
    requires Reached(s) && p in s.connects
    ensures p < |s.pipes| && (s.pipes[p].state == Idle || s.pipes[p].state == Connecting)
  {
    ReachedInv(s);
  }

  // ---- text ----

  lemma TextConserved(s: Service, p: nat)
    requires Reached(s) && p < |s.pipes|
    ensures s.pipes[p].sent + s.pipes[p].metadata == s.pipes[p].appended
    ensures s.pipes[p].closedHere ==> s.pipes[p].sent == s.pipes[p].appended && s.pipes[p].closeTaken
  {
    ReachedInv(s);
    assert History(s.pipes[p]);
  }

  /** How a pipe can be later in a run. */
  predicate Later(p: Pipe, q: Pipe)
  {
    && p.events <= q.events && p.sent <= q.sent && p.appended <= q.appended
    && (p.graceful ==> q.graceful && q.sent == p.sent && q.closedHere == p.closedHere)
    && (p.closeTaken ==> q.closeTaken && q.appended == p.appended)
    && (p.closedHere ==> q.closedHere)
    && (Queueable(p) || Live(p) || q.events == p.events)
  }

  lemma StepIsLater(s: Service, a: Action, p: nat)
    requires Inv(s) && Enabled(s, a) && p < |s.pipes|
    ensures p < |Step(s, a).pipes| && Later(s.pipes[p], Step(s, a).pipes[p])
  {
    ActorIsOk(s, a);
    PipesGrow(s, a);
    assert History(s.pipes[p]);
    if Actor(s, a) == Some(p) {
      ActorTurns(s, a, p);
    } else {
      OtherPipes(s, a, p);
    }
  }

  lemma {:induction false} RunIsLater(s: Service, actions: seq<Action>, e: Service, p: nat)
    requires Inv(s) && Run(s, actions, e) && p < |s.pipes|
    ensures p < |e.pipes| && Later(s.pipes[p], e.pipes[p])
    decreases |actions|
  {
    if actions != [] {
      StepKeeps(s, actions[0]);
      StepIsLater(s, actions[0], p);
      RunIsLater(Step(s, actions[0]), actions[1..], e, p);
    }
  }

  /** Once the local close is done, everything ever accepted for sending has been
      sent, and nothing is accepted afterwards. */
  lemma LocalCloseIsComplete(s: Service, actions: seq<Action>, e: Service, p: nat)
    requires Reached(s) && Run(s, actions, e) && p < |s.pipes| && s.pipes[p].closedHere
    ensures p < |e.pipes| && e.pipes[p].metadata == ""
    ensures e.pipes[p].sent == e.pipes[p].appended == s.pipes[p].appended
  {
    ReachedInv(s);
    Reachable(s, actions, e);
    RunIsLater(s, actions, e, p);
    assert History(s.pipes[p]) && History(e.pipes[p]);
  }

  /** Events are never taken back, and after a closing event there are no more. */
  lemma EventsOnlyGrow(s: Service, actions: seq<Action>, e: Service, p: nat)
    requires Reached(s) && Run(s, actions, e) && p < |s.pipes|
    ensures p < |e.pipes| && s.pipes[p].events <= e.pipes[p].events
    ensures s.pipes[p].state == Disconnected || s.pipes[p].state == Failed ==> e.pipes[p].events == s.pipes[p].events
  {
    ReachedInv(s);
    RunIsLater(s, actions, e, p);
  }

  /** After do_graceful_shutdown no text is sent any more and the local close is
      never performed, so such a pipe ends only when the far end closes. */
  lemma GracefulStopsSending(s: Service, actions: seq<Action>, e: Service, p: nat)
    requires Reached(s) && Run(s, actions, e) && p < |s.pipes| && s.pipes[p].graceful
    ensures p < |e.pipes| && e.pipes[p].sent == s.pipes[p].sent && e.pipes[p].closedHere == s.pipes[p].closedHere
  {
    ReachedInv(s);
    RunIsLater(s, actions, e, p);
  }

  // ---- nothing due is forgotten ----

  /** Text or audio waiting on a connected pipe will bring a WRITEABLE callback:
      the pipe is queued, about to be served, or its socket has been asked. */
  lemma NoWriteIsLost(s: Service, p: nat)
    requires Reached(s) && p < |s.pipes| && s.pipes[p].state == Connected && !s.pipes[p].graceful
    requires s.pipes[p].metadata != "" || s.pipes[p].audio
    ensures WriteDue(s, p)
  {
    ReachedInv(s);
    assert WantsWrite(s.pipes[p]);
  }

  lemma NoCloseIsLost(s: Service, p: nat)
    requires Reached(s) && p < |s.pipes| && s.pipes[p].state == Disconnecting && !s.pipes[p].graceful
    ensures CloseDue(s, p)
  {
    ReachedInv(s);
  }
}
