/** Left to themselves the service threads come to an end, and by then every close
    that took effect has been carried through: not some schedule, every one. */
module PipeServiceProgress {

  import opened Common
  import opened PipeService
  import opened PipeServiceInvariant
  import opened PipeServiceSafety
  import opened PipeServiceClose

  /** A service step that has something to do. */
  predicate Useful(s: Service, a: Action)
  {
    ByService(s, a) && (a.TakeDisconnects? ==> s.disconnects != [])
  }

  predicate UsefulRun(s: Service, actions: seq<Action>, e: Service)
    decreases |actions|
  {
    if actions == [] then e == s
    else Enabled(s, actions[0]) && Useful(s, actions[0]) && UsefulRun(Step(s, actions[0]), actions[1..], e)
  }

  /** Nothing is left to do for the service threads. */
  ghost predicate AtRest(s: Service)
  {
    forall a: Action :: Enabled(s, a) ==> !Useful(s, a)
  }

  // ---- a rank ----

  /** Callbacks a socket can still bring without being asked again. */
  function Worth(pipes: seq<Pipe>, x: Socket): nat
  {
    match x.phase
    case Closing => 1
    case Open =>
      if !x.writable then 0
      else if x.user.Some? && x.user.value < |pipes| && pipes[x.user.value].metadata != "" then 3
      else 2
    case _ => 0
  }

  function SocketsWorth(pipes: seq<Pipe>, sockets: seq<Socket>, n: nat): nat
    requires n <= |sockets|
  {
    if n == 0 then 0 else SocketsWorth(pipes, sockets, n - 1) + Worth(pipes, sockets[n - 1])
  }

  function LocalCount(threads: seq<Thread>, n: nat): nat
    requires n <= |threads|
  {
    if n == 0 then 0 else LocalCount(threads, n - 1) + |threads[n - 1].disconnects|
  }

  function Rank(s: Service): nat
  {
    5 * |s.disconnects| + 4 * LocalCount(s.threads, |s.threads|) + SocketsWorth(s.pipes, s.sockets, |s.sockets|)
  }

  /** Two socket lists that differ in worth at one place only. */
  lemma {:induction false} WorthExcept(p: seq<Pipe>, x: seq<Socket>, q: seq<Pipe>, y: seq<Socket>, w: nat, n: nat)
    requires |x| == |y| && w < |x| && n <= |x|
    requires forall v :: 0 <= v < |x| && v != w ==> Worth(q, y[v]) == Worth(p, x[v])
    ensures SocketsWorth(q, y, n) == SocketsWorth(p, x, n) + if w < n then Worth(q, y[w]) - Worth(p, x[w]) else 0
  {
    if n > 0 {
      WorthExcept(p, x, q, y, w, n - 1);
    }
  }

  lemma {:induction false} LocalExcept(a: seq<Thread>, t: nat, b: Thread, n: nat)
    requires t < |a| && n <= |a|
    ensures LocalCount(a[t := b], n) == LocalCount(a, n) + if t < n then |b.disconnects| - |a[t].disconnects| else 0
  {
    if n > 0 {
      LocalExcept(a, t, b, n - 1);
    }
  }

  lemma {:induction false} InStateShorter(pipes: seq<Pipe>, list: seq<nat>, state: LwsState)
    requires Ids(pipes, list)
    ensures |InState(pipes, list, state)| <= |list|
  {
    if list != [] {
      InStateShorter(pipes, list[1..], state);
    }
  }

  lemma TakeDecreases(s: Service, t: nat)
    requires Enabled(s, TakeDisconnects(t)) && s.disconnects != []
    ensures Rank(Step(s, TakeDisconnects(t))) < Rank(s)
  {
    var taken := InState(s.pipes, s.disconnects, Disconnecting);
    InStateShorter(s.pipes, s.disconnects, Disconnecting);
    LocalExcept(s.threads, t, s.threads[t].(disconnects := taken), |s.threads|);
  }

  lemma RequestRaises(s: Service, p: nat)
    requires p < |s.pipes|
    ensures var e := RequestWritable(s, p);
      && e.pipes == s.pipes && e.disconnects == s.disconnects && e.threads == s.threads
      && SocketsWorth(e.pipes, e.sockets, |e.sockets|) <= SocketsWorth(s.pipes, s.sockets, |s.sockets|) + 3
  {
    var e := RequestWritable(s, p);
    var wsi := s.pipes[p].wsi;
    if wsi.Some? && wsi.value < |s.sockets| {
      WorthExcept(s.pipes, s.sockets, e.pipes, e.sockets, wsi.value, |s.sockets|);
    }
  }

  lemma ServeDecreases(s: Service, t: nat)
    requires Enabled(s, DisconnectNext(t))
    ensures Rank(Step(s, DisconnectNext(t))) < Rank(s)
  {
    var list := s.threads[t].disconnects;
    var b := s.threads[t].(disconnects := list[1..]);
    LocalExcept(s.threads, t, b, |s.threads|);
    RequestRaises(WithThread(s, t, b), list[0]);
  }

  /** A callback on a socket changes the worth of no other socket. */
  lemma OnlyThisSocket(s: Service, a: Action, v: nat)
    requires Enabled(s, a) && (a.Writeable? || a.Closed?) && Attached(s) && v < |s.sockets| && v != a.socket
    ensures var e := Step(s, a);
            && |e.sockets| == |s.sockets|
            && Worth(e.pipes, e.sockets[v]) == Worth(s.pipes, s.sockets[v])
  {
    assert s.sockets[v].user.Some? ==> HasPipe(s, v);
    assert s.sockets[a.socket].user.Some? ==> HasPipe(s, a.socket);
  }

  lemma ThisSocketFalls(s: Service, a: Action)
    requires Enabled(s, a) && Attached(s) && ((a.Writeable? && a.whole) || (a.Closed? && NotByFarEnd(s, a)))
    ensures var e := Step(s, a);
      && |e.sockets| == |s.sockets| && Worth(e.pipes, e.sockets[a.socket]) < Worth(s.pipes, s.sockets[a.socket])
      && e.disconnects == s.disconnects && e.threads == s.threads
  {
    assert s.sockets[a.socket].user.Some? ==> HasPipe(s, a.socket);
  }

  lemma CallbackDecreases(s: Service, a: Action)
    requires Enabled(s, a) && Attached(s) && ((a.Writeable? && a.whole) || (a.Closed? && NotByFarEnd(s, a)))
    ensures Rank(Step(s, a)) < Rank(s)
  {
    var e := Step(s, a);
    ThisSocketFalls(s, a);
    forall v | 0 <= v < |s.sockets| && v != a.socket
      ensures Worth(e.pipes, e.sockets[v]) == Worth(s.pipes, s.sockets[v]) {
      OnlyThisSocket(s, a, v);
    }
    WorthExcept(s.pipes, s.sockets, e.pipes, e.sockets, a.socket, |s.sockets|);
  }

  lemma UsefulDecreases(s: Service, a: Action)
    requires Inv(s) && Enabled(s, a) && Useful(s, a)
    ensures Rank(Step(s, a)) < Rank(s)
  {
    match a
    case TakeDisconnects(t) => TakeDecreases(s, t);
    case DisconnectNext(t) => ServeDecreases(s, t);
    case Writeable(_, _) => CallbackDecreases(s, a);
    case Closed(_) => CallbackDecreases(s, a);
  }

  /** The service threads can take no more useful steps than the rank says. */
  lemma {:induction false} ServiceStepsAreBounded(s: Service, actions: seq<Action>, e: Service, r: nat)
    requires Inv(s) && UsefulRun(s, actions, e) && r == Rank(s)
    ensures Inv(e) && |actions| + Rank(e) <= r
    decreases |actions|
  {
    if actions != [] {
      var t := Step(s, actions[0]);
      StepKeeps(s, actions[0]);
      UsefulDecreases(s, actions[0]);
      ServiceStepsAreBounded(t, actions[1..], e, Rank(t));
    }
  }

  // ---- what every schedule brings about ----

  /** On the way from s to a good end. */
  predicate OnTheWay(s: Service, p: nat, t: Service)
    requires p < |s.pipes|
  {
    && p < |t.pipes| && !t.pipes[p].graceful
    && (t.pipes[p].state == Disconnecting ||
        (t.pipes[p].state == Disconnected && ConnectionClosedGracefully in t.pipes[p].events))
    && (SocketIn(s, p, Open) ==>
         && t.pipes[p].appended == s.pipes[p].appended
         && ((t.pipes[p].state == Disconnecting && SocketIn(t, p, Open)) ||
             (t.pipes[p].closedHere && t.pipes[p].sent == t.pipes[p].appended)))
  }

  lemma OthersOnTheWay(s: Service, p: nat, t: Service, a: Action)
    requires Inv(t) && Enabled(t, a) && p < |s.pipes| && OnTheWay(s, p, t) && Actor(t, a) != Some(p)
    ensures OnTheWay(s, p, Step(t, a))
  {
    ActorIsOk(t, a);
    PipesGrow(t, a);
    if a.MarkConnects? {
      assert t.pipes[p].state != Idle;
    }
    OtherPipes(t, a, p);
    SocketsAfter(t, a);
    if t.pipes[p].state == Disconnecting {
      assert HasSocket(t, p);
      OtherSocket(t, a, p);
    }
  }

  lemma WriteableOnTheWay(s: Service, p: nat, t: Service, w: nat)
    requires Inv(t) && Enabled(t, Writeable(w, true)) && p < |s.pipes| && OnTheWay(s, p, t)
    requires Actor(t, Writeable(w, true)) == Some(p)
    ensures OnTheWay(s, p, Step(t, Writeable(w, true)))
  {
    var a := Writeable(w, true);
    ActorIsOk(t, a);
    ActorTurns(t, a, p);
    SocketsAfter(t, a);
    assert History(t.pipes[p]) && HasPipe(t, w);
  }

  lemma ClosedOnTheWay(s: Service, p: nat, t: Service, w: nat)
    requires Inv(t) && Enabled(t, Closed(w)) && NotByFarEnd(t, Closed(w)) && p < |s.pipes| && OnTheWay(s, p, t)
    requires Actor(t, Closed(w)) == Some(p)
    ensures OnTheWay(s, p, Step(t, Closed(w)))
  {
    var a := Closed(w);
    ActorIsOk(t, a);
    ActorTurns(t, a, p);
    assert HasPipe(t, w);
    var events := Step(t, a).pipes[p].events;
    assert events[|events| - 1] == ConnectionClosedGracefully;
  }

  lemma StepOnTheWay(s: Service, p: nat, t: Service, a: Action)
    requires Inv(t) && Enabled(t, a) && Useful(t, a) && p < |s.pipes| && OnTheWay(s, p, t)
    ensures OnTheWay(s, p, Step(t, a))
  {
    if Actor(t, a) != Some(p) {
      OthersOnTheWay(s, p, t, a);
    } else if a.Writeable? {
      WriteableOnTheWay(s, p, t, a.socket);
    } else {
      ClosedOnTheWay(s, p, t, a.socket);
    }
  }

  lemma {:induction false} RunOnTheWay(s: Service, p: nat, t: Service, actions: seq<Action>, e: Service)
    requires Inv(t) && UsefulRun(t, actions, e) && p < |s.pipes| && OnTheWay(s, p, t)
    ensures Inv(e) && OnTheWay(s, p, e)
    decreases |actions|
  {
    if actions != [] {
      StepKeeps(t, actions[0]);
      StepOnTheWay(s, p, t, actions[0]);
      RunOnTheWay(s, p, Step(t, actions[0]), actions[1..], e);
    }
  }

  /** While such a pipe is not closed, some service thread has something to do. */
  lemma CloseDueIsUseful(s: Service, p: nat)
    requires Inv(s) && |s.threads| > 0 && p < |s.pipes| && s.pipes[p].state == Disconnecting && !s.pipes[p].graceful
    ensures !AtRest(s)
  {
    assert HasSocket(s, p) && CloseDue(s, p);
    var a: Action;
    if Roused(s, p) {
      var w := s.pipes[p].wsi.value;
      a := if s.sockets[w].phase == Closing then Closed(w) else Writeable(w, true);
    } else if p in s.disconnects {
      if s.threads[0].disconnects == [] {
        a := TakeDisconnects(0);
      } else {
        DisconnectIsEnabled(s, 0);
        a := DisconnectNext(0);
      }
    } else {
      var t :| 0 <= t < |s.threads| && p in s.threads[t].disconnects;
      DisconnectIsEnabled(s, t);
      a := DisconnectNext(t);
    }
    assert Enabled(s, a) && Useful(s, a);
  }

  lemma ThreadsKept(s: Service, actions: seq<Action>, e: Service)
    requires UsefulRun(s, actions, e)
    ensures |e.threads| == |s.threads|
    decreases |actions|
  {
    if actions != [] {
      SameThreads(s, actions[0]);
      ThreadsKept(Step(s, actions[0]), actions[1..], e);
    }
  }

  /** However the service threads are scheduled: their useful steps are bounded,
      and once none is left the close has been carried through by this side, with
      all text sent first if the socket had not failed. */
  lemma EveryScheduleCloses(s: Service, p: nat, actions: seq<Action>, e: Service)
    requires Reached(s) && |s.threads| > 0 && UsefulRun(s, actions, e)
    requires p < |s.pipes| && s.pipes[p].state == Disconnecting && !s.pipes[p].graceful
    ensures |actions| <= Rank(s)
    ensures AtRest(e) ==> EndsWell(s, p, e)
  {
    ReachedInv(s);
    ServiceStepsAreBounded(s, actions, e, Rank(s));
    assert HasSocket(s, p);
    assert SocketIn(s, p, Open) || SocketIn(s, p, Closing);
    RunOnTheWay(s, p, s, actions, e);
    ThreadsKept(s, actions, e);
    if e.pipes[p].state == Disconnecting {
      CloseDueIsUseful(e, p);
    }
  }
}
