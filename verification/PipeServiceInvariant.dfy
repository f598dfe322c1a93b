/** What every step of the audio pipe service keeps. */
module PipeServiceInvariant {

  import opened Common
  import opened PipeService

  // ---- one pipe ----

  /** A connection that succeeded and since then brought messages only. */
  predicate Talking(events: seq<Event>)
  {
    |events| > 0 && events[0] == ConnectSuccess && forall k :: 1 <= k < |events| ==> events[k] == Message
  }

  predicate Ended(events: seq<Event>, last: Event)
  {
    |events| > 0 && Talking(events[..|events| - 1]) && events[|events| - 1] == last
  }

  predicate Silent(p: Pipe)
  {
    p.appended == "" && !p.audio && !p.closeTaken && !p.closedHere
  }

  predicate History(p: Pipe)
  {
    && p.appended == p.sent + p.metadata
    && p.attempts == (if p.vhd then 1 else 0)
    && (p.closedHere ==> p.closeTaken && p.metadata == "")
    && match p.state
       case Idle => p.events == [] && !p.vhd && p.wsi == None && Silent(p)
       case Connecting => p.events == [] && (!p.vhd ==> p.wsi == None) && Silent(p)
       case Failed => p.events == [ConnectFail] && p.vhd && Silent(p)
       case Connected => Talking(p.events) && p.vhd && !p.closeTaken
       case Disconnecting => Talking(p.events) && p.vhd && p.closeTaken
       case Disconnected =>
         p.vhd && Ended(p.events, if p.closeTaken then ConnectionClosedGracefully else ConnectionDropped)
  }

  predicate Live(p: Pipe) { p.state == Connected || p.state == Disconnecting }

  // ---- the whole service ----

  predicate ThreadIds(s: Service)
  {
    forall t :: 0 <= t < |s.threads| ==>
      Ids(s.pipes, s.threads[t].connects) && Ids(s.pipes, s.threads[t].disconnects) && Ids(s.pipes, s.threads[t].writes)
  }

  predicate QueueIds(s: Service)
  {
    Ids(s.pipes, s.connects) && Ids(s.pipes, s.disconnects) && Ids(s.pipes, s.writes)
  }

  predicate Histories(s: Service)
  {
    forall p :: 0 <= p < |s.pipes| ==> History(s.pipes[p])
  }

  predicate Waiting(p: Pipe) { p.state == Connecting && !p.vhd }

  /** Pipes a thread is about to connect, all of them different. */
  predicate Locals(s: Service)
  {
    && (forall t, k :: 0 <= t < |s.threads| && 0 <= k < |s.threads[t].connects| ==>
         s.threads[t].connects[k] < |s.pipes| && Waiting(s.pipes[s.threads[t].connects[k]]))
    && (forall t, k, u, j ::
         (0 <= t < |s.threads| && 0 <= k < |s.threads[t].connects| && 0 <= u < |s.threads| &&
          0 <= j < |s.threads[u].connects| && s.threads[t].connects[k] == s.threads[u].connects[j]) ==>
            t == u && k == j)
  }

  predicate Queueable(p: Pipe) { p.state == Idle || p.state == Connecting }

  predicate Queue(s: Service)
  {
    forall k :: 0 <= k < |s.connects| ==> s.connects[k] < |s.pipes| && Queueable(s.pipes[s.connects[k]])
  }

  predicate Wsis(s: Service)
  {
    && (forall p :: 0 <= p < |s.pipes| && s.pipes[p].wsi.Some? ==> s.pipes[p].wsi.value < |s.sockets|)
    && (forall p, q ::
         (0 <= p < |s.pipes| && 0 <= q < |s.pipes| && s.pipes[p].wsi.Some? && s.pipes[p].wsi == s.pipes[q].wsi) ==>
           p == q)
  }

  predicate Talks(x: Socket) { x.phase == Open || x.phase == Closing }

  /** A live pipe and its socket point at each other. */
  predicate Attached(s: Service)
  {
    && (forall p :: 0 <= p < |s.pipes| && Live(s.pipes[p]) ==> HasSocket(s, p))
    && (forall w :: 0 <= w < |s.sockets| && s.sockets[w].user.Some? ==> HasPipe(s, w))
  }

  predicate HasSocket(s: Service, p: nat)
    requires p < |s.pipes|
  {
    var wsi := s.pipes[p].wsi;
    && wsi.Some? && wsi.value < |s.sockets| && s.sockets[wsi.value].user == Some(p)
    && Talks(s.sockets[wsi.value]) && (s.pipes[p].closedHere ==> s.sockets[wsi.value].phase == Closing)
  }

  predicate HasPipe(s: Service, w: nat)
    requires w < |s.sockets| && s.sockets[w].user.Some?
  {
    var p := s.sockets[w].user.value;
    p < |s.pipes| && s.pipes[p].wsi == Some(w) && Live(s.pipes[p]) && Talks(s.sockets[w])
  }

  /** The socket will call back: to write, or because it is closing. */
  predicate Roused(s: Service, p: nat)
    requires p < |s.pipes|
  {
    var wsi := s.pipes[p].wsi;
    wsi.Some? && wsi.value < |s.sockets| && (s.sockets[wsi.value].writable || s.sockets[wsi.value].phase == Closing)
  }

  predicate WriteDue(s: Service, p: nat)
    requires p < |s.pipes|
  {
    p in s.writes || (exists t :: 0 <= t < |s.threads| && p in s.threads[t].writes) || Roused(s, p)
  }

  predicate CloseDue(s: Service, p: nat)
    requires p < |s.pipes|
  {
    p in s.disconnects || (exists t :: 0 <= t < |s.threads| && p in s.threads[t].disconnects) || Roused(s, p)
  }

  predicate NoLostWrite(s: Service)
  {
    forall p :: 0 <= p < |s.pipes| && WantsWrite(s.pipes[p]) ==> WriteDue(s, p)
  }

  predicate WantsWrite(p: Pipe)
  {
    p.state == Connected && !p.graceful && (p.metadata != "" || p.audio)
  }

  predicate NoLostClose(s: Service)
  {
    forall p :: 0 <= p < |s.pipes| && s.pipes[p].state == Disconnecting && !s.pipes[p].graceful ==> CloseDue(s, p)
  }

  predicate Inv(s: Service)
  {
    && QueueIds(s) && ThreadIds(s) && Histories(s) && Locals(s) && Queue(s) && Wsis(s) && Attached(s)
    && NoLostWrite(s) && NoLostClose(s)
  }

  lemma InitHolds(s: Service)
    requires Init(s)
    ensures Inv(s)
  {
  }

  // ---- the lists ----

  lemma {:induction false} IdleOnesAre(pipes: seq<Pipe>, list: seq<nat>)
    requires Ids(pipes, list)
    ensures forall k :: 0 <= k < |IdleOnes(pipes, list)| ==>
              IdleOnes(pipes, list)[k] in list && pipes[IdleOnes(pipes, list)[k]].state == Idle
    ensures forall k, j :: 0 <= k < j < |IdleOnes(pipes, list)| ==> IdleOnes(pipes, list)[k] != IdleOnes(pipes, list)[j]
    decreases |list|
  {
    if list != [] {
      IdleOnesAre(pipes, list[..|list| - 1]);
    }
  }

  lemma FoundIs(pipes: seq<Pipe>, list: seq<nat>, w: nat)
    requires Ids(pipes, list)
    ensures var ap := Found(pipes, list, w);
            ap.Some? ==>
              ap.value in list && Awaits(pipes[ap.value], w) && ap.value !in Without(list, Removed(pipes, list, w))
  {
  }

  lemma InStateIds(pipes: seq<Pipe>, list: seq<nat>, state: LwsState)
    requires Ids(pipes, list)
    ensures Ids(pipes, InState(pipes, list, state))
  {
    var r := InState(pipes, list, state);
    forall k | 0 <= k < |r| ensures r[k] < |pipes| {
      assert r[k] in r;
    }
  }

  // ---- the steps ----

  /** The pipe a step works on. */
  function Actor(s: Service, a: Action): Option<nat>
    requires Enabled(s, a)
  {
    match a
    case New => None
    case Connect(p) => None
    case SendText(p, _) => Some(p)
    case Audio(p) => Some(p)
    case Close(p) => Some(p)
    case ShutDownGracefully(p) => Some(p)
    case MarkConnects(t) => None
    case ConnectNext(t, _) => Some(s.threads[t].connects[0])
    case TakeDisconnects(t) => None
    case DisconnectNext(t) => None
    case TakeWrites(t) => None
    case WriteNext(t) => None
    case Error(w) => Found(s.pipes, s.connects, w)
    case Established(w) => Found(s.pipes, s.connects, w)
    case Receive(w) => s.sockets[w].user
    case Writeable(w, _) => s.sockets[w].user
    case Closed(w) => s.sockets[w].user
  }

  /** What is known of it beforehand. */
  predicate ActorOk(s: Service, a: Action)
    requires Enabled(s, a)
  {
    match Actor(s, a)
    case None => true
    case Some(p) =>
      && p < |s.pipes|
      && (a.ConnectNext? ==> Waiting(s.pipes[p]))
      && (a.Error? || a.Established? ==> s.pipes[p].state == Connecting && s.pipes[p].wsi == Some(a.socket))
      && (a.Receive? || a.Writeable? || a.Closed? ==> HasPipe(s, a.socket))
  }

  lemma ActorIsOk(s: Service, a: Action)
    requires Locals(s) && Attached(s) && Enabled(s, a)
    ensures ActorOk(s, a)
  {
    match a
    case Error(w) => FoundIs(s.pipes, s.connects, w);
    case Established(w) => FoundIs(s.pipes, s.connects, w);
    case _ =>
  }

  /** The nested error callback only reports to the pipe being connected. */
  lemma RefusedPipe(s: Service, p: nat, w: nat)
    requires Ids(s.pipes, s.connects) && IsPipe(s, p)
    requires s.pipes[p].wsi == Some(w) && forall q :: 0 <= q < |s.pipes| && s.pipes[q].wsi == Some(w) ==> q == p
    ensures var e := DoRefused(s, p, w);
            e.pipes == s.pipes[p := s.pipes[p].(wsi := None)] ||
            e.pipes == s.pipes[p := Notify(s.pipes[p].(wsi := None), ConnectFail, Failed)]
  {
    FoundIs(s.pipes, s.connects, w);
    var ap := Found(s.pipes, s.connects, w);
    assert ap != None ==> ap == Some(p);
  }

  lemma ConnectPipes(s: Service, t: nat, outcome: Outcome)
    requires Enabled(s, ConnectNext(t, outcome)) && Wsis(s)
    ensures var p := s.threads[t].connects[0];
            var e := DoConnect(s, t, outcome);
            var begun := Begun(s.pipes[p], if outcome == Pending then Some(|s.sockets|) else None);
            e.pipes == s.pipes[p := begun] ||
            (outcome == Refused && e.pipes == s.pipes[p := Notify(begun, ConnectFail, Failed)])
  {
    if outcome == Refused {
      var list := s.threads[t].connects;
      var p, w := list[0], |s.sockets|;
      var s1 := WithThread(s, t, s.threads[t].(connects := list[1..]));
      var s2 := WithPipe(s1, p, Begun(s.pipes[p], Some(w))).(sockets := s.sockets + [Socket(Dead, None, false)]);
      RefusedPipe(s2, p, w);
      var x, y := s2.pipes[p].(wsi := None), Notify(s2.pipes[p].(wsi := None), ConnectFail, Failed);
      assert s2.pipes[p := x] == s.pipes[p := x] && s2.pipes[p := y] == s.pipes[p := y];
    }
  }

  lemma OtherPipes(s: Service, a: Action, p: nat)
    requires Enabled(s, a) && ActorOk(s, a) && Wsis(s)
    requires p < |s.pipes| && Actor(s, a) != Some(p)
    ensures var e := Step(s, a);
            |s.pipes| <= |e.pipes| &&
            (e.pipes[p] == s.pipes[p]
              || (a.MarkConnects? && s.pipes[p].state == Idle && e.pipes[p] == s.pipes[p].(state := Connecting)))
  {
    match a
    case MarkConnects(t) =>
      IdleOnesAre(s.pipes, s.connects);
      var ids := IdleOnes(s.pipes, s.connects);
    case ConnectNext(t, outcome) => ConnectPipes(s, t, outcome);
    case _ =>
  }

  /** How a step changes the pipe it works on. */
  predicate Turn(p: Pipe, a: Action, q: Pipe)
  {
    match a
    case SendText(_, text) =>
      q == if p.state == Connected then p.(metadata := p.metadata + text, appended := p.appended + text) else p
    case Audio(_) => q == if p.state == Connected then p.(audio := true) else p
    case Close(_) => q == if p.state == Connected then p.(state := Disconnecting, closeTaken := true) else p
    case ShutDownGracefully(_) => q == p.(graceful := true)
    case ConnectNext(_, outcome) =>
      q.wsi.Some? == outcome.Pending? && (q == Begun(p, q.wsi) || q == Notify(Begun(p, None), ConnectFail, Failed))
    case Error(_) => q == Notify(p, ConnectFail, Failed)
    case Established(_) => q == Notify(p, ConnectSuccess, Connected).(vhd := true)
    case Receive(_) => q == Notify(p, Message, p.state)
    case Writeable(_, _) =>
      q == if p.graceful then p
           else if |p.metadata| > 0 then p.(metadata := "", sent := p.sent + p.metadata)
           else if p.state == Disconnecting then p.(closedHere := true)
           else p.(audio := false)
    case Closed(_) =>
      q == if p.state == Disconnecting then Notify(p, ConnectionClosedGracefully, Disconnected)
           else if p.state == Connected then Notify(p, ConnectionDropped, Disconnected)
           else p.(state := Disconnected)
    case _ => false
  }

  lemma SearchTurns(s: Service, a: Action, p: nat)
    requires Enabled(s, a) && ActorOk(s, a) && Actor(s, a) == Some(p) && (a.Error? || a.Established?)
    ensures p < |s.pipes| && |Step(s, a).pipes| == |s.pipes|
    ensures Turn(s.pipes[p], a, Step(s, a).pipes[p])
  {
  }

  lemma CallbackTurns(s: Service, a: Action, p: nat)
    requires Enabled(s, a) && ActorOk(s, a) && Actor(s, a) == Some(p) && (a.Receive? || a.Writeable? || a.Closed?)
    ensures p < |s.pipes| && |Step(s, a).pipes| == |s.pipes|
    ensures Turn(s.pipes[p], a, Step(s, a).pipes[p])
  {
  }

  lemma ConnectTurns(s: Service, a: Action, p: nat)
    requires Enabled(s, a) && Wsis(s) && Actor(s, a) == Some(p) && a.ConnectNext?
    ensures p < |s.pipes| && |Step(s, a).pipes| == |s.pipes|
    ensures Turn(s.pipes[p], a, Step(s, a).pipes[p])
  {
    ConnectPipes(s, a.thread, a.outcome);
  }

  lemma ActorTurns(s: Service, a: Action, p: nat)
    requires Enabled(s, a) && ActorOk(s, a) && Wsis(s) && Actor(s, a) == Some(p)
    ensures p < |s.pipes| && |Step(s, a).pipes| == |s.pipes|
    ensures Turn(s.pipes[p], a, Step(s, a).pipes[p])
  {
    match a
    case ConnectNext(_, _) => ConnectTurns(s, a, p);
    case Error(_) => SearchTurns(s, a, p);
    case Established(_) => SearchTurns(s, a, p);
    case Receive(_) => CallbackTurns(s, a, p);
    case Writeable(_, _) => CallbackTurns(s, a, p);
    case Closed(_) => CallbackTurns(s, a, p);
    case SendText(_, _) =>
    case Audio(_) =>
    case Close(_) =>
    case ShutDownGracefully(_) =>
  }

  /** What a pipe may need to know of itself before its turn. */
  predicate Ready(p: Pipe, a: Action)
  {
    && (a.ConnectNext? ==> Waiting(p))
    && (a.Error? || a.Established? ==> p.state == Connecting && p.wsi.Some?)
    && (a.Receive? || a.Writeable? || a.Closed? ==> Live(p) && p.wsi.Some?)
  }

  lemma TurnKeepsHistory(p: Pipe, a: Action, q: Pipe)
    requires History(p) && Ready(p, a) && Turn(p, a, q)
    ensures History(q)
  {
    if a.Receive? || a.Closed? {
      LiveTurnKeepsHistory(p, a, q);
    } else if a.SendText? || a.Writeable? {
      TextTurnKeepsHistory(p, a, q);
    }
  }

  lemma LiveTurnKeepsHistory(p: Pipe, a: Action, q: Pipe)
    requires History(p) && Ready(p, a) && Turn(p, a, q) && (a.Receive? || a.Closed?)
    ensures History(q)
  {
    assert q.events[..|p.events|] == p.events;
  }

  lemma TextTurnKeepsHistory(p: Pipe, a: Action, q: Pipe)
    requires History(p) && Ready(p, a) && Turn(p, a, q) && (a.SendText? || a.Writeable?)
    ensures History(q)
  {
    if a.SendText? {
      assert p.sent + (p.metadata + a.text) == (p.sent + p.metadata) + a.text;
    }
  }

  lemma HistoryKept(s: Service, a: Action, p: nat)
    requires Enabled(s, a) && ActorOk(s, a) && Wsis(s)
    requires p < |s.pipes| && History(s.pipes[p])
    ensures |s.pipes| <= |Step(s, a).pipes| && History(Step(s, a).pipes[p])
  {
    if Actor(s, a) != Some(p) {
      OtherPipes(s, a, p);
    } else {
      ActorTurns(s, a, p);
      TurnKeepsHistory(s.pipes[p], a, Step(s, a).pipes[p]);
    }
  }

  // ---- the lists after a step ----

  lemma ConnectsAfter(s: Service, a: Action, x: nat)
    requires Enabled(s, a) && ActorOk(s, a) && Wsis(s) && x in Step(s, a).connects
    ensures x in s.connects || a == Connect(x)
    ensures a.Error? || a.Established? ==> Actor(s, a) != Some(x)
  {
    match a
    case Error(w) => FoundIs(s.pipes, s.connects, w);
    case Established(w) => FoundIs(s.pipes, s.connects, w);
    case _ =>
  }

  lemma TurnQueueable(p: Pipe, a: Action, q: Pipe)
    requires Queueable(p) && Turn(p, a, q) && Ready(p, a) && !a.Error? && !a.Established?
    requires q.state != Failed
    ensures Queueable(q)
  {
  }

  lemma QueuedStaysYoung(s: Service, a: Action, x: nat)
    requires Enabled(s, a) && ActorOk(s, a) && Wsis(s) && Queue(s) && x in Step(s, a).connects
    ensures x < |Step(s, a).pipes| && Queueable(Step(s, a).pipes[x])
  {
    ConnectsAfter(s, a, x);
    if Actor(s, a) != Some(x) {
      OtherPipes(s, a, x);
    } else {
      ActorStaysYoung(s, a, x);
    }
  }

  lemma ActorStaysYoung(s: Service, a: Action, x: nat)
    requires Enabled(s, a) && ActorOk(s, a) && Wsis(s) && Actor(s, a) == Some(x) && x in Step(s, a).connects
    requires x < |s.pipes| && Queueable(s.pipes[x]) && !a.Error? && !a.Established?
    ensures x < |Step(s, a).pipes| && Queueable(Step(s, a).pipes[x])
  {
    ActorTurns(s, a, x);
    if a.ConnectNext? {
      ConnectPipes(s, a.thread, a.outcome);
    }
    TurnQueueable(s.pipes[x], a, Step(s, a).pipes[x]);
  }

  lemma QueueKept(s: Service, a: Action)
    requires Enabled(s, a) && ActorOk(s, a) && Wsis(s) && Queue(s)
    ensures Queue(Step(s, a))
  {
    var e := Step(s, a);
    forall k | 0 <= k < |e.connects| ensures e.connects[k] < |e.pipes| && Queueable(e.pipes[e.connects[k]]) {
      QueuedStaysYoung(s, a, e.connects[k]);
    }
  }

  /** Where a pipe of a thread's connect list comes from. */
  lemma LocalsAfter(s: Service, a: Action, t: nat, k: nat)
    requires Enabled(s, a) && t < |Step(s, a).threads| && k < |Step(s, a).threads[t].connects|
    ensures |Step(s, a).threads| == |s.threads|
    ensures if a == MarkConnects(t) then Step(s, a).threads[t].connects == IdleOnes(s.pipes, s.connects)
            else if a.ConnectNext? && a.thread == t then Step(s, a).threads[t].connects == s.threads[t].connects[1..]
            else Step(s, a).threads[t].connects == s.threads[t].connects
  {
  }

  lemma TurnWaiting(p: Pipe, a: Action, q: Pipe)
    requires Waiting(p) && History(p) && Turn(p, a, q) && Ready(p, a) && !a.ConnectNext?
    ensures Waiting(q)
  {
  }

  lemma WaitingKept(s: Service, a: Action, x: nat)
    requires Enabled(s, a) && ActorOk(s, a) && Wsis(s) && x < |s.pipes| && Waiting(s.pipes[x]) && History(s.pipes[x])
    requires !a.ConnectNext? || Actor(s, a) != Some(x)
    ensures x < |Step(s, a).pipes| && Waiting(Step(s, a).pipes[x])
  {
    if Actor(s, a) != Some(x) {
      OtherPipes(s, a, x);
    } else {
      ActorTurns(s, a, x);
      TurnWaiting(s.pipes[x], a, Step(s, a).pipes[x]);
    }
  }

  lemma MarkedWait(s: Service, t: nat, x: nat)
    requires Enabled(s, MarkConnects(t)) && Histories(s) && x in IdleOnes(s.pipes, s.connects)
    ensures x < |s.pipes| && Waiting(Marked(s.pipes, IdleOnes(s.pipes, s.connects))[x])
  {
    IdleOnesAre(s.pipes, s.connects);
    assert s.pipes[x].state == Idle && History(s.pipes[x]);
  }

  lemma LocalsWait(s: Service, a: Action, t: nat, k: nat)
    requires Enabled(s, a) && ActorOk(s, a) && Wsis(s) && Histories(s) && Locals(s)
    requires t < |Step(s, a).threads| && k < |Step(s, a).threads[t].connects|
    ensures var x := Step(s, a).threads[t].connects[k]; x < |Step(s, a).pipes| && Waiting(Step(s, a).pipes[x])
  {
    LocalsAfter(s, a, t, k);
    var x := Step(s, a).threads[t].connects[k];
    if a == MarkConnects(t) {
      assert x in IdleOnes(s.pipes, s.connects);
      MarkedWait(s, t, x);
    } else {
      ghost var j := if a.ConnectNext? && a.thread == t then k + 1 else k;
      assert x == s.threads[t].connects[j];
      assert a.ConnectNext? ==> x != s.threads[a.thread].connects[0];
      WaitingKept(s, a, x);
    }
  }

  lemma LocalsDiffer(s: Service, a: Action, t: nat, k: nat, u: nat, j: nat)
    requires Enabled(s, a) && Histories(s) && Locals(s)
    requires t < |Step(s, a).threads| && k < |Step(s, a).threads[t].connects|
    requires u < |Step(s, a).threads| && j < |Step(s, a).threads[u].connects|
    requires Step(s, a).threads[t].connects[k] == Step(s, a).threads[u].connects[j]
    ensures t == u && k == j
  {
    LocalsAfter(s, a, t, k);
    LocalsAfter(s, a, u, j);
    if a.MarkConnects? {
      MarkedDiffer(s, Step(s, a), a.thread, t, k, u, j);
    } else if a.ConnectNext? {
      NextDiffer(s, Step(s, a), a.thread, t, k, u, j);
    }
  }

  lemma MarkedDiffer(s: Service, e: Service, m: nat, t: nat, k: nat, u: nat, j: nat)
    requires QueueIds(s) && Histories(s) && Locals(s) && m < |s.threads| && |e.threads| == |s.threads|
    requires t < |e.threads| && k < |e.threads[t].connects| && u < |e.threads| && j < |e.threads[u].connects|
    requires e.threads[t].connects == if t == m then IdleOnes(s.pipes, s.connects) else s.threads[t].connects
    requires e.threads[u].connects == if u == m then IdleOnes(s.pipes, s.connects) else s.threads[u].connects
    requires e.threads[t].connects[k] == e.threads[u].connects[j]
    ensures t == u && k == j
  {
    IdleOnesAre(s.pipes, s.connects);
    var ids := IdleOnes(s.pipes, s.connects);
    assert m == t ==> s.pipes[ids[k]].state == Idle;
    assert m == u ==> s.pipes[ids[j]].state == Idle;
  }

  lemma NextDiffer(s: Service, e: Service, m: nat, t: nat, k: nat, u: nat, j: nat)
    requires Locals(s) && m < |s.threads| && s.threads[m].connects != [] && |e.threads| == |s.threads|
    requires t < |e.threads| && k < |e.threads[t].connects| && u < |e.threads| && j < |e.threads[u].connects|
    requires e.threads[t].connects == if t == m then s.threads[t].connects[1..] else s.threads[t].connects
    requires e.threads[u].connects == if u == m then s.threads[u].connects[1..] else s.threads[u].connects
    requires e.threads[t].connects[k] == e.threads[u].connects[j]
    ensures t == u && k == j
  {
    var k0, j0 := if t == m then k + 1 else k, if u == m then j + 1 else j;
    assert s.threads[t].connects[k0] == s.threads[u].connects[j0];
  }

  lemma LocalsKept(s: Service, a: Action)
    requires Enabled(s, a) && ActorOk(s, a) && Wsis(s) && Histories(s) && Locals(s)
    ensures Locals(Step(s, a))
  {
    var e := Step(s, a);
    forall t, k | 0 <= t < |e.threads| && 0 <= k < |e.threads[t].connects|
      ensures e.threads[t].connects[k] < |e.pipes| && Waiting(e.pipes[e.threads[t].connects[k]])
    {
      LocalsWait(s, a, t, k);
    }
    forall t, k, u, j | 0 <= t < |e.threads| && 0 <= k < |e.threads[t].connects| && 0 <= u < |e.threads| &&
                        0 <= j < |e.threads[u].connects| && e.threads[t].connects[k] == e.threads[u].connects[j]
      ensures t == u && k == j
    {
      LocalsDiffer(s, a, t, k, u, j);
    }
  }

  // ---- the sockets after a step ----

  function SocketAfter(s: Service, a: Action, w: nat): Socket
    requires Enabled(s, a) && w < |s.sockets|
  {
    var x := s.sockets[w];
    match a
    case DisconnectNext(t) => if s.pipes[s.threads[t].disconnects[0]].wsi == Some(w) then x.(writable := true) else x
    case WriteNext(t) => if s.pipes[s.threads[t].writes[0]].wsi == Some(w) then x.(writable := true) else x
    case Error(v) => if v == w then x.(phase := Dead) else x
    case Established(v) => if v == w then x.(phase := Open, user := Found(s.pipes, s.connects, w)) else x
    case Writeable(v, whole) => if v == w then WrittenSocket(s, w, whole) else x
    case Closed(v) => if v == w then Socket(Dead, None, false) else x
    case _ => x
  }

  function WrittenSocket(s: Service, w: nat, whole: bool): Socket
    requires w < |s.sockets| && UserIsPipe(s, w)
  {
    var done := s.sockets[w].(writable := false);
    if done.user == None || s.pipes[done.user.value].graceful then done
    else if |s.pipes[done.user.value].metadata| > 0 then
      (if whole then done.(writable := true) else done.(phase := Closing))
    else if s.pipes[done.user.value].state == Disconnecting then done.(phase := Closing)
    else done
  }

  lemma SocketsAfter(s: Service, a: Action)
    requires Enabled(s, a)
    ensures |Step(s, a).sockets| == |s.sockets| + (if a.ConnectNext? && a.outcome != Nothing then 1 else 0)
    ensures forall w :: 0 <= w < |s.sockets| ==> Step(s, a).sockets[w] == SocketAfter(s, a, w)
    ensures |Step(s, a).sockets| > |s.sockets| ==>
              Step(s, a).sockets[|s.sockets|] == Socket(if a.outcome == Pending then Opening else Dead, None, false)
  {
    if a.ConnectNext? {
      ConnectSockets(s, a.thread, a.outcome);
    } else {
      CallbackSockets(s, a);
    }
  }

  lemma ConnectSockets(s: Service, t: nat, outcome: Outcome)
    requires Enabled(s, ConnectNext(t, outcome))
    ensures DoConnect(s, t, outcome).sockets ==
              s.sockets +
              if outcome == Nothing then [] else [Socket(if outcome == Pending then Opening else Dead, None, false)]
  {
  }

  lemma CallbackSockets(s: Service, a: Action)
    requires Enabled(s, a) && !a.ConnectNext?
    ensures |Step(s, a).sockets| == |s.sockets|
    ensures forall w :: 0 <= w < |s.sockets| ==> Step(s, a).sockets[w] == SocketAfter(s, a, w)
  {
  }

  lemma PipesGrow(s: Service, a: Action)
    requires Enabled(s, a) && ActorOk(s, a) && Wsis(s)
    ensures Step(s, a).pipes == s.pipes + [NEW_PIPE] || (a != New && |Step(s, a).pipes| == |s.pipes|)
  {
    match a
    case ConnectNext(t, outcome) => ConnectPipes(s, t, outcome);
    case _ =>
  }

  lemma WsiAfter(s: Service, a: Action, p: nat)
    requires Enabled(s, a) && ActorOk(s, a) && Wsis(s) && p < |Step(s, a).pipes|
    ensures var q := Step(s, a).pipes[p];
            if p >= |s.pipes| then q.wsi == None
            else if a.ConnectNext? && Actor(s, a) == Some(p) then
              q.wsi == (if a.outcome == Pending then Some(|s.sockets|) else None)
            else q.wsi == s.pipes[p].wsi
  {
    PipesGrow(s, a);
    if p < |s.pipes| {
      if Actor(s, a) == Some(p) {
        ActorTurns(s, a, p);
        if a.ConnectNext? { ConnectPipes(s, a.thread, a.outcome); }
      } else {
        OtherPipes(s, a, p);
      }
    }
  }

  lemma WsisKept(s: Service, a: Action)
    requires Enabled(s, a) && ActorOk(s, a) && Wsis(s)
    ensures Wsis(Step(s, a))
  {
    var e := Step(s, a);
    SocketsAfter(s, a);
    forall p | 0 <= p < |e.pipes| && e.pipes[p].wsi.Some? ensures e.pipes[p].wsi.value < |e.sockets| {
      WsiAfter(s, a, p);
    }
    forall p, q | 0 <= p < |e.pipes| && 0 <= q < |e.pipes| && e.pipes[p].wsi.Some? && e.pipes[p].wsi == e.pipes[q].wsi
      ensures p == q
    {
      WsiAfter(s, a, p);
      WsiAfter(s, a, q);
    }
  }

  // ---- pipe and socket ----

  lemma TurnLive(p: Pipe, a: Action, q: Pipe)
    requires Turn(p, a, q) && Ready(p, a)
    ensures Live(q) ==> Live(p) || a.Established?
    ensures Live(p) ==> Live(q) || a.Closed?
    ensures q.closedHere ==>
              p.closedHere || (a.Writeable? && !p.graceful && p.metadata == "" && p.state == Disconnecting)
  {
  }

  /** A live pipe a step does not work on keeps its socket. */
  lemma OtherSocket(s: Service, a: Action, p: nat)
    requires Enabled(s, a) && p < |s.pipes| && HasSocket(s, p) && Actor(s, a) != Some(p)
    ensures var w := s.pipes[p].wsi.value; var x, y := s.sockets[w], SocketAfter(s, a, w);
            y.user == x.user && y.phase == x.phase && (x.writable ==> y.writable)
  {
  }

  /** The socket of the pipe a step works on, while that pipe stays live. */
  lemma ActorSocket(s: Service, a: Action, p: nat)
    requires Enabled(s, a) && ActorOk(s, a) && Actor(s, a) == Some(p) && p < |s.pipes| && Attached(s)
    requires a.Established? || (Live(s.pipes[p]) && !a.Closed?)
    ensures s.pipes[p].wsi.Some? && s.pipes[p].wsi.value < |s.sockets|
    ensures var y := SocketAfter(s, a, s.pipes[p].wsi.value);
            y.user == Some(p) && Talks(y) &&
            (Live(s.pipes[p]) && s.sockets[s.pipes[p].wsi.value].phase == Closing ==> y.phase == Closing) &&
            (a.Writeable? && !s.pipes[p].graceful && s.pipes[p].metadata == "" && s.pipes[p].state == Disconnecting ==>
              y.phase == Closing)
  {
    assert Live(s.pipes[p]) ==> HasSocket(s, p);
  }

  lemma ActorSocketKept(s: Service, a: Action, p: nat)
    requires Enabled(s, a) && ActorOk(s, a) && Wsis(s) && Attached(s) && Actor(s, a) == Some(p)
    requires p < |s.pipes| && p < |Step(s, a).pipes| && Live(Step(s, a).pipes[p]) && History(s.pipes[p])
    ensures HasSocket(Step(s, a), p)
  {
    var q := Step(s, a).pipes[p];
    ActorTurns(s, a, p);
    TurnLive(s.pipes[p], a, q);
    ActorSocket(s, a, p);
    SocketsAfter(s, a);
    WsiAfter(s, a, p);
    assert Live(s.pipes[p]) ==> HasSocket(s, p);
  }

  lemma OtherSocketKept(s: Service, a: Action, p: nat)
    requires Enabled(s, a) && ActorOk(s, a) && Wsis(s) && Actor(s, a) != Some(p)
    requires p < |s.pipes| && p < |Step(s, a).pipes| && Live(Step(s, a).pipes[p])
    requires Live(s.pipes[p]) ==> HasSocket(s, p)
    ensures HasSocket(Step(s, a), p)
  {
    OtherPipes(s, a, p);
    OtherSocket(s, a, p);
    SocketsAfter(s, a);
  }

  /** A socket with a pipe keeps it until it is closed. */
  lemma PipeKept(s: Service, a: Action, w: nat)
    requires Enabled(s, a) && ActorOk(s, a) && Wsis(s) && w < |s.sockets|
    requires s.sockets[w].user.Some? ==> HasPipe(s, w)
    requires SocketAfter(s, a, w).user.Some?
    ensures a == Established(w) || s.sockets[w].user == SocketAfter(s, a, w).user
    ensures a != Established(w) ==> a != Closed(w) && Talks(SocketAfter(s, a, w))
    ensures a == Established(w) ==> SocketAfter(s, a, w).user == Actor(s, a)
  {
  }

  lemma UserKept(s: Service, a: Action, w: nat)
    requires Enabled(s, a) && ActorOk(s, a) && Wsis(s) && w < |s.sockets|
    requires s.sockets[w].user.Some? ==> HasPipe(s, w)
    requires SocketAfter(s, a, w).user.Some?
    ensures var p := SocketAfter(s, a, w).user.value;
            p < |s.pipes| <= |Step(s, a).pipes| && Step(s, a).pipes[p].wsi == Some(w) && Live(Step(s, a).pipes[p])
  {
    PipeKept(s, a, w);
    var p := SocketAfter(s, a, w).user.value;
    WsiAfter(s, a, p);
    LiveKept(s, a, p);
  }

  lemma LiveKept(s: Service, a: Action, p: nat)
    requires Enabled(s, a) && ActorOk(s, a) && Wsis(s) && p < |s.pipes|
    requires Live(s.pipes[p]) || (a.Established? && Actor(s, a) == Some(p))
    requires !(a.Closed? && Actor(s, a) == Some(p))
    ensures p < |Step(s, a).pipes| && Live(Step(s, a).pipes[p])
  {
    if Actor(s, a) == Some(p) {
      ActorTurns(s, a, p);
      TurnLive(s.pipes[p], a, Step(s, a).pipes[p]);
    } else {
      OtherPipes(s, a, p);
    }
  }

  lemma AttachedKept(s: Service, a: Action)
    requires Enabled(s, a) && ActorOk(s, a) && Wsis(s) && Attached(s) && Histories(s)
    ensures Attached(Step(s, a))
  {
    var e := Step(s, a);
    PipesGrow(s, a);
    SocketsAfter(s, a);
    forall p | 0 <= p < |e.pipes| && Live(e.pipes[p]) ensures HasSocket(e, p) {
      if Actor(s, a) == Some(p) {
        ActorSocketKept(s, a, p);
      } else {
        OtherSocketKept(s, a, p);
      }
    }
    forall w | 0 <= w < |e.sockets| && e.sockets[w].user.Some? ensures HasPipe(e, w) {
      UserKept(s, a, w);
      PipeKept(s, a, w);
    }
  }

  // ---- nothing due is forgotten ----

  lemma RousedKept(s: Service, a: Action, p: nat)
    requires Enabled(s, a) && ActorOk(s, a) && Wsis(s) && p < |s.pipes| && Live(s.pipes[p]) && HasSocket(s, p)
    requires Roused(s, p) && !(a.Writeable? && Actor(s, a) == Some(p)) && !(a.Closed? && Actor(s, a) == Some(p))
    ensures p < |Step(s, a).pipes| && Roused(Step(s, a), p)
  {
    SocketsAfter(s, a);
    PipesGrow(s, a);
    WsiAfter(s, a, p);
    if Actor(s, a) != Some(p) {
      OtherSocket(s, a, p);
    }
  }

  lemma Requested(s: Service, a: Action, p: nat)
    requires Enabled(s, a) && ActorOk(s, a) && Wsis(s) && p < |s.pipes| && HasSocket(s, p)
    requires (a.DisconnectNext? && s.threads[a.thread].disconnects[0] == p)
             || (a.WriteNext? && s.threads[a.thread].writes[0] == p)
    ensures p < |Step(s, a).pipes| && Roused(Step(s, a), p)
  {
    SocketsAfter(s, a);
  }

  lemma WritesAfter(s: Service, a: Action)
    requires Enabled(s, a)
    ensures if a.TakeWrites? then Step(s, a).writes == [] else s.writes <= Step(s, a).writes
    ensures if a.TakeDisconnects? then Step(s, a).disconnects == [] else s.disconnects <= Step(s, a).disconnects
    ensures forall x :: x in Step(s, a).writes || x in Step(s, a).disconnects ==>
              x in s.writes || x in s.disconnects || Actor(s, a) == Some(x)
  {
  }

  lemma ThreadAfter(s: Service, a: Action, t: nat)
    requires Enabled(s, a) && t < |s.threads|
    ensures |Step(s, a).threads| == |s.threads|
    ensures Step(s, a).threads[t].writes ==
              if a == TakeWrites(t) then InState(s.pipes, s.writes, Connected)
              else if a == WriteNext(t) then s.threads[t].writes[1..]
              else s.threads[t].writes
    ensures Step(s, a).threads[t].disconnects ==
              if a == TakeDisconnects(t) then InState(s.pipes, s.disconnects, Disconnecting)
              else if a == DisconnectNext(t) then s.threads[t].disconnects[1..]
              else s.threads[t].disconnects
  {
    SameThreads(s, a);
    if !ListStep(a) || a.thread != t {
      OtherThreads(s, a, t);
    }
  }

  predicate ListStep(a: Action)
  {
    a.TakeWrites? || a.WriteNext? || a.TakeDisconnects? || a.DisconnectNext?
  }

  lemma OtherThreads(s: Service, a: Action, t: nat)
    requires Enabled(s, a) && t < |s.threads| && (!ListStep(a) || a.thread != t)
    ensures |Step(s, a).threads| == |s.threads|
    ensures Step(s, a).threads[t].writes == s.threads[t].writes
            && Step(s, a).threads[t].disconnects == s.threads[t].disconnects
  {
  }

  /** A due write stays due over steps that neither serve nor close the pipe. */
  lemma WriteDueKept(s: Service, a: Action, p: nat)
    requires Enabled(s, a) && ActorOk(s, a) && Wsis(s) && p < |s.pipes| && s.pipes[p].state == Connected
             && HasSocket(s, p)
    requires WriteDue(s, p) && !(a.Writeable? && Actor(s, a) == Some(p)) && !(a.Closed? && Actor(s, a) == Some(p))
    ensures p < |Step(s, a).pipes| && WriteDue(Step(s, a), p)
  {
    var e := Step(s, a);
    PipesGrow(s, a);
    if Roused(s, p) {
      RousedKept(s, a, p);
    } else if p in s.writes {
      WritesAfter(s, a);
      if a.TakeWrites? {
        ThreadAfter(s, a, a.thread);
        assert p in e.threads[a.thread].writes;
      }
    } else {
      var t :| 0 <= t < |s.threads| && p in s.threads[t].writes;
      ThreadAfter(s, a, t);
      if a == WriteNext(t) && s.threads[t].writes[0] == p {
        Requested(s, a, p);
      } else {
        assert p in e.threads[t].writes;
      }
    }
  }

  lemma CloseDueKept(s: Service, a: Action, p: nat)
    requires Enabled(s, a) && ActorOk(s, a) && Wsis(s) && p < |s.pipes| && s.pipes[p].state == Disconnecting
             && HasSocket(s, p)
    requires CloseDue(s, p) && !(a.Writeable? && Actor(s, a) == Some(p)) && !(a.Closed? && Actor(s, a) == Some(p))
    ensures p < |Step(s, a).pipes| && CloseDue(Step(s, a), p)
  {
    var e := Step(s, a);
    PipesGrow(s, a);
    if Roused(s, p) {
      RousedKept(s, a, p);
    } else if p in s.disconnects {
      WritesAfter(s, a);
      if a.TakeDisconnects? {
        ThreadAfter(s, a, a.thread);
        assert p in e.threads[a.thread].disconnects;
      }
    } else {
      var t :| 0 <= t < |s.threads| && p in s.threads[t].disconnects;
      ThreadAfter(s, a, t);
      if a == DisconnectNext(t) && s.threads[t].disconnects[0] == p {
        Requested(s, a, p);
      } else {
        assert p in e.threads[t].disconnects;
      }
    }
  }

  /** When a step makes a pipe want a write, or leaves it wanting one. */
  lemma TurnWantsWrite(p: Pipe, a: Action, q: Pipe)
    requires Turn(p, a, q) && Ready(p, a) && History(p) && WantsWrite(q)
    ensures p.state == Connected && !p.graceful && !a.Closed?
    ensures a.SendText? || a.Audio? || WantsWrite(p)
    ensures a.Writeable? ==> p.metadata != ""
  {
  }

  lemma QueuedAfter(s: Service, a: Action, p: nat)
    requires Enabled(s, a) && p < |s.pipes| && s.pipes[p].state == Connected
    ensures (a.SendText? || a.Audio?) && Actor(s, a) == Some(p) ==> p in Step(s, a).writes
    ensures a == Close(p) ==> p in Step(s, a).disconnects
  {
  }

  /** After text was sent the socket calls back once more, or it is closing. */
  lemma RousedByWriting(s: Service, a: Action, p: nat)
    requires Enabled(s, a) && ActorOk(s, a) && Wsis(s) && a.Writeable? && Actor(s, a) == Some(p) && p < |s.pipes|
    requires !s.pipes[p].graceful && (s.pipes[p].metadata != "" || s.pipes[p].state == Disconnecting)
    ensures p < |Step(s, a).pipes| && Roused(Step(s, a), p)
  {
    SocketsAfter(s, a);
    WsiAfter(s, a, p);
  }

  lemma WriteKept(s: Service, a: Action, p: nat)
    requires Enabled(s, a) && ActorOk(s, a) && Wsis(s) && p < |s.pipes| && History(s.pipes[p])
    requires Live(s.pipes[p]) ==> HasSocket(s, p)
    requires WantsWrite(s.pipes[p]) ==> WriteDue(s, p)
    requires p < |Step(s, a).pipes| && WantsWrite(Step(s, a).pipes[p])
    ensures WriteDue(Step(s, a), p)
  {
    if Actor(s, a) != Some(p) {
      OtherPipes(s, a, p);
      WriteDueKept(s, a, p);
    } else {
      ActorTurns(s, a, p);
      TurnWantsWrite(s.pipes[p], a, Step(s, a).pipes[p]);
      if a.Writeable? {
        RousedByWriting(s, a, p);
      } else if a.SendText? || a.Audio? {
        QueuedAfter(s, a, p);
      } else {
        WriteDueKept(s, a, p);
      }
    }
  }

  lemma TurnWantsClose(p: Pipe, a: Action, q: Pipe)
    requires Turn(p, a, q) && Ready(p, a) && q.state == Disconnecting && !q.graceful
    ensures !p.graceful && !a.Closed?
    ensures p.state == Disconnecting || (p.state == Connected && a.Close?)
  {
  }

  lemma CloseKept(s: Service, a: Action, p: nat)
    requires Enabled(s, a) && ActorOk(s, a) && Wsis(s) && p < |s.pipes|
    requires Live(s.pipes[p]) ==> HasSocket(s, p)
    requires s.pipes[p].state == Disconnecting && !s.pipes[p].graceful ==> CloseDue(s, p)
    requires p < |Step(s, a).pipes| && Step(s, a).pipes[p].state == Disconnecting && !Step(s, a).pipes[p].graceful
    ensures CloseDue(Step(s, a), p)
  {
    if Actor(s, a) != Some(p) {
      OtherPipes(s, a, p);
      CloseDueKept(s, a, p);
    } else {
      ActorTurns(s, a, p);
      TurnWantsClose(s.pipes[p], a, Step(s, a).pipes[p]);
      if a.Writeable? {
        RousedByWriting(s, a, p);
      } else if s.pipes[p].state == Connected {
        QueuedAfter(s, a, p);
      } else {
        CloseDueKept(s, a, p);
      }
    }
  }

  // ---- all together ----

  lemma QueueIdsKept(s: Service, a: Action)
    requires Enabled(s, a) && ActorOk(s, a) && Wsis(s) && Queue(Step(s, a))
    ensures QueueIds(Step(s, a))
  {
    var e := Step(s, a);
    PipesGrow(s, a);
    WritesAfter(s, a);
    forall k | 0 <= k < |e.writes| ensures e.writes[k] < |e.pipes| {
      assert e.writes[k] in e.writes;
    }
    forall k | 0 <= k < |e.disconnects| ensures e.disconnects[k] < |e.pipes| {
      assert e.disconnects[k] in e.disconnects;
    }
  }

  lemma ThreadIdsKept(s: Service, a: Action)
    requires Enabled(s, a) && ActorOk(s, a) && Wsis(s) && ThreadIds(s) && Locals(Step(s, a))
    ensures ThreadIds(Step(s, a))
  {
    var e := Step(s, a);
    PipesGrow(s, a);
    InStateIds(s.pipes, s.disconnects, Disconnecting);
    InStateIds(s.pipes, s.writes, Connected);
    forall t | 0 <= t < |e.threads|
      ensures Ids(e.pipes, e.threads[t].connects) && Ids(e.pipes, e.threads[t].disconnects)
              && Ids(e.pipes, e.threads[t].writes)
    {
      SameThreads(s, a);
      ThreadAfter(s, a, t);
      assert Ids(s.pipes, s.threads[t].disconnects) && Ids(s.pipes, s.threads[t].writes);
    }
  }

  lemma SameThreads(s: Service, a: Action)
    requires Enabled(s, a)
    ensures |Step(s, a).threads| == |s.threads|
  {
  }

  lemma HistoriesKept(s: Service, a: Action)
    requires Enabled(s, a) && ActorOk(s, a) && Wsis(s) && Histories(s)
    ensures Histories(Step(s, a))
  {
    PipesGrow(s, a);
    forall p | 0 <= p < |Step(s, a).pipes| ensures History(Step(s, a).pipes[p]) {
      if p < |s.pipes| {
        HistoryKept(s, a, p);
      }
    }
  }

  lemma NothingLost(s: Service, a: Action)
    requires Enabled(s, a) && ActorOk(s, a) && Wsis(s) && Histories(s) && Attached(s) && NoLostWrite(s)
             && NoLostClose(s)
    ensures NoLostWrite(Step(s, a)) && NoLostClose(Step(s, a))
  {
    var e := Step(s, a);
    PipesGrow(s, a);
    forall p | 0 <= p < |e.pipes| && WantsWrite(e.pipes[p]) ensures WriteDue(e, p) {
      WriteKept(s, a, p);
    }
    forall p | 0 <= p < |e.pipes| && e.pipes[p].state == Disconnecting && !e.pipes[p].graceful ensures CloseDue(e, p) {
      CloseKept(s, a, p);
    }
  }

  lemma StepKeeps(s: Service, a: Action)
    requires Inv(s) && Enabled(s, a)
    ensures Inv(Step(s, a))
  {
    ActorIsOk(s, a);
    HistoriesKept(s, a);
    LocalsKept(s, a);
    QueueKept(s, a);
    WsisKept(s, a);
    AttachedKept(s, a);
    NothingLost(s, a);
    QueueIdsKept(s, a);
    ThreadIdsKept(s, a);
  }

  lemma {:induction false} Reachable(s: Service, actions: seq<Action>, e: Service)
    requires Inv(s) && Run(s, actions, e)
    ensures Inv(e)
    decreases |actions|
  {
    if actions != [] {
      StepKeeps(s, actions[0]);
      Reachable(Step(s, actions[0]), actions[1..], e);
    }
  }
}
