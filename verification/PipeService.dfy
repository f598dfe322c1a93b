/** The connection life of audio pipes: the API calls and the libwebsockets
    callbacks of audio_pipe.cpp, run by any number of service threads over any
    number of pipes. One step is one callback, one API call or one section
    under a mutex; every interleaving of steps is a run.
    Pipes, sockets and service threads are named by their index. */
module PipeService {

  import opened Common

  datatype LwsState = Idle | Connecting | Connected | Failed | Disconnecting | Disconnected

  datatype Event = ConnectFail | ConnectSuccess | ConnectionDropped | ConnectionClosedGracefully | Message

  /** The first fields are AudioPipe's. From `events` on, what has happened to it. */
  datatype Pipe = Pipe(
    state: LwsState,
    wsi: Option<nat>,
    vhd: bool,             // m_vhd is set
    graceful: bool,        // m_gracefulShutdown
    metadata: string,
    audio: bool,           // the audio buffer holds unsent bytes
    events: seq<Event>,    // the notifications raised, in order
    attempts: nat,         // runs of connect_client
    appended: string,      // all text accepted for sending
    sent: string,          // all text handed to lws_write
    closeTaken: bool,      // a close() found the pipe connected
    closedHere: bool)      // WRITEABLE performed the local close

  /** Closing: a callback returned -1, so libwebsockets only closes it. */
  datatype Phase = Opening | Open | Closing | Dead

  datatype Socket = Socket(phase: Phase, user: Option<nat>, writable: bool)

  /** The local lists of processPendingConnects, -Disconnects and -Writes. */
  datatype Thread = Thread(connects: seq<nat>, disconnects: seq<nat>, writes: seq<nat>)

  datatype Service = Service(
    pipes: seq<Pipe>,
    sockets: seq<Socket>,
    connects: seq<nat>,      // pendingConnects
    disconnects: seq<nat>,   // pendingDisconnects
    writes: seq<nat>,        // pendingWrites
    threads: seq<Thread>)

  /** How lws_client_connect_via_info comes back: with a socket, without one
      after a nested CONNECTION_ERROR callback for it, or without one silently. */
  datatype Outcome = Pending | Refused | Nothing

  datatype Action =
    | New
    | Connect(pipe: nat)
    | SendText(pipe: nat, text: string)
    | Audio(pipe: nat)
    | Close(pipe: nat)
    | ShutDownGracefully(pipe: nat)
    | MarkConnects(thread: nat)
    | ConnectNext(thread: nat, outcome: Outcome)
    | TakeDisconnects(thread: nat)
    | DisconnectNext(thread: nat)
    | TakeWrites(thread: nat)
    | WriteNext(thread: nat)
    | Error(socket: nat)
    | Established(socket: nat)
    | Receive(socket: nat)
    | Writeable(socket: nat, whole: bool)
    | Closed(socket: nat)

  const NEW_PIPE := Pipe(Idle, None, false, false, "", false, [], 0, "", "", false, false)

  // ---- the pending lists ----

  /** findAndRemovePendingConnect stops at this index, or looks at the whole list. */
  function Stop(pipes: seq<Pipe>, list: seq<nat>, w: nat): (n: nat)
    requires Ids(pipes, list)
    ensures n <= |list|
    ensures forall k :: 0 <= k < n ==> !Awaits(pipes[list[k]], w)
    ensures n < |list| ==> Awaits(pipes[list[n]], w)
  {
    if list == [] || Awaits(pipes[list[0]], w) then 0 else 1 + Stop(pipes, list[1..], w)
  }

  predicate Awaits(p: Pipe, w: nat)
  {
    p.state == Connecting && p.wsi == Some(w)
  }

  predicate Ids(pipes: seq<Pipe>, list: seq<nat>)
  {
    forall k :: 0 <= k < |list| ==> list[k] < |pipes|
  }

  function Without(list: seq<nat>, gone: set<nat>): (r: seq<nat>)
    ensures forall x :: x in r <==> x in list && x !in gone
  {
    if list == [] then []
    else if list[0] in gone then Without(list[1..], gone)
    else [list[0]] + Without(list[1..], gone)
  }

  function Found(pipes: seq<Pipe>, list: seq<nat>, w: nat): (r: Option<nat>)
    requires Ids(pipes, list)
  {
    var n := Stop(pipes, list, w);
    if n < |list| then Some(list[n]) else None
  }

  function NullOnes(pipes: seq<Pipe>, list: seq<nat>, n: nat): set<nat>
    requires Ids(pipes, list) && n <= |list|
  {
    set k | 0 <= k < n && pipes[list[k]].wsi == None :: list[k]
  }

  /** The scan also removes the entries it passes whose socket is still null. */
  function Removed(pipes: seq<Pipe>, list: seq<nat>, w: nat): (r: set<nat>)
    requires Ids(pipes, list)
  {
    var n := Stop(pipes, list, w);
    NullOnes(pipes, list, n) + (if n < |list| then {list[n]} else {})
  }

  method FindAndRemovePendingConnect(pipes: seq<Pipe>, list: seq<nat>, w: nat) returns (ap: Option<nat>, rest: seq<nat>)
    requires Ids(pipes, list)
    ensures ap == Found(pipes, list, w)
    ensures rest == Without(list, Removed(pipes, list, w))
  {
    var toRemove: set<nat> := {};
    var i := 0;
    ap := None;
    while i < |list| && ap == None
      invariant 0 <= i <= |list|
      invariant ap == None ==> i <= Stop(pipes, list, w) && toRemove == NullOnes(pipes, list, i)
      invariant ap != None ==> i > 0 && i - 1 == Stop(pipes, list, w) && ap.value == list[i - 1] &&
                               toRemove == NullOnes(pipes, list, i - 1)
    {
      var p := pipes[list[i]];
      if p.wsi == None {
        toRemove := toRemove + {list[i]};
      }
      if p.state == Connecting && p.wsi == Some(w) {
        ap := Some(list[i]);
      }
      i := i + 1;
    }
    rest := RemoveAll(list, toRemove);
    if ap != None {
      rest := RemoveAll(rest, {ap.value});
      WithoutTwice(list, toRemove, {ap.value});
    } else {
      assert toRemove + {} == toRemove;
    }
  }

  method RemoveAll(list: seq<nat>, gone: set<nat>) returns (rest: seq<nat>)
    ensures rest == Without(list, gone)
  {
    rest := [];
    var i := |list|;
    assert list[|list|..] == [];
    while i > 0
      invariant 0 <= i <= |list|
      invariant rest == Without(list[i..], gone)
    {
      i := i - 1;
      assert list[i..][1..] == list[i + 1..];
      if list[i] !in gone {
        rest := [list[i]] + rest;
      }
    }
    assert list[0..] == list;
  }

  lemma {:induction false} WithoutTwice(list: seq<nat>, a: set<nat>, b: set<nat>)
    ensures Without(Without(list, a), b) == Without(list, a + b)
  {
    if list != [] {
      WithoutTwice(list[1..], a, b);
      var rest := Without(list[1..], a);
      if list[0] !in a {
        assert ([list[0]] + rest)[1..] == rest;
        assert list[0] in a + b <==> list[0] in b;
      } else {
        assert list[0] in a + b;
      }
    }
  }

  /** The idle pipes of a list, once each, as processPendingConnects takes them. */
  function IdleOnes(pipes: seq<Pipe>, list: seq<nat>): (r: seq<nat>)
    requires Ids(pipes, list)
  {
    if list == [] then [] else
    var before := IdleOnes(pipes, list[..|list| - 1]);
    var x := list[|list| - 1];
    if pipes[x].state == Idle && x !in before then before + [x] else before
  }

  function Marked(pipes: seq<Pipe>, ids: seq<nat>): (r: seq<Pipe>)
    ensures |r| == |pipes|
  {
    seq(|pipes|, k requires 0 <= k < |pipes| => if k in ids then pipes[k].(state := Connecting) else pipes[k])
  }

  method MarkIdle(pipes: seq<Pipe>, list: seq<nat>) returns (marked: seq<Pipe>, connects: seq<nat>)
    requires Ids(pipes, list)
    ensures connects == IdleOnes(pipes, list) && marked == Marked(pipes, connects)
  {
    marked, connects := pipes, [];
    var i := 0;
    assert list[..0] == [];
    while i < |list|
      invariant 0 <= i <= |list|
      invariant connects == IdleOnes(pipes, list[..i]) && marked == Marked(pipes, connects)
    {
      assert list[..i + 1][..i] == list[..i];
      if marked[list[i]].state == Idle {
        connects := connects + [list[i]];
        marked := marked[list[i] := marked[list[i]].(state := Connecting)];
      }
      i := i + 1;
    }
    assert list[..i] == list;
  }

  function InState(pipes: seq<Pipe>, list: seq<nat>, state: LwsState): (r: seq<nat>)
    requires Ids(pipes, list)
    ensures forall x :: x in r <==> x in list && pipes[x].state == state
  {
    if list == [] then []
    else if pipes[list[0]].state == state then [list[0]] + InState(pipes, list[1..], state)
    else InState(pipes, list[1..], state)
  }

  // ---- the steps ----

  predicate IsPipe(s: Service, p: nat) { p < |s.pipes| }
  predicate InPhase(s: Service, w: nat, phase: Phase) { w < |s.sockets| && s.sockets[w].phase == phase }

  /** What a callback or call needs to run at all: every list names existing
      pipes, and the action's own pipe, thread or socket is there. */
  predicate Enabled(s: Service, a: Action)
  {
    && Ids(s.pipes, s.connects) && Ids(s.pipes, s.disconnects) && Ids(s.pipes, s.writes)
    && match a
       case New => true
       case Connect(p) => IsPipe(s, p) && s.pipes[p].state == Idle
       case SendText(p, _) => IsPipe(s, p)
       case Audio(p) => IsPipe(s, p)
       case Close(p) => IsPipe(s, p)
       case ShutDownGracefully(p) => IsPipe(s, p) && s.pipes[p].vhd
       case MarkConnects(t) => t < |s.threads| && s.threads[t].connects == []
       case ConnectNext(t, _) => t < |s.threads| && s.threads[t].connects != [] && IsPipe(s, s.threads[t].connects[0])
       case TakeDisconnects(t) => t < |s.threads| && s.threads[t].disconnects == []
       case DisconnectNext(t) => t < |s.threads| && s.threads[t].disconnects != []
         && IsPipe(s, s.threads[t].disconnects[0])
       case TakeWrites(t) => t < |s.threads| && s.threads[t].writes == []
       case WriteNext(t) => t < |s.threads| && s.threads[t].writes != [] && IsPipe(s, s.threads[t].writes[0])
       case Error(w) => InPhase(s, w, Opening)
       case Established(w) => InPhase(s, w, Opening)
       case Receive(w) => InPhase(s, w, Open) && UserIsPipe(s, w)
       case Writeable(w, _) => InPhase(s, w, Open) && s.sockets[w].writable && UserIsPipe(s, w)
       case Closed(w) => (InPhase(s, w, Open) || InPhase(s, w, Closing)) && UserIsPipe(s, w)
  }

  predicate UserIsPipe(s: Service, w: nat)
    requires w < |s.sockets|
  {
    s.sockets[w].user.Some? ==> IsPipe(s, s.sockets[w].user.value)
  }

  function WithPipe(s: Service, p: nat, pipe: Pipe): Service
    requires IsPipe(s, p)
  {
    s.(pipes := s.pipes[p := pipe])
  }

  function WithSocket(s: Service, w: nat, socket: Socket): Service
    requires w < |s.sockets|
  {
    s.(sockets := s.sockets[w := socket])
  }

  function WithThread(s: Service, t: nat, thread: Thread): Service
    requires t < |s.threads|
  {
    s.(threads := s.threads[t := thread])
  }

  function Notify(p: Pipe, e: Event, state: LwsState): Pipe
  {
    p.(events := p.events + [e], state := state)
  }

  function Step(s: Service, a: Action): Service
    requires Enabled(s, a)
  {
    match a
    case New => s.(pipes := s.pipes + [NEW_PIPE])
    case Connect(p) => s.(connects := s.connects + [p])
    case SendText(p, text) => DoSendText(s, p, text)
    case Audio(p) => DoAudio(s, p)
    case Close(p) => DoClose(s, p)
    case ShutDownGracefully(p) => WithPipe(s, p, s.pipes[p].(graceful := true)).(writes := s.writes + [p])
    case MarkConnects(t) =>
      var ids := IdleOnes(s.pipes, s.connects);
      WithThread(s, t, s.threads[t].(connects := ids)).(pipes := Marked(s.pipes, ids))
    case ConnectNext(t, outcome) => DoConnect(s, t, outcome)
    case TakeDisconnects(t) =>
      WithThread(s, t, s.threads[t].(disconnects := InState(s.pipes, s.disconnects, Disconnecting))).(disconnects := [])
    case DisconnectNext(t) =>
      var list := s.threads[t].disconnects;
      RequestWritable(WithThread(s, t, s.threads[t].(disconnects := list[1..])), list[0])
    case TakeWrites(t) =>
      WithThread(s, t, s.threads[t].(writes := InState(s.pipes, s.writes, Connected))).(writes := [])
    case WriteNext(t) =>
      var list := s.threads[t].writes;
      RequestWritable(WithThread(s, t, s.threads[t].(writes := list[1..])), list[0])
    case Error(w) => DoError(WithSocket(s, w, s.sockets[w].(phase := Dead)), w)
    case Established(w) => DoEstablished(s, w)
    case Receive(w) =>
      if s.sockets[w].user == None then s else
      var p := s.sockets[w].user.value;
      WithPipe(s, p, Notify(s.pipes[p], Message, s.pipes[p].state))
    case Writeable(w, whole) => DoWriteable(s, w, whole)
    case Closed(w) => DoClosed(s, w)
  }

  /** bufferForSending */
  function DoSendText(s: Service, p: nat, text: string): Service
    requires IsPipe(s, p)
  {
    var pipe := s.pipes[p];
    if pipe.state != Connected then s else
    WithPipe(s, p, pipe.(metadata := pipe.metadata + text, appended := pipe.appended + text)).(writes := s.writes + [p])
  }

  /** fork_frame leaves unsent audio behind and unlocks the buffer. */
  function DoAudio(s: Service, p: nat): Service
    requires IsPipe(s, p)
  {
    if s.pipes[p].state != Connected then s else
    WithPipe(s, p, s.pipes[p].(audio := true)).(writes := s.writes + [p])
  }

  function DoClose(s: Service, p: nat): Service
    requires IsPipe(s, p)
  {
    if s.pipes[p].state != Connected then s else
    WithPipe(s, p, s.pipes[p].(state := Disconnecting, closeTaken := true)).(disconnects := s.disconnects + [p])
  }

  /** connect_client for the next pipe of the thread's list. */
  function DoConnect(s: Service, t: nat, outcome: Outcome): Service
    requires t < |s.threads| && s.threads[t].connects != [] && IsPipe(s, s.threads[t].connects[0])
    requires Ids(s.pipes, s.connects)
  {
    var list := s.threads[t].connects;
    var p := list[0];
    var w := |s.sockets|;
    var s1 := WithThread(s, t, s.threads[t].(connects := list[1..]));
    match outcome
    case Pending =>
      WithPipe(s1, p, Begun(s.pipes[p], Some(w))).(sockets := s.sockets + [Socket(Opening, None, false)])
    case Refused =>
      var s2 := WithPipe(s1, p, Begun(s.pipes[p], Some(w))).(sockets := s.sockets + [Socket(Dead, None, false)]);
      DoRefused(s2, p, w)
    case Nothing =>
      WithPipe(s1, p, Begun(s.pipes[p], None))
  }

  function Begun(p: Pipe, wsi: Option<nat>): Pipe
  {
    p.(state := Connecting, vhd := true, attempts := p.attempts + 1, wsi := wsi)
  }

  /** The nested callback finds the socket in m_wsi, which is then set to null. */
  function DoRefused(s: Service, p: nat, w: nat): Service
    requires Ids(s.pipes, s.connects) && IsPipe(s, p)
  {
    var s1 := DoError(s, w);
    WithPipe(s1, p, s1.pipes[p].(wsi := None))
  }

  function DoError(s: Service, w: nat): (r: Service)
    requires Ids(s.pipes, s.connects)
    ensures |r.pipes| == |s.pipes|
  {
    var ap := Found(s.pipes, s.connects, w);
    var s1 := s.(connects := Without(s.connects, Removed(s.pipes, s.connects, w)));
    if ap == None then s1 else
    WithPipe(s1, ap.value, Notify(s.pipes[ap.value], ConnectFail, Failed))
  }

  function DoEstablished(s: Service, w: nat): Service
    requires w < |s.sockets| && Ids(s.pipes, s.connects)
  {
    var ap := Found(s.pipes, s.connects, w);
    var s1 := WithSocket(s, w, s.sockets[w].(phase := Open, user := ap))
              .(connects := Without(s.connects, Removed(s.pipes, s.connects, w)));
    if ap == None then s1 else
    WithPipe(s1, ap.value, Notify(s.pipes[ap.value], ConnectSuccess, Connected).(vhd := true))
  }

  /** lws_callback_on_writable(m_wsi) */
  function RequestWritable(s: Service, p: nat): Service
    requires IsPipe(s, p)
  {
    match s.pipes[p].wsi
    case None => s
    case Some(w) => if w < |s.sockets| then WithSocket(s, w, s.sockets[w].(writable := true)) else s
  }

  /** `whole`: lws_write took all of the text. */
  function DoWriteable(s: Service, w: nat, whole: bool): Service
    requires w < |s.sockets| && UserIsPipe(s, w)
  {
    var done := s.sockets[w].(writable := false);
    if done.user == None then WithSocket(s, w, done) else
    var p := done.user.value;
    var pipe := s.pipes[p];
    if pipe.graceful then
      WithSocket(s, w, done)
    else if |pipe.metadata| > 0 then
      WithSocket(WithPipe(s, p, pipe.(metadata := "", sent := pipe.sent + pipe.metadata)), w,
                 if whole then done.(writable := true) else done.(phase := Closing))
    else if pipe.state == Disconnecting then
      WithSocket(WithPipe(s, p, pipe.(closedHere := true)), w, done.(phase := Closing))
    else
      WithSocket(WithPipe(s, p, pipe.(audio := false)), w, done)
  }

  function DoClosed(s: Service, w: nat): Service
    requires w < |s.sockets| && UserIsPipe(s, w)
  {
    var socket := s.sockets[w];
    var s1 := WithSocket(s, w, Socket(Dead, None, false));
    if socket.user == None then s1 else
    var p := socket.user.value;
    var pipe := s.pipes[p];
    WithPipe(s1, p,
      if pipe.state == Disconnecting then Notify(pipe, ConnectionClosedGracefully, Disconnected)
      else if pipe.state == Connected then Notify(pipe, ConnectionDropped, Disconnected)
      else pipe.(state := Disconnected))
  }

  // ---- runs ----

  predicate Init(s: Service)
  {
    && s.pipes == [] && s.sockets == [] && s.connects == [] && s.disconnects == [] && s.writes == []
    && forall t :: 0 <= t < |s.threads| ==> s.threads[t] == Thread([], [], [])
  }

  /** A run from s to e: each action is enabled where it is taken. */
  predicate Run(s: Service, actions: seq<Action>, e: Service)
    decreases |actions|
  {
    if actions == [] then e == s
    else Enabled(s, actions[0]) && Run(Step(s, actions[0]), actions[1..], e)
  }
}
