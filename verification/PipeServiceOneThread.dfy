/** With one service thread no connection attempt loses its pipe: the invariant
    behind it, and the exact number of threads that makes the difference. */
module PipeServiceOneThread {

  import opened Common
  import opened PipeService
  import opened PipeServiceInvariant
  import opened PipeServiceSafety
  import opened PipeServiceConnects
  import PipeServiceScenarios

  /** y stands in the list before every x. */
  predicate Before(list: seq<nat>, y: nat, x: nat)
  {
    list != [] && list[0] != x && (list[0] == y || Before(list[1..], y, x))
  }

  lemma {:induction false} BeforeIsMember(list: seq<nat>, y: nat, x: nat)
    requires Before(list, y, x)
    ensures y in list && y != x
  {
    if list[0] != y {
      BeforeIsMember(list[1..], y, x);
    }
  }

  lemma {:induction false} BeforeSnoc(list: seq<nat>, z: nat, y: nat, x: nat)
    requires x in list && Before(list + [z], y, x)
    ensures Before(list, y, x)
  {
    assert (list + [z])[0] == list[0];
    if list[0] != y {
      assert (list + [z])[1..] == list[1..] + [z];
      BeforeSnoc(list[1..], z, y, x);
    }
  }

  lemma {:induction false} BeforeWithout(list: seq<nat>, gone: set<nat>, y: nat, x: nat)
    requires Before(Without(list, gone), y, x) && x !in gone
    ensures Before(list, y, x)
  {
    var rest := Without(list[1..], gone);
    if list[0] in gone {
      BeforeWithout(list[1..], gone, y, x);
    } else {
      assert Without(list, gone)[1..] == rest;
      if list[0] != y {
        BeforeWithout(list[1..], gone, y, x);
      }
    }
  }

  lemma {:induction false} BeforeIndex(list: seq<nat>, k: nat, x: nat)
    requires k < |list| && forall j :: 0 <= j <= k ==> list[j] != x
    ensures Before(list, list[k], x)
  {
    if k > 0 {
      assert list[1..][k - 1] == list[k];
      BeforeIndex(list[1..], k - 1, x);
    }
  }

  // ---- the invariant ----

  /** The connect list of the only thread. */
  function Local(s: Service): seq<nat>
  {
    if |s.threads| == 0 then [] else s.threads[0].connects
  }

  /** Everything queued before a pipe with a socket has been through connect_client. */
  predicate BeforeSockets(s: Service)
    requires Ids(s.pipes, s.connects)
  {
    forall x: nat, y: nat :: x in s.connects && Before(s.connects, y, x) && y in s.connects && s.pipes[x].wsi.Some? ==>
      s.pipes[y].vhd
  }

  /** Everything queued before a pipe the thread will connect has been through
      connect_client, or is connected before it. */
  predicate BeforeLocals(s: Service)
    requires Ids(s.pipes, s.connects)
  {
    forall k, y: nat :: 0 <= k < |Local(s)| && Before(s.connects, y, Local(s)[k]) && y in s.connects ==>
      s.pipes[y].vhd || y in Local(s)[..k]
  }

  predicate WaitingHeld(s: Service)
  {
    forall p :: 0 <= p < |s.pipes| && Waiting(s.pipes[p]) ==> p in Local(s) && p in s.connects
  }

  predicate HasOutcomeComing(s: Service, p: Pipe)
  {
    p.state == Connecting && p.wsi.Some? && InPhase(s, p.wsi.value, Opening)
  }

  predicate AwaitingHeld(s: Service)
  {
    forall p :: 0 <= p < |s.pipes| && HasOutcomeComing(s, s.pipes[p]) ==> p in s.connects
  }

  /** A connecting pipe with a socket has its outcome still coming. */
  predicate ConnectingOpen(s: Service)
  {
    forall p :: 0 <= p < |s.pipes| && s.pipes[p].state == Connecting && s.pipes[p].wsi.Some? ==>
      HasOutcomeComing(s, s.pipes[p])
  }

  ghost predicate OpeningAwaited(s: Service)
  {
    forall w :: 0 <= w < |s.sockets| && s.sockets[w].phase == Opening ==> SomeAwaits(s, w)
  }

  ghost predicate SomeAwaits(s: Service, w: nat)
  {
    exists p :: 0 <= p < |s.pipes| && Awaits(s.pipes[p], w)
  }

  ghost predicate Orderly(s: Service)
  {
    && Inv(s) && |s.threads| <= 1
    && BeforeSockets(s) && BeforeLocals(s) && WaitingHeld(s) && AwaitingHeld(s) && OpeningAwaited(s)
    && ConnectingOpen(s)
  }

  // ---- steps that leave the queue alone ----

  /** Nothing the invariant looks at has changed. */
  predicate SamePipe(p: Pipe, q: Pipe)
  {
    p.wsi == q.wsi && p.vhd == q.vhd && (p.state == Connecting <==> q.state == Connecting)
  }

  predicate Undisturbed(s: Service, e: Service)
  {
    && e.connects == s.connects && |e.threads| == |s.threads| && Local(e) == Local(s)
    && |s.pipes| <= |e.pipes| && (forall p :: 0 <= p < |s.pipes| ==> SamePipe(s.pipes[p], e.pipes[p]))
    && (forall p :: |s.pipes| <= p < |e.pipes| ==> e.pipes[p] == NEW_PIPE)
    && |e.sockets| == |s.sockets|
    && (forall w :: 0 <= w < |s.sockets| ==> (s.sockets[w].phase == Opening <==> e.sockets[w].phase == Opening))
  }

  lemma UndisturbedKeeps(s: Service, e: Service)
    requires Orderly(s) && Undisturbed(s, e) && Inv(e)
    ensures Orderly(e)
  {
    forall w | 0 <= w < |e.sockets| && e.sockets[w].phase == Opening ensures SomeAwaits(e, w) {
      var p :| 0 <= p < |s.pipes| && Awaits(s.pipes[p], w);
      assert SamePipe(s.pipes[p], e.pipes[p]);
    }
  }

  predicate Quiet(a: Action)
  {
    !a.Connect? && !a.MarkConnects? && !a.ConnectNext? && !a.Error? && !a.Established?
  }

  lemma QuietPipe(s: Service, a: Action, p: nat)
    requires Inv(s) && Enabled(s, a) && Quiet(a) && p < |s.pipes|
    ensures p < |Step(s, a).pipes| && SamePipe(s.pipes[p], Step(s, a).pipes[p])
  {
    ActorIsOk(s, a);
    PipesGrow(s, a);
    if Actor(s, a) == Some(p) {
      ActorTurns(s, a, p);
    } else {
      OtherPipes(s, a, p);
    }
  }

  lemma QuietSocket(s: Service, a: Action, w: nat)
    requires Inv(s) && Enabled(s, a) && Quiet(a) && w < |s.sockets|
    ensures s.sockets[w].phase == Opening <==> SocketAfter(s, a, w).phase == Opening
  {
  }

  lemma QuietLists(s: Service, a: Action)
    requires Enabled(s, a) && Quiet(a)
    ensures Step(s, a).connects == s.connects && |Step(s, a).threads| == |s.threads| && Local(Step(s, a)) == Local(s)
  {
  }

  lemma QuietKeeps(s: Service, a: Action)
    requires Orderly(s) && Enabled(s, a) && Quiet(a)
    ensures Orderly(Step(s, a))
  {
    var e := Step(s, a);
    StepKeeps(s, a);
    ActorIsOk(s, a);
    PipesGrow(s, a);
    SocketsAfter(s, a);
    QuietLists(s, a);
    forall p | 0 <= p < |s.pipes| ensures SamePipe(s.pipes[p], e.pipes[p]) {
      QuietPipe(s, a, p);
    }
    forall w | 0 <= w < |s.sockets| ensures s.sockets[w].phase == Opening <==> e.sockets[w].phase == Opening {
      QuietSocket(s, a, w);
    }
    UndisturbedKeeps(s, e);
  }

  // ---- connect() ----

  lemma ConnectKeeps(s: Service, p: nat)
    requires Orderly(s) && Enabled(s, Connect(p))
    ensures Orderly(Step(s, Connect(p)))
  {
    StepKeeps(s, Connect(p));
    assert History(s.pipes[p]);
    QueuedKeepsSockets(s, Step(s, Connect(p)), p);
    QueuedKeepsLocals(s, Step(s, Connect(p)), p);
    OpeningStays(s, Step(s, Connect(p)));
  }

  lemma QueuedKeepsSockets(s: Service, e: Service, p: nat)
    requires Ids(s.pipes, s.connects) && BeforeSockets(s) && p < |s.pipes| && s.pipes[p].wsi == None
    requires e == s.(connects := s.connects + [p])
    ensures BeforeSockets(e)
  {
    forall x: nat, y: nat | x in e.connects && Before(e.connects, y, x) && y in e.connects && e.pipes[x].wsi.Some?
      ensures e.pipes[y].vhd {
      BeforeSnoc(s.connects, p, y, x);
      BeforeIsMember(s.connects, y, x);
    }
  }

  lemma QueuedKeepsLocals(s: Service, e: Service, p: nat)
    requires Orderly(s) && p < |s.pipes| && e == s.(connects := s.connects + [p])
    ensures BeforeLocals(e)
  {
    forall k, y: nat | 0 <= k < |Local(e)| && Before(e.connects, y, Local(e)[k]) && y in e.connects
      ensures e.pipes[y].vhd || y in Local(e)[..k]
    {
      LocalWaits(s, k);
      BeforeSnoc(s.connects, p, y, Local(s)[k]);
      BeforeIsMember(s.connects, y, Local(s)[k]);
    }
  }

  lemma LocalWaits(s: Service, k: nat)
    requires Orderly(s) && k < |Local(s)|
    ensures Local(s)[k] < |s.pipes| && Waiting(s.pipes[Local(s)[k]]) && Local(s)[k] in s.connects
  {
    assert Waiting(s.pipes[s.threads[0].connects[k]]);
  }

  lemma OpeningStays(s: Service, e: Service)
    requires OpeningAwaited(s) && e.sockets == s.sockets && |s.pipes| <= |e.pipes|
    requires forall p :: 0 <= p < |s.pipes| && s.pipes[p].state == Connecting && s.pipes[p].wsi.Some? ==>
             e.pipes[p] == s.pipes[p]
    ensures OpeningAwaited(e)
  {
    forall w | 0 <= w < |e.sockets| && e.sockets[w].phase == Opening ensures SomeAwaits(e, w) {
      var p :| 0 <= p < |s.pipes| && Awaits(s.pipes[p], w);
      assert Awaits(e.pipes[p], w);
    }
  }

  // ---- processPendingConnects ----

  lemma {:induction false} IdleOnesInOrder(pipes: seq<Pipe>, list: seq<nat>, k: nat, y: nat)
    requires Ids(pipes, list) && k < |IdleOnes(pipes, list)|
    requires y in list && pipes[y].state == Idle && Before(list, y, IdleOnes(pipes, list)[k])
    ensures y in IdleOnes(pipes, list)[..k]
    decreases |list|
  {
    var front, z := list[..|list| - 1], list[|list| - 1];
    var ids := IdleOnes(pipes, list);
    assert list == front + [z];
    if k < |IdleOnes(pipes, front)| {
      IdleOnesAre(pipes, front);
      assert IdleOnes(pipes, front)[k] in front;
      BeforeSnoc(front, z, y, ids[k]);
      BeforeIsMember(front, y, ids[k]);
      IdleOnesInOrder(pipes, front, k, y);
      assert ids[..k] == IdleOnes(pipes, front)[..k];
    } else {
      assert ids[..k] == IdleOnes(pipes, front) && ids[k] == z;
      BeforeIsMember(list, y, z);
      AllIdle(pipes, front, y);
    }
  }

  lemma {:induction false} AllIdle(pipes: seq<Pipe>, list: seq<nat>, y: nat)
    requires Ids(pipes, list) && y in list && pipes[y].state == Idle
    ensures y in IdleOnes(pipes, list)
    decreases |list|
  {
    if y in list[..|list| - 1] {
      AllIdle(pipes, list[..|list| - 1], y);
    }
  }

  lemma MarkLocals(s: Service, y: nat, k: nat)
    requires Ids(s.pipes, s.connects) && Queue(s) && WaitingHeld(s) && Local(s) == []
    requires k < |IdleOnes(s.pipes, s.connects)| && y in s.connects
    requires Before(s.connects, y, IdleOnes(s.pipes, s.connects)[k])
    ensures s.pipes[y].vhd || y in IdleOnes(s.pipes, s.connects)[..k]
  {
    if s.pipes[y].state == Idle {
      IdleOnesInOrder(s.pipes, s.connects, k, y);
    } else {
      assert Queueable(s.pipes[y]);
      assert !Waiting(s.pipes[y]);
    }
  }

  /** Marking turns idle pipes of the queue into the thread's list. */
  predicate Marks(s: Service, e: Service)
    requires Ids(s.pipes, s.connects)
  {
    var ids := IdleOnes(s.pipes, s.connects);
    && e.connects == s.connects && e.sockets == s.sockets && |e.threads| == |s.threads|
    && Local(s) == [] && Local(e) == ids && e.pipes == Marked(s.pipes, ids)
  }

  lemma MarkIsMarks(s: Service, t: nat)
    requires |s.threads| <= 1 && Enabled(s, MarkConnects(t))
    ensures Marks(s, Step(s, MarkConnects(t)))
  {
  }

  lemma MarkedPipe(s: Service, e: Service, p: nat)
    requires QueueIds(s) && Histories(s) && Marks(s, e) && p < |s.pipes|
    ensures e.pipes[p].vhd == s.pipes[p].vhd && e.pipes[p].wsi == s.pipes[p].wsi
    ensures s.pipes[p].state != Idle ==> e.pipes[p] == s.pipes[p] && p !in Local(e)
    ensures p in Local(e) ==> p in s.connects && e.pipes[p].wsi == None
    ensures s.pipes[p].state == Idle && p !in Local(e) ==> e.pipes[p] == s.pipes[p]
  {
    IdleOnesAre(s.pipes, s.connects);
    assert History(s.pipes[p]);
  }

  lemma MarkKeeps(s: Service, t: nat)
    requires Orderly(s) && Enabled(s, MarkConnects(t))
    ensures Orderly(Step(s, MarkConnects(t)))
  {
    var e := Step(s, MarkConnects(t));
    StepKeeps(s, MarkConnects(t));
    MarkIsMarks(s, t);
    MarksKeep(s, e);
  }

  lemma MarksKeep(s: Service, e: Service)
    requires QueueIds(s) && Histories(s) && Queue(s) && Marks(s, e) && Ids(e.pipes, e.connects)
    requires BeforeSockets(s) && WaitingHeld(s) && AwaitingHeld(s) && OpeningAwaited(s) && ConnectingOpen(s)
    ensures BeforeSockets(e) && BeforeLocals(e) && WaitingHeld(e) && AwaitingHeld(e) && OpeningAwaited(e)
            && ConnectingOpen(e)
  {
    forall p: nat | p < |s.pipes|
      ensures e.pipes[p].vhd == s.pipes[p].vhd && e.pipes[p].wsi == s.pipes[p].wsi
      ensures s.pipes[p].state != Idle ==> e.pipes[p] == s.pipes[p]
      ensures p in Local(e) ==> p in s.connects && e.pipes[p].wsi == None
      ensures s.pipes[p].state == Idle && p !in Local(e) ==> e.pipes[p] == s.pipes[p]
    {
      MarkedPipe(s, e, p);
    }
    forall k, y: nat | 0 <= k < |Local(e)| && Before(e.connects, y, Local(e)[k]) && y in e.connects
      ensures e.pipes[y].vhd || y in Local(e)[..k]
    {
      MarkLocals(s, y, k);
    }
    forall p | 0 <= p < |e.pipes| && Waiting(e.pipes[p]) ensures p in Local(e) && p in e.connects {
      assert !Waiting(s.pipes[p]);
    }
    OpeningStays(s, e);
  }

  // ---- connect_client ----

  /** connect_client before an outcome can come: the head of the list has its
      socket, or none. */
  predicate Begins(s: Service, e: Service, h: nat, wsi: Option<nat>)
  {
    && Local(s) != [] && h == Local(s)[0] && Local(e) == Local(s)[1..] && e.connects == s.connects
    && h < |s.pipes| && e.pipes == s.pipes[h := Begun(s.pipes[h], wsi)] && Waiting(s.pipes[h]) && s.pipes[h].wsi == None
    && (if wsi == None then e.sockets == s.sockets
        else wsi == Some(|s.sockets|) && e.sockets == s.sockets + [Socket(Opening, None, false)])
  }

  lemma BegunSockets(s: Service, e: Service, h: nat, wsi: Option<nat>, x: nat, y: nat)
    requires Ids(s.pipes, s.connects) && BeforeSockets(s) && BeforeLocals(s) && Begins(s, e, h, wsi)
    requires x in e.connects && Before(e.connects, y, x) && y in e.connects && e.pipes[x].wsi.Some?
    ensures e.pipes[y].vhd
  {
    if x == h {
      assert Before(s.connects, y, Local(s)[0]);
      assert y !in Local(s)[..0];
    }
  }

  lemma BegunLocals(s: Service, e: Service, h: nat, wsi: Option<nat>, k: nat, y: nat)
    requires Ids(s.pipes, s.connects) && BeforeLocals(s) && Begins(s, e, h, wsi)
    requires k < |Local(e)| && Before(e.connects, y, Local(e)[k]) && y in e.connects
    ensures e.pipes[y].vhd || y in Local(e)[..k]
  {
    assert Local(e)[k] == Local(s)[k + 1];
    assert Before(s.connects, y, Local(s)[k + 1]);
    assert Local(s)[..k + 1] == [h] + Local(e)[..k];
  }

  lemma BegunOpening(s: Service, e: Service, h: nat, wsi: Option<nat>)
    requires OpeningAwaited(s) && Begins(s, e, h, wsi)
    ensures OpeningAwaited(e)
  {
    forall w | 0 <= w < |e.sockets| && e.sockets[w].phase == Opening ensures SomeAwaits(e, w) {
      if w == |s.sockets| {
        assert Awaits(e.pipes[h], w);
      } else {
        var p :| 0 <= p < |s.pipes| && Awaits(s.pipes[p], w);
        assert Awaits(e.pipes[p], w);
      }
    }
  }

  lemma BegunKeeps(s: Service, e: Service, h: nat, wsi: Option<nat>)
    requires Ids(s.pipes, s.connects) && Wsis(s) && Begins(s, e, h, wsi) && Ids(e.pipes, e.connects)
    requires BeforeSockets(s) && BeforeLocals(s) && WaitingHeld(s) && AwaitingHeld(s) && OpeningAwaited(s)
             && ConnectingOpen(s)
    ensures BeforeSockets(e) && BeforeLocals(e) && WaitingHeld(e) && AwaitingHeld(e) && OpeningAwaited(e)
            && ConnectingOpen(e)
  {
    forall x: nat, y: nat | x in e.connects && Before(e.connects, y, x) && y in e.connects && e.pipes[x].wsi.Some?
      ensures e.pipes[y].vhd
    {
      BegunSockets(s, e, h, wsi, x, y);
    }
    forall k, y: nat | 0 <= k < |Local(e)| && Before(e.connects, y, Local(e)[k]) && y in e.connects
      ensures e.pipes[y].vhd || y in Local(e)[..k]
    {
      BegunLocals(s, e, h, wsi, k, y);
    }
    forall p | 0 <= p < |e.pipes| && Waiting(e.pipes[p]) ensures p in Local(e) && p in e.connects {
      assert Waiting(s.pipes[p]);
      assert Local(s) == [h] + Local(e);
    }
    BegunOpening(s, e, h, wsi);
  }

  lemma PendingBegins(s: Service, t: nat, outcome: Outcome)
    requires Orderly(s) && Enabled(s, ConnectNext(t, outcome)) && outcome != Refused
    ensures Begins(s, Step(s, ConnectNext(t, outcome)), Local(s)[0],
                   if outcome == Pending then Some(|s.sockets|) else None)
  {
    LocalWaits(s, 0);
    assert History(s.pipes[Local(s)[0]]);
    ConnectPipes(s, t, outcome);
  }

  lemma PendingKeeps(s: Service, t: nat, outcome: Outcome)
    requires Orderly(s) && Enabled(s, ConnectNext(t, outcome)) && outcome != Refused
    ensures Orderly(Step(s, ConnectNext(t, outcome)))
  {
    var a := ConnectNext(t, outcome);
    StepKeeps(s, a);
    PendingBegins(s, t, outcome);
    SameThreads(s, a);
    BegunKeeps(s, Step(s, a), Local(s)[0], if outcome == Pending then Some(|s.sockets|) else None);
  }

  // ---- an outcome ----

  /** The outcome for pipe p takes p from the queue and things before it. */
  predicate Tells(s: Service, e: Service, p: nat, w: nat, gone: set<nat>)
  {
    && Local(e) == Local(s) && e.connects == Without(s.connects, gone)
    && p < |s.pipes| && Awaits(s.pipes[p], w) && |e.pipes| == |s.pipes| && e.pipes == s.pipes[p := e.pipes[p]]
    && e.pipes[p].vhd && e.pipes[p].state != Connecting
    && |e.sockets| == |s.sockets| && w < |s.sockets| && e.sockets == s.sockets[w := e.sockets[w]]
    && e.sockets[w].phase != Opening
    && (forall y :: y in gone ==> y == p || (y < |s.pipes| && s.pipes[y].vhd && s.pipes[y].wsi == None))
  }

  lemma ToldSockets(s: Service, e: Service, p: nat, w: nat, gone: set<nat>, x: nat, y: nat)
    requires Ids(s.pipes, s.connects) && BeforeSockets(s) && Tells(s, e, p, w, gone) && Ids(e.pipes, e.connects)
    requires x in e.connects && Before(e.connects, y, x) && y in e.connects && e.pipes[x].wsi.Some?
    ensures e.pipes[y].vhd
  {
    BeforeWithout(s.connects, gone, y, x);
    if p in gone {
      assert x != p;
    }
  }

  lemma ToldLocals(s: Service, e: Service, p: nat, w: nat, gone: set<nat>, k: nat, y: nat)
    requires Ids(s.pipes, s.connects) && BeforeLocals(s) && Tells(s, e, p, w, gone) && Ids(e.pipes, e.connects)
    requires k < |Local(e)| && Before(e.connects, y, Local(e)[k]) && y in e.connects && Local(s)[k] !in gone
    ensures e.pipes[y].vhd || y in Local(e)[..k]
  {
    BeforeWithout(s.connects, gone, y, Local(s)[k]);
  }

  lemma ToldOpening(s: Service, e: Service, p: nat, w: nat, gone: set<nat>)
    requires OpeningAwaited(s) && Tells(s, e, p, w, gone)
    ensures OpeningAwaited(e)
  {
    forall v | 0 <= v < |e.sockets| && e.sockets[v].phase == Opening ensures SomeAwaits(e, v) {
      var q :| 0 <= q < |s.pipes| && Awaits(s.pipes[q], v);
      assert q != p;
      assert Awaits(e.pipes[q], v);
    }
  }

  lemma TellsKeep(s: Service, e: Service, p: nat, w: nat, gone: set<nat>)
    requires Ids(s.pipes, s.connects) && Wsis(s) && Tells(s, e, p, w, gone) && Ids(e.pipes, e.connects)
    requires forall k :: 0 <= k < |Local(s)| ==> Local(s)[k] < |s.pipes| && Waiting(s.pipes[Local(s)[k]])
    requires s.pipes[p].vhd
    requires BeforeSockets(s) && BeforeLocals(s) && WaitingHeld(s) && AwaitingHeld(s) && OpeningAwaited(s)
             && ConnectingOpen(s)
    ensures BeforeSockets(e) && BeforeLocals(e) && WaitingHeld(e) && AwaitingHeld(e) && OpeningAwaited(e)
            && ConnectingOpen(e)
  {
    forall x: nat, y: nat | x in e.connects && Before(e.connects, y, x) && y in e.connects && e.pipes[x].wsi.Some?
      ensures e.pipes[y].vhd
    {
      ToldSockets(s, e, p, w, gone, x, y);
    }
    forall k, y: nat | 0 <= k < |Local(e)| && Before(e.connects, y, Local(e)[k]) && y in e.connects
      ensures e.pipes[y].vhd || y in Local(e)[..k]
    {
      ToldLocals(s, e, p, w, gone, k, y);
    }
    forall q | 0 <= q < |e.pipes| && Waiting(e.pipes[q]) ensures q in Local(e) && q in e.connects {
      assert Waiting(s.pipes[q]);
    }
    forall q | 0 <= q < |e.pipes| && HasOutcomeComing(e, e.pipes[q]) ensures q in e.connects {
      assert HasOutcomeComing(s, s.pipes[q]);
    }
    ToldOpening(s, e, p, w, gone);
  }

  /** What the scan for an outcome passes has been through connect_client. */
  lemma PassedHaveVhd(s: Service, w: nat, p: nat)
    requires Orderly(s) && p < |s.pipes| && Awaits(s.pipes[p], w) && p in s.connects
    ensures Found(s.pipes, s.connects, w) == Some(p)
    ensures forall y :: y in Removed(s.pipes, s.connects, w) ==>
              y == p || (y < |s.pipes| && s.pipes[y].vhd && s.pipes[y].wsi == None)
  {
    FoundIff(s, w, p);
    var n := Stop(s.pipes, s.connects, w);
    forall k: nat | k < n && s.pipes[s.connects[k]].wsi == None ensures s.pipes[s.connects[k]].vhd {
      BeforeIndex(s.connects, k, p);
    }
  }

  lemma OutcomeIsComing(s: Service, w: nat) returns (p: nat)
    requires Orderly(s) && InPhase(s, w, Opening)
    ensures p < |s.pipes| && Awaits(s.pipes[p], w) && p in s.connects && s.pipes[p].vhd
  {
    assert SomeAwaits(s, w);
    p :| 0 <= p < |s.pipes| && Awaits(s.pipes[p], w);
    assert HasOutcomeComing(s, s.pipes[p]);
    assert History(s.pipes[p]);
  }

  lemma ErrorTellsPipe(s: Service, w: nat, p: nat)
    requires Enabled(s, Error(w)) && Found(s.pipes, s.connects, w) == Some(p)
    requires p < |s.pipes| && Awaits(s.pipes[p], w) && s.pipes[p].vhd
    requires forall y :: y in Removed(s.pipes, s.connects, w) ==>
               y == p || (y < |s.pipes| && s.pipes[y].vhd && s.pipes[y].wsi == None)
    ensures Tells(s, Step(s, Error(w)), p, w, Removed(s.pipes, s.connects, w))
  {
  }

  lemma EstablishedTellsPipe(s: Service, w: nat, p: nat)
    requires Enabled(s, Established(w)) && Found(s.pipes, s.connects, w) == Some(p)
    requires p < |s.pipes| && Awaits(s.pipes[p], w) && s.pipes[p].vhd
    requires forall y :: y in Removed(s.pipes, s.connects, w) ==>
               y == p || (y < |s.pipes| && s.pipes[y].vhd && s.pipes[y].wsi == None)
    ensures Tells(s, Step(s, Established(w)), p, w, Removed(s.pipes, s.connects, w))
  {
  }

  lemma OutcomeKeeps(s: Service, a: Action)
    requires Orderly(s) && Enabled(s, a) && (a.Error? || a.Established?)
    ensures Orderly(Step(s, a))
  {
    var w := a.socket;
    var p := OutcomeIsComing(s, w);
    PassedHaveVhd(s, w, p);
    StepKeeps(s, a);
    SameThreads(s, a);
    if a.Error? {
      ErrorTellsPipe(s, w, p);
    } else {
      EstablishedTellsPipe(s, w, p);
    }
    forall k: nat | k < |Local(s)| ensures Local(s)[k] < |s.pipes| && Waiting(s.pipes[Local(s)[k]]) {
      LocalWaits(s, k);
    }
    TellsKeep(s, Step(s, a), p, w, Removed(s.pipes, s.connects, w));
  }

  // ---- a refused connection ----

  /** A refusal is an error for the pending socket, forgotten afterwards. */
  predicate Forgets(r: Service, e: Service, h: nat)
  {
    && h < |r.pipes| && r.pipes[h].state != Connecting && e == r.(pipes := r.pipes[h := r.pipes[h].(wsi := None)])
  }

  lemma RefusedForgets(s: Service, t: nat)
    requires Orderly(s) && Enabled(s, ConnectNext(t, Refused))
    ensures var b := Step(s, ConnectNext(t, Pending));
            && Enabled(b, Error(|s.sockets|))
            && Forgets(Step(b, Error(|s.sockets|)), Step(s, ConnectNext(t, Refused)), Local(s)[0])
  {
    var b := Step(s, ConnectNext(t, Pending));
    var w, h := |s.sockets|, Local(s)[0];
    LocalWaits(s, 0);
    assert Enabled(s, ConnectNext(t, Pending));
    PendingKeeps(s, t, Pending);
    PendingBegins(s, t, Pending);
    FoundIff(b, w, h);
    RefusedIsError(s, b, t, h, w);
  }

  lemma RefusedIsError(s: Service, b: Service, t: nat, h: nat, w: nat)
    requires Enabled(s, ConnectNext(t, Refused)) && t == 0 && h == s.threads[0].connects[0] && w == |s.sockets|
    requires b == DoConnect(s, t, Pending) && Enabled(b, Error(w)) && Found(b.pipes, b.connects, w) == Some(h)
    ensures Forgets(Step(b, Error(w)), DoConnect(s, t, Refused), h)
  {
    var r := Step(b, Error(w));
    var s2 := WithPipe(WithThread(s, t, s.threads[t].(connects := s.threads[t].connects[1..])), h,
      Begun(s.pipes[h], Some(w)))
              .(sockets := s.sockets + [Socket(Dead, None, false)]);
    assert b.sockets[w := b.sockets[w].(phase := Dead)] == s2.sockets;
    assert r == DoError(s2, w);
  }

  lemma ForgetsKeeps(r: Service, e: Service, h: nat)
    requires Ids(r.pipes, r.connects) && Ids(e.pipes, e.connects) && Forgets(r, e, h)
    requires BeforeSockets(r) && BeforeLocals(r) && WaitingHeld(r) && AwaitingHeld(r) && OpeningAwaited(r)
             && ConnectingOpen(r)
    ensures BeforeSockets(e) && BeforeLocals(e) && WaitingHeld(e) && AwaitingHeld(e) && OpeningAwaited(e)
            && ConnectingOpen(e)
  {
    assert Local(e) == Local(r) && e.connects == r.connects;
    forall k, y: nat | 0 <= k < |Local(e)| && Before(e.connects, y, Local(e)[k]) && y in e.connects
      ensures e.pipes[y].vhd || y in Local(e)[..k]
    {
      assert r.pipes[y].vhd || y in Local(r)[..k];
    }
    forall w | 0 <= w < |e.sockets| && e.sockets[w].phase == Opening ensures SomeAwaits(e, w) {
      var p :| 0 <= p < |r.pipes| && Awaits(r.pipes[p], w);
      assert Awaits(e.pipes[p], w);
    }
    forall p | 0 <= p < |e.pipes| && HasOutcomeComing(e, e.pipes[p]) ensures p in e.connects {
      assert HasOutcomeComing(r, r.pipes[p]);
    }
    forall p | 0 <= p < |e.pipes| && Waiting(e.pipes[p]) ensures p in Local(e) && p in e.connects {
      assert Waiting(r.pipes[p]);
    }
  }

  lemma RefusedKeeps(s: Service, t: nat)
    requires Orderly(s) && Enabled(s, ConnectNext(t, Refused))
    ensures Orderly(Step(s, ConnectNext(t, Refused)))
  {
    var a := ConnectNext(t, Refused);
    var b := Step(s, ConnectNext(t, Pending));
    assert Enabled(s, ConnectNext(t, Pending));
    PendingKeeps(s, t, Pending);
    RefusedForgets(s, t);
    OutcomeKeeps(b, Error(|s.sockets|));
    StepKeeps(s, a);
    SameThreads(s, a);
    OrderlyForgets(Step(b, Error(|s.sockets|)), Step(s, a), Local(s)[0]);
  }

  lemma OrderlyForgets(r: Service, e: Service, h: nat)
    requires Orderly(r) && Forgets(r, e, h) && Inv(e) && |e.threads| <= 1
    ensures Orderly(e)
  {
    ForgetsKeeps(r, e, h);
  }

  // ---- main results ----

  lemma OrderlyStep(s: Service, a: Action)
    requires Orderly(s) && Enabled(s, a)
    ensures Orderly(Step(s, a))
  {
    match a
    case Connect(p) => ConnectKeeps(s, p);
    case MarkConnects(t) => MarkKeeps(s, t);
    case ConnectNext(t, outcome) =>
      if outcome == Refused {
        RefusedKeeps(s, t);
      } else {
        PendingKeeps(s, t, outcome);
      }
    case Error(_) => OutcomeKeeps(s, a);
    case Established(_) => OutcomeKeeps(s, a);
    case _ => QuietKeeps(s, a);
  }

  lemma {:induction false} OrderlyAlong(s: Service, actions: seq<Action>, e: Service)
    requires Orderly(s) && Run(s, actions, e)
    ensures Orderly(e)
    decreases |actions|
  {
    if actions != [] {
      OrderlyStep(s, actions[0]);
      OrderlyAlong(Step(s, actions[0]), actions[1..], e);
    }
  }

  lemma {:induction false} ThreadsAlong(s: Service, actions: seq<Action>, e: Service)
    requires Run(s, actions, e)
    ensures |e.threads| == |s.threads|
    decreases |actions|
  {
    if actions != [] {
      SameThreads(s, actions[0]);
      ThreadsAlong(Step(s, actions[0]), actions[1..], e);
    }
  }

  lemma InitOrderly(s: Service)
    requires Init(s) && |s.threads| <= 1
    ensures Orderly(s)
  {
    InitHolds(s);
    assert |s.threads| == 1 ==> s.threads[0] == Thread([], [], []);
    assert Local(s) == [];
  }

  lemma ReachedOrderly(s: Service)
    requires Reached(s) && |s.threads| <= 1
    ensures Orderly(s)
  {
    var s0: Service, actions: seq<Action> :| Init(s0) && Run(s0, actions, s);
    ThreadsAlong(s0, actions, s);
    InitOrderly(s0);
    OrderlyAlong(s0, actions, s);
  }

  lemma ConnectingQueued(s: Service, p: nat)
    requires ConnectingOpen(s) && AwaitingHeld(s) && p < |s.pipes|
    ensures s.pipes[p].state == Connecting && s.pipes[p].wsi.Some? ==> p in s.connects
  {
  }

  /** With one service thread the only attempts that stay unreported are those
      that came back without a socket. */
  lemma OneThreadLosesNoSocket(s: Service, p: nat)
    requires Reached(s) && |s.threads| <= 1 && Lost(s, p)
    ensures s.pipes[p].wsi == None
  {
    ReachedOrderly(s);
    ConnectingQueued(s, p);
  }

  /** Such an attempt can stay unreported whatever the number of threads. */
  lemma SilentFailureCanBeLost(n: nat) returns (s: Service)
    requires n > 0
    ensures Reached(s) && |s.threads| == n && Lost(s, 0) && s.pipes[0].wsi == None
  {
    s := PipeServiceScenarios.SilentlyLost(n);
    PipeServiceScenarios.ReachSilentlyLost(n);
  }

  /** With one service thread every pipe waiting for an outcome is still queued
      when the outcome comes. */
  lemma OneThreadKeepsPipes(s: Service, w: nat, p: nat)
    requires Reached(s) && |s.threads| <= 1 && InPhase(s, w, Opening) && p < |s.pipes| && Awaits(s.pipes[p], w)
    ensures p in s.connects
  {
    ReachedOrderly(s);
    assert HasOutcomeComing(s, s.pipes[p]);
  }

  /** ... so every outcome is reported to the pipe it is for. */
  lemma OneThreadReports(s: Service, w: nat) returns (p: nat)
    requires Reached(s) && |s.threads| <= 1 && InPhase(s, w, Opening)
    ensures p < |s.pipes| && Awaits(s.pipes[p], w) && Enabled(s, Established(w))
    ensures Step(s, Established(w)).pipes[p].events == [ConnectSuccess]
            && Step(s, Error(w)).pipes[p].events == [ConnectFail]
  {
    ReachedOrderly(s);
    p := OutcomeIsComing(s, w);
    OutcomeReportedIff(s, w, p);
  }

  /** Pipe p waits for the outcome of socket w, which will not find it. */
  predicate Orphaned(s: Service, w: nat, p: nat)
  {
    InPhase(s, w, Opening) && p < |s.pipes| && Awaits(s.pipes[p], w) && p !in s.connects
  }

  ghost predicate OutcomeCanMiss(n: nat)
  {
    exists s: Service, w: nat, p: nat :: Reached(s) && |s.threads| == n && Orphaned(s, w, p)
  }

  /** An outcome can miss its pipe if and only if there are two service threads or
      more. */
  lemma OutcomeMissesIff(n: nat)
    ensures OutcomeCanMiss(n) <==> n >= 2
  {
    if n >= 2 {
      var s := PipeServiceScenarios.FirstWaits(n);
      PipeServiceScenarios.ReachFirstWaits(n);
      assert Orphaned(s, 1, 0);
    } else if OutcomeCanMiss(n) {
      var s: Service, w: nat, p: nat :| Reached(s) && |s.threads| == n && Orphaned(s, w, p);
      OneThreadKeepsPipes(s, w, p);
    }
  }
}
