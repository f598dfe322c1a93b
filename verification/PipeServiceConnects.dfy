/** Which connection attempts are reported to their pipe. */
module PipeServiceConnects {

  import opened Common
  import opened PipeService
  import opened PipeServiceInvariant
  import opened PipeServiceSafety

  // ---- one outcome ----

  lemma StopsAt(pipes: seq<Pipe>, list: seq<nat>, w: nat, p: nat)
    requires Ids(pipes, list) && p in list && Awaits(pipes[p], w)
    requires forall q :: 0 <= q < |pipes| && Awaits(pipes[q], w) ==> q == p
    ensures Found(pipes, list, w) == Some(p)
  {
    var k :| 0 <= k < |list| && list[k] == p;
    assert Stop(pipes, list, w) <= k;
  }

  lemma FoundIff(s: Service, w: nat, p: nat)
    requires Inv(s) && p < |s.pipes| && Awaits(s.pipes[p], w)
    ensures Found(s.pipes, s.connects, w) == if p in s.connects then Some(p) else None
  {
    assert forall q :: 0 <= q < |s.pipes| && Awaits(s.pipes[q], w) ==> q == p;
    if p in s.connects {
      StopsAt(s.pipes, s.connects, w, p);
    } else {
      FoundIs(s.pipes, s.connects, w);
    }
  }

  /** The outcome of an attempt reaches its pipe exactly if the pipe is still in
      pendingConnects when it comes. */
  lemma OutcomeReportedIff(s: Service, w: nat, p: nat)
    requires Reached(s) && Enabled(s, Established(w)) && p < |s.pipes| && Awaits(s.pipes[p], w)
    ensures p in s.connects <==> Step(s, Established(w)).pipes[p].events == [ConnectSuccess]
    ensures p in s.connects <==> Step(s, Error(w)).pipes[p].events == [ConnectFail]
    ensures p !in s.connects ==> Step(s, Established(w)).pipes[p] == Step(s, Error(w)).pipes[p] == s.pipes[p]
  {
    ReachedInv(s);
    assert History(s.pipes[p]);
    FoundIff(s, w, p);
    EstablishedTells(s, w, p);
    ErrorTells(s, w, p);
  }

  lemma EstablishedTells(s: Service, w: nat, p: nat)
    requires Enabled(s, Established(w)) && p < |s.pipes| && s.pipes[p].events == []
    ensures var ap := Found(s.pipes, s.connects, w);
            && (ap == Some(p) ==> Step(s, Established(w)).pipes[p].events == [ConnectSuccess])
            && (ap == None ==> Step(s, Established(w)).pipes[p] == s.pipes[p])
  {
  }

  lemma ErrorTells(s: Service, w: nat, p: nat)
    requires Enabled(s, Error(w)) && p < |s.pipes| && s.pipes[p].events == []
    ensures var ap := Found(s.pipes, s.connects, w);
            && (ap == Some(p) ==> Step(s, Error(w)).pipes[p].events == [ConnectFail])
            && (ap == None ==> Step(s, Error(w)).pipes[p] == s.pipes[p])
  {
  }

  /** An outcome takes from pendingConnects its own pipe and the pipes queued
      before it whose socket is still null. */
  lemma OutcomeRemoves(s: Service, w: nat, p: nat, x: nat)
    requires Reached(s) && Enabled(s, Established(w)) && p < |s.pipes| && Awaits(s.pipes[p], w)
    requires x in s.connects
    ensures x !in Step(s, Established(w)).connects <==>
              || x == p
              || (s.pipes[x].wsi == None &&
                  exists k :: 0 <= k < |s.connects| && s.connects[k] == x
                              && forall j :: 0 <= j <= k ==> s.connects[j] != p)
  {
    ReachedInv(s);
    var n := Stop(s.pipes, s.connects, w);
    assert forall q :: 0 <= q < |s.pipes| && Awaits(s.pipes[q], w) ==> q == p;
    assert forall k :: 0 <= k < n ==> s.connects[k] != p;
    assert n < |s.connects| ==> s.connects[n] == p;
    assert x in Removed(s.pipes, s.connects, w) <==>
           (n < |s.connects| && x == p) || x in NullOnes(s.pipes, s.connects, n);
  }

  // ---- a lost connect ----

  /** The pipe waits for an outcome that will not find it. */
  predicate Lost(s: Service, p: nat)
  {
    p < |s.pipes| && s.pipes[p].state == Connecting && s.pipes[p].vhd && s.pipes[p].events == [] && p !in s.connects
  }

  lemma StepKeepsLost(s: Service, a: Action, p: nat)
    requires Inv(s) && Enabled(s, a) && Lost(s, p)
    ensures Lost(Step(s, a), p)
  {
    var e := Step(s, a);
    ActorIsOk(s, a);
    PipesGrow(s, a);
    if p in e.connects {
      ConnectsAfter(s, a, p);
    }
    if Actor(s, a) == Some(p) {
      ActorTurns(s, a, p);
      if a.Error? || a.Established? {
        FoundIs(s.pipes, s.connects, a.socket);
      }
    } else {
      OtherPipes(s, a, p);
    }
  }

  /** A pipe whose entry was dropped while it was connecting is never notified. */
  lemma {:induction false} LostStaysSilent(s: Service, actions: seq<Action>, e: Service, p: nat)
    requires Inv(s) && Run(s, actions, e) && Lost(s, p)
    ensures Lost(e, p)
    decreases |actions|
  {
    if actions != [] {
      StepKeeps(s, actions[0]);
      StepKeepsLost(s, actions[0], p);
      LostStaysSilent(Step(s, actions[0]), actions[1..], e, p);
    }
  }
}
