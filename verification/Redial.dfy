/** The dial loop of net-voip/freeswitch/files/YTEL_DIAL/mod_ytel_dial.c: which
    caller-id and destination each attempt uses, and the release of the peer. */
module Redial {

  import opened Common

  const CALLER_IDS: nat := 2

  /** A (caller id, destination) pair by position. */
  datatype Pair = Pair(callerId: nat, dest: nat)

  /** The pair of attempt number `k` when there are `d` destinations. */
  function PairOf(k: nat, d: nat): Pair
    requires d > 0
  {
    Pair(k % CALLER_IDS, k % d)
  }

  function Budget(retry: int): nat
  {
    if retry > 1 then retry else 1
  }

  /** What the world answers: whether the caller's channel is ready before and
      after attempt k, and whether attempt k is answered. */
  datatype World = World(readyBefore: nat -> bool, answered: nat -> bool, readyAfter: nat -> bool)

  /** The loop goes on past attempt `k`. */
  predicate GoesOn(w: World, retry: int, k: nat)
  {
    w.readyBefore(k) && !w.answered(k) && w.readyAfter(k) && k + 1 < Budget(retry)
  }

  lemma RotationStep(k: nat, n: nat)
    requires n > 0
    ensures (k + 1) % n == if k % n == n - 1 then 0 else k % n + 1
  {
    var q, m := k / n, k % n;
    assert k == q * n + m;
    if m == n - 1 {
      assert k + 1 == (q + 1) * n;
      DivModUnique(k + 1, n, q + 1, 0);
    } else {
      DivModUnique(k + 1, n, q, m + 1);
    }
  }

  /** The do-while loop. `rounds` counts its iterations; the last one may end
      before it dials. */
  method DialLoop(destCount: nat, retryIn: int, w: World)
    returns (attempts: seq<Pair>, success: bool, last: Pair, ghost rounds: nat)
    requires 1 <= destCount <= 10
    ensures forall k :: 0 <= k < |attempts| ==> attempts[k] == PairOf(k, destCount)
    ensures |attempts| <= Budget(retryIn)
    ensures 1 <= rounds && (forall k :: 0 <= k < rounds - 1 ==> GoesOn(w, retryIn, k))
            && !GoesOn(w, retryIn, rounds - 1)
    ensures |attempts| == if w.readyBefore(rounds - 1) then rounds else rounds - 1
    ensures success <==> w.readyBefore(rounds - 1) && w.answered(rounds - 1)
    ensures last == PairOf(rounds - 1, destCount)
  {
    var destPos, calleridPos := 0, 0;
    var retry := retryIn;
    attempts, success, rounds := [], false, 0;
    while true
      invariant rounds == |attempts| && !success
      invariant retry == retryIn - rounds && rounds < Budget(retryIn)
      invariant calleridPos == rounds % CALLER_IDS && destPos == rounds % destCount
      invariant forall k :: 0 <= k < rounds ==> GoesOn(w, retryIn, k) && attempts[k] == PairOf(k, destCount)
      decreases Budget(retryIn) - rounds
    {
      ghost var k := rounds;
      last := Pair(calleridPos, destPos);
      rounds := rounds + 1;
      if !w.readyBefore(|attempts|) {
        break;
      }
      var n := |attempts|;
      attempts := attempts + [Pair(calleridPos, destPos)];
      success := w.answered(n);
      if success {
        break;
      }
      RotationStep(k, CALLER_IDS);
      RotationStep(k, destCount);
      if calleridPos == CALLER_IDS - 1 {
        calleridPos := 0;
      } else {
        calleridPos := calleridPos + 1;
      }
      if destPos == destCount - 1 {
        destPos := 0;
      } else {
        destPos := destPos + 1;
      }
      retry := retry - 1;
      if !(retry > 0 && w.readyAfter(n) && !success) {
        break;
      }
    }
  }

  /** A peer session as far as its read lock goes. */
  class Peer {
    var locks: int
    constructor ()
      ensures locks == 1
    {
      locks := 1;
    }

    method Unlock()
      modifies this
      ensures locks == old(locks) - 1
    {
      locks := locks - 1;
    }
  }

  /** What follows the loop, as far as the peer session is concerned: with a peer
      (an attempt succeeded) every path releases it once, without one no path does. */
  method Finish(peer: Peer?, callerReady: bool, stillReady: bool, bothReady: bool) returns (bridged: bool)
    modifies peer
    ensures peer != null ==> peer.locks == old(peer.locks) - 1
    ensures bridged <==> peer != null && callerReady && stillReady && bothReady
  {
    bridged := false;
    if callerReady && peer != null {
      if !stillReady {
        peer.Unlock();
        return;
      }
      if bothReady {
        bridged := true;
      }
      peer.Unlock();
    } else if peer != null {
      peer.Unlock();
    }
  }

  /** The application: the peer exists exactly if an attempt was answered, and
      then it is released exactly once. */
  method Dial(destCount: nat, retry: int, w: World, callerReady: bool, stillReady: bool, bothReady: bool)
    returns (attempts: seq<Pair>, releases: int)
    requires 1 <= destCount <= 10
    ensures forall k :: 0 <= k < |attempts| ==> attempts[k] == PairOf(k, destCount)
    ensures |attempts| <= Budget(retry)
    ensures releases == if attempts != [] && w.answered(|attempts| - 1) then 1 else 0
    ensures forall k :: 0 <= k < |attempts| - 1 ==> !w.answered(k)
  {
    var success, last;
    ghost var rounds;
    attempts, success, last, rounds := DialLoop(destCount, retry, w);
    forall k | 0 <= k < rounds - 1
      ensures !w.answered(k)
    {
      assert GoesOn(w, retry, k);
    }
    var peer: Peer? := null;
    if success {
      peer := new Peer();
    }
    var before := if peer != null then peer.locks else 0;
    var bridged := Finish(peer, callerReady, stillReady, bothReady);
    releases := before - if peer != null then peer.locks else 0;
  }

  // ------------------------------------------------------------------------
  // Which pairs get tried

  predicate Inside(k: nat, start: nat, n: nat)
  {
    start <= k < start + n
  }

  /** In any window of `n` consecutive numbers one is congruent to `t` modulo `n`. */
  function Hit(start: nat, n: nat, t: nat): (k: nat)
    requires t < n
    ensures Inside(k, start, n)
  {
    if start % n <= t then start + (t - start % n) else start + (n + t - start % n)
  }

  lemma HitIs(start: nat, n: nat, t: nat)
    requires t < n
    ensures Hit(start, n, t) % n == t
  {
    var q := start / n;
    assert start == q * n + start % n;
    if start % n <= t {
      DivModUnique(Hit(start, n, t), n, q, t);
    } else {
      assert (q + 1) * n == q * n + n;
      DivModUnique(Hit(start, n, t), n, q + 1, t);
    }
  }

  /** Two numbers congruent modulo `n` lie a multiple of `n` apart. */
  lemma SameResidue(a: nat, b: nat, n: nat)
    requires n > 0 && a % n == b % n && a <= b
    ensures b - a < n ==> a == b
    ensures b - a < 2 * n ==> a == b || b == a + n
  {
    assert a == (a / n) * n + a % n && b == (b / n) * n + b % n;
    var d := b / n - a / n;
    assert b - a == d * n;
    MultipleGrows(d, n);
    MultipleGrows(d - 1, n);
    assert (d - 1) * n == d * n - n;
  }

  lemma PlusPeriod(k: nat, n: nat)
    requires n > 0
    ensures (k + n) % n == k % n
  {
    assert k == (k / n) * n + k % n;
    assert (k / n + 1) * n == (k / n) * n + n;
    DivModUnique(k + n, n, k / n + 1, k % n);
  }

  /** With an odd number of destinations any 2d consecutive attempts try every
      pair exactly once. */
  lemma OddTriesAllOnce(d: nat, start: nat, p: Pair) returns (k: nat)
    requires d % 2 == 1 && p.callerId < CALLER_IDS && p.dest < d
    ensures Inside(k, start, 2 * d) && PairOf(k, d) == p
    ensures forall j: nat :: Inside(j, start, 2 * d) && PairOf(j, d) == p ==> j == k
  {
    var h := Hit(start, d, p.dest);
    HitIs(start, d, p.dest);
    PlusPeriod(h, d);
    k := if h % 2 == p.callerId then h else h + d;
    assert (h + d) % 2 != h % 2;
    forall j: nat | Inside(j, start, 2 * d) && PairOf(j, d) == p
      ensures j == k
    {
      if j <= k {
        SameResidue(j, k, d);
      } else {
        SameResidue(k, j, d);
      }
    }
  }

  /** With an even number only the pairs of equal parity are ever tried, each
      exactly once in any d consecutive attempts. */
  lemma EvenTriesEqualParity(d: nat, start: nat, p: Pair)
    requires d > 0 && d % 2 == 0 && p.callerId < CALLER_IDS && p.dest < d
    ensures (exists k: nat :: Inside(k, start, d) && PairOf(k, d) == p) <==> p.callerId == p.dest % 2
    ensures forall j: nat, k: nat ::
            Inside(j, start, d) && Inside(k, start, d) && PairOf(j, d) == p && PairOf(k, d) == p ==> j == k
  {
    var h := Hit(start, d, p.dest);
    HitIs(start, d, p.dest);
    ParityOfResidue(h, d);
    if p.callerId == p.dest % 2 {
      assert Inside(h, start, d) && PairOf(h, d) == p;
    }
    forall k: nat | Inside(k, start, d) && PairOf(k, d) == p
      ensures p.callerId == p.dest % 2 && k == h
    {
      ParityOfResidue(k, d);
      if h <= k {
        SameResidue(h, k, d);
      } else {
        SameResidue(k, h, d);
      }
    }
  }

  lemma ParityOfResidue(k: nat, d: nat)
    requires d > 0 && d % 2 == 0
    ensures (k % d) % 2 == k % 2
  {
    var q := k / d;
    assert k == q * d + k % d;
    assert q * d == 2 * (q * (d / 2)) by {
      assert d == 2 * (d / 2);
    }
  }
}
