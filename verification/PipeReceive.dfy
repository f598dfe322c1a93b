/** Reassembly of text messages in the RECEIVE case of AudioPipe::lws_callback
    (net-voip/freeswitch/files/mod_audio_fork/audio_pipe.cpp). */
module PipeReceive {

  import opened Common

  const MAX_RECV_BUF_SIZE: nat := 65 * 1024 * 10
  const RECV_BUF_REALLOC_SIZE: nat := 8 * 1024

  /** One RECEIVE callback: a piece of a frame and what libwebsockets says about it. */
  datatype Fragment = Fragment(data: seq<byte>, first: bool, final: bool, remaining: nat, binary: bool)

  /** Libwebsockets hands over at most its receive buffer of 1024 bytes. */
  predicate Small(f: Fragment)
  {
    |f.data| <= RECV_BUF_REALLOC_SIZE
  }

  /** The receive buffer: absent, or the bytes so far and the capacity. */
  datatype Buffer = Absent | Holding(data: seq<byte>, capacity: nat)

  predicate Fits(b: Buffer)
  {
    b.Holding? ==> |b.data| <= b.capacity
  }

  // ------------------------------------------------------------------------
  // The callback on values

  function Opened(b: Buffer, f: Fragment): Buffer
  {
    if f.first then Holding([], |f.data| + f.remaining) else b
  }

  /** Making room for `n` more bytes; growing past the maximum drops everything. */
  function Room(b: Buffer, n: nat): Buffer
  {
    match b
    case Absent => if n == 0 then Absent else Holding([], RECV_BUF_REALLOC_SIZE)
    case Holding(d, c) =>
      if |d| + n <= c then b
      else if c + RECV_BUF_REALLOC_SIZE > MAX_RECV_BUF_SIZE then Absent
      else Holding(d, c + RECV_BUF_REALLOC_SIZE)
  }

  function Next(b: Buffer, f: Fragment): (Buffer, Option<seq<byte>>)
  {
    if f.binary then (b, None)
    else
      match Room(Opened(b, f), |f.data|)
      case Absent => (Absent, None)
      case Holding(d, c) =>
        if f.final then (Absent, Some(d + f.data)) else (Holding(d + f.data, c), None)
  }

  /** The messages raised by a sequence of callbacks, and the buffer left over. */
  function Run(b: Buffer, fs: seq<Fragment>): (Buffer, seq<seq<byte>>)
    decreases |fs|
  {
    if fs == [] then (b, [])
    else
      var (b', m) := Next(b, fs[0]);
      var (last, ms) := Run(b', fs[1..]);
      (last, if m.Some? then [m.value] + ms else ms)
  }

  // ------------------------------------------------------------------------
  // The callback on the pipe's fields

  class Receiver {
    var recvBuf: array?<byte>   // m_recv_buf
    var ptr: nat                // m_recv_buf_ptr - m_recv_buf
    var len: nat                // m_recv_buf_len

    ghost predicate Valid()
      reads this, recvBuf
    {
      if recvBuf == null then ptr == 0 && len == 0 else recvBuf.Length == len && ptr <= len
    }

    ghost function View(): Buffer
      reads this, recvBuf
      requires Valid()
    {
      if recvBuf == null then Absent else Holding(recvBuf[..ptr], len)
    }

    constructor ()
      ensures Valid() && View() == Absent
    {
      recvBuf, ptr, len := null, 0, 0;
    }

    /** The LWS_CALLBACK_CLIENT_RECEIVE case.  The first precondition is the
        assertion in the source; NullBetweenMessages shows that it holds. */
    method Receive(f: Fragment) returns (msg: Option<seq<byte>>)
      requires Valid() && Small(f)
      requires f.first && !f.binary ==> View() == Absent
      modifies this, recvBuf
      ensures Valid() && (View(), msg) == Next(old(View()), f)
      ensures recvBuf != null && recvBuf != old(recvBuf) ==> fresh(recvBuf)
    {
      msg := None;
      if f.binary {
        return;
      }
      if f.first {
        len := |f.data| + f.remaining;
        recvBuf := new byte[len];
        ptr := 0;
      }
      var room := len - ptr;
      if room < |f.data| {
        GrowOrDrop();
      }
      if recvBuf != null {
        ghost var before := recvBuf[..ptr];
        Copy(recvBuf, ptr, f.data);
        ptr := ptr + |f.data|;
        assert recvBuf[..ptr] == before + f.data;
        if f.final {
          msg := Some(recvBuf[..ptr]);
          recvBuf, ptr, len := null, 0, 0;
        }
      }
    }

    /** realloc to a larger buffer, or give the message up. */
    method GrowOrDrop()
      requires Valid()
      modifies this
      ensures Valid()
      ensures View() == if old(len) + RECV_BUF_REALLOC_SIZE > MAX_RECV_BUF_SIZE then Absent
                        else Holding(old(if recvBuf == null then [] else recvBuf[..ptr]),
                                     old(len) + RECV_BUF_REALLOC_SIZE)
      ensures recvBuf != null ==> fresh(recvBuf)
    {
      var newLen := len + RECV_BUF_REALLOC_SIZE;
      if newLen > MAX_RECV_BUF_SIZE {
        recvBuf, ptr, len := null, 0, 0;
      } else {
        var bigger := new byte[newLen];
        if recvBuf != null {
          Copy(bigger, 0, recvBuf[..ptr]);
          assert bigger[..ptr] == recvBuf[..ptr];
        }
        recvBuf, len := bigger, newLen;
      }
    }

    /** memcpy: the copied bytes have to end within the buffer. */
    method Copy(to: array<byte>, at: nat, data: seq<byte>)
      requires at + |data| <= to.Length
      modifies to
      ensures to[..] == old(to[..at]) + data + old(to[at + |data|..])
    {
      forall k | 0 <= k < |data| {
        to[at + k] := data[k];
      }
    }
  }

  // ------------------------------------------------------------------------
  // Whole messages

  function Joined(fs: seq<Fragment>): seq<byte>
  {
    if fs == [] then [] else fs[0].data + Joined(fs[1..])
  }

  /** The fragments of a text message after its first one. */
  predicate Continues(fs: seq<Fragment>)
  {
    && fs != []
    && (forall k :: 0 <= k < |fs| ==> !fs[k].binary && !fs[k].first && Small(fs[k]))
    && (forall k :: 0 <= k < |fs| ==> (fs[k].final <==> k == |fs| - 1))
  }

  /** A text message as it arrives: any fragmentation, any announced rest. */
  predicate TextMessage(fs: seq<Fragment>)
  {
    && fs != [] && !fs[0].binary && fs[0].first && Small(fs[0])
    && (if |fs| == 1 then fs[0].final else !fs[0].final && Continues(fs[1..]))
  }

  predicate BinaryMessage(fs: seq<Fragment>)
  {
    fs != [] && forall k :: 0 <= k < |fs| ==> fs[k].binary && Small(fs[k])
  }

  /** The largest capacity that growing from `c0` can reach. */
  function Limit(c0: nat): nat
  {
    if c0 + RECV_BUF_REALLOC_SIZE > MAX_RECV_BUF_SIZE then c0
    else c0 + (MAX_RECV_BUF_SIZE - c0) / RECV_BUF_REALLOC_SIZE * RECV_BUF_REALLOC_SIZE
  }

  function FirstCapacity(fs: seq<Fragment>): nat
    requires fs != []
  {
    |fs[0].data| + fs[0].remaining
  }

  /** `c` is `c0` grown some number of times. */
  predicate Grown(c0: nat, c: nat)
  {
    c0 <= c <= Limit(c0) && (Limit(c0) - c) % RECV_BUF_REALLOC_SIZE == 0
  }

  lemma LimitFacts(c0: nat)
    ensures Grown(c0, c0) && Limit(c0) + RECV_BUF_REALLOC_SIZE > MAX_RECV_BUF_SIZE
    ensures Limit(c0) <= if c0 > MAX_RECV_BUF_SIZE then c0 else MAX_RECV_BUF_SIZE
  {
  }

  /** Making room succeeds exactly while the message stays within the limit. */
  lemma RoomWithinLimit(c0: nat, d: seq<byte>, c: nat, n: nat)
    requires Grown(c0, c) && |d| <= c && n <= RECV_BUF_REALLOC_SIZE
    ensures |d| + n > Limit(c0) ==> Room(Holding(d, c), n) == Absent && n > 0
    ensures |d| + n <= Limit(c0) ==>
      var b := Room(Holding(d, c), n); b.Holding? && b.data == d && Grown(c0, b.capacity) && |d| + n <= b.capacity
  {
    LimitFacts(c0);
    if c < Limit(c0) {
      assert c + RECV_BUF_REALLOC_SIZE <= Limit(c0);
    }
  }

  lemma RunOne(b: Buffer, f: Fragment)
    ensures var n := Next(b, f); Run(b, [f]) == (n.0, if n.1.Some? then [n.1.value] else [])
  {
    var n := Next(b, f);
    assert [f][1..] == [] && Run(n.0, []) == (n.0, []);
    if n.1.Some? {
      assert [n.1.value] + [] == [n.1.value];
    }
  }

  /** The messages of `ms` are all shorter than `n` bytes. */
  predicate AllShorter(ms: seq<seq<byte>>, n: nat)
  {
    forall k :: 0 <= k < |ms| ==> |ms[k]| < n
  }

  /** Whatever is left of a message yields at most one message, no longer than
      what was held and what still arrives, and leaves no buffer behind. */
  lemma {:induction false} RestOfMessage(b: Buffer, fs: seq<Fragment>)
    requires Fits(b) && Continues(fs)
    ensures Run(b, fs).0 == Absent && |Run(b, fs).1| <= 1
    ensures AllShorter(Run(b, fs).1, (if b.Holding? then |b.data| else 0) + |Joined(fs)| + 1)
    decreases |fs|
  {
    var (b', m) := Next(b, fs[0]);
    if |fs| > 1 {
      assert Continues(fs[1..]);
      RestOfMessage(b', fs[1..]);
    } else {
      assert fs[0].final;
      assert Run(b', fs[1..]) == (b', []);
    }
  }

  /** From a grown buffer holding `d`, the rest is delivered in one piece if and
      only if everything fits the limit; otherwise whatever comes is shorter. */
  lemma {:induction false} RestIntact(c0: nat, d: seq<byte>, c: nat, fs: seq<Fragment>)
    requires Grown(c0, c) && |d| <= c && Continues(fs)
    ensures var r, total := Run(Holding(d, c), fs), d + Joined(fs);
      if |total| <= Limit(c0) then r == (Absent, [total]) else r.0 == Absent && AllShorter(r.1, |total|)
    decreases |fs|
  {
    var f := fs[0];
    RoomWithinLimit(c0, d, c, |f.data|);
    var (b, m) := Next(Holding(d, c), f);
    var total := d + Joined(fs);
    assert total == (d + f.data) + Joined(fs[1..]);
    if |fs| == 1 {
      assert f.final && Joined(fs[1..]) == [] && (d + f.data) + [] == d + f.data;
      RunOne(Holding(d, c), f);
      assert fs == [f];
    } else {
      assert Continues(fs[1..]);
      if |d| + |f.data| <= Limit(c0) {
        RestIntact(c0, d + f.data, b.capacity, fs[1..]);
      } else {
        RestOfMessage(Absent, fs[1..]);
      }
    }
  }

  /** A text message is delivered once, whole and at its last fragment if and
      only if it fits the largest capacity its first allocation can grow to. */
  lemma DeliveredIff(fs: seq<Fragment>)
    requires TextMessage(fs)
    ensures Run(Absent, fs) == (Absent, [Joined(fs)]) <==> |Joined(fs)| <= Limit(FirstCapacity(fs))
  {
    var c0 := FirstCapacity(fs);
    LimitFacts(c0);
    var f := fs[0];
    assert [] + f.data == f.data;
    if |fs| == 1 {
      assert Joined(fs[1..]) == [] && f.data + [] == f.data;
      assert Next(Absent, f) == (Absent, Some(f.data));
      RunOne(Absent, f);
      assert fs == [f];
    } else {
      RestIntact(c0, f.data, c0, fs[1..]);
      assert Next(Absent, f) == (Holding(f.data, c0), None);
    }
  }

  /** Hence every message of at most MAX minus one growth step arrives, however
      it is cut up and whatever rest is announced. */
  lemma ShortMessagesArrive(fs: seq<Fragment>)
    requires TextMessage(fs) && |Joined(fs)| <= MAX_RECV_BUF_SIZE - RECV_BUF_REALLOC_SIZE
    ensures Run(Absent, fs) == (Absent, [Joined(fs)])
  {
    LimitFacts(FirstCapacity(fs));
    DeliveredIff(fs);
  }

  // ------------------------------------------------------------------------
  // Oversized messages

  /** By the lengths alone: how many fragments there are up to and including the
      last one at which everything held is dropped; 0 if none.  After a drop the
      buffer starts over from one growth step. */
  function Dropped(limit: nat, held: nat, fs: seq<Fragment>): (n: nat)
    ensures n <= |fs|
    decreases |fs|
  {
    if fs == [] then 0
    else if held + |fs[0].data| > limit then 1 + Dropped(Limit(RECV_BUF_REALLOC_SIZE), 0, fs[1..])
    else
      var n := Dropped(limit, held + |fs[0].data|, fs[1..]);
      if n == 0 then 0 else n + 1
  }

  /** The event for what arrived after the last drop, if anything did. */
  function Raised(fs: seq<Fragment>): seq<seq<byte>>
  {
    if Joined(fs) == [] then [] else [Joined(fs)]
  }

  /** What the rest of a message raises, with `d` held or everything dropped. */
  function Remainder(d: seq<byte>, dropped: bool, n: nat, fs: seq<Fragment>): seq<seq<byte>>
    requires n <= |fs|
  {
    if n > 0 then Raised(fs[n..]) else if dropped then Raised(fs) else [d + Joined(fs)]
  }

  function After(d: seq<byte>, limit: nat, fs: seq<Fragment>): seq<seq<byte>>
  {
    Remainder(d, false, Dropped(limit, |d|, fs), fs)
  }

  function AfterDrop(fs: seq<Fragment>): seq<seq<byte>>
  {
    Remainder([], true, Dropped(Limit(RECV_BUF_REALLOC_SIZE), 0, fs), fs)
  }

  lemma Shift(fs: seq<Fragment>, n: nat)
    requires n < |fs|
    ensures fs[n + 1..] == fs[1..][n..]
  {
  }

  /** A fragment that fits is held, ... */
  lemma AfterHeld(d: seq<byte>, limit: nat, fs: seq<Fragment>)
    requires fs != [] && |d| + |fs[0].data| <= limit
    ensures After(d, limit, fs) == After(d + fs[0].data, limit, fs[1..])
  {
    Shift(fs, Dropped(limit, |d + fs[0].data|, fs[1..]));
    assert d + Joined(fs) == (d + fs[0].data) + Joined(fs[1..]);
  }

  /** ... one that does not is dropped with everything held, ... */
  lemma AfterOverflow(d: seq<byte>, limit: nat, fs: seq<Fragment>)
    requires fs != [] && |d| + |fs[0].data| > limit
    ensures After(d, limit, fs) == AfterDrop(fs[1..])
  {
    Shift(fs, Dropped(Limit(RECV_BUF_REALLOC_SIZE), 0, fs[1..]));
  }

  /** ... and after a drop the first bytes start a new buffer. */
  lemma AfterRestart(fs: seq<Fragment>)
    requires fs != [] && Small(fs[0])
    ensures AfterDrop(fs) == if fs[0].data == [] then AfterDrop(fs[1..])
                             else After(fs[0].data, Limit(RECV_BUF_REALLOC_SIZE), fs[1..])
  {
    LimitFacts(RECV_BUF_REALLOC_SIZE);
    Shift(fs, Dropped(Limit(RECV_BUF_REALLOC_SIZE), |fs[0].data|, fs[1..]));
    assert [] + Joined(fs[1..]) == Joined(fs[1..]);
  }

  lemma LastHeld(b: Buffer, f: Fragment, d: seq<byte>, limit: nat)
    requires f.final && Next(b, f) == (Absent, Some(d))
    ensures Run(b, [f]).1 == After(d, limit, [])
  {
    RunOne(b, f);
    assert d + [] == d;
  }

  lemma RunSilent(b: Buffer, b': Buffer, fs: seq<Fragment>)
    requires fs != [] && Next(b, fs[0]) == (b', None)
    ensures Run(b, fs) == Run(b', fs[1..])
  {
  }

  lemma NextAfterDrop(f: Fragment)
    requires !f.binary && !f.first && Small(f)
    ensures Next(Absent, f) ==
      if f.data == [] then (Absent, None)
      else if f.final then (Absent, Some(f.data)) else (Holding(f.data, RECV_BUF_REALLOC_SIZE), None)
  {
    assert [] + f.data == f.data;
  }

  lemma NextFirst(f: Fragment)
    requires !f.binary && f.first
    ensures Next(Absent, f) ==
      if f.final then (Absent, Some(f.data)) else (Holding(f.data, |f.data| + f.remaining), None)
  {
    assert [] + f.data == f.data;
  }

  lemma LastAfterDrop(f: Fragment)
    requires Continues([f])
    ensures Run(Absent, [f]).1 == AfterDrop([f])
  {
    AfterRestart([f]);
    NextAfterDrop(f);
    assert [f][1..] == [];
    if f.data == [] {
      RunSilent(Absent, Absent, [f]);
    } else {
      LastHeld(Absent, f, f.data, Limit(RECV_BUF_REALLOC_SIZE));
    }
  }

  lemma {:induction false} RestAfterDrop(fs: seq<Fragment>)
    requires Continues(fs)
    ensures Run(Absent, fs).1 == AfterDrop(fs)
    decreases |fs|, 0
  {
    if |fs| == 1 {
      assert fs == [fs[0]];
      LastAfterDrop(fs[0]);
    } else {
      assert Continues(fs[1..]);
      AfterRestart(fs);
      NextAfterDrop(fs[0]);
      if fs[0].data == [] {
        RunSilent(Absent, Absent, fs);
        RestAfterDrop(fs[1..]);
      } else {
        RunSilent(Absent, Holding(fs[0].data, RECV_BUF_REALLOC_SIZE), fs);
        RestRestarted(fs[0].data, fs[1..]);
      }
    }
  }

  lemma {:induction false} RestRestarted(d: seq<byte>, fs: seq<Fragment>)
    requires |d| <= RECV_BUF_REALLOC_SIZE && Continues(fs)
    ensures Run(Holding(d, RECV_BUF_REALLOC_SIZE), fs).1 == After(d, Limit(RECV_BUF_REALLOC_SIZE), fs)
    decreases |fs|, 2
  {
    LimitFacts(RECV_BUF_REALLOC_SIZE);
    RestHeld(RECV_BUF_REALLOC_SIZE, d, RECV_BUF_REALLOC_SIZE, fs);
  }

  lemma {:induction false} RestHeld(c0: nat, d: seq<byte>, c: nat, fs: seq<Fragment>)
    requires Grown(c0, c) && |d| <= c && Continues(fs)
    ensures Run(Holding(d, c), fs).1 == After(d, Limit(c0), fs)
    decreases |fs|, 1
  {
    var f := fs[0];
    RoomWithinLimit(c0, d, c, |f.data|);
    var (b, m) := Next(Holding(d, c), f);
    if |d| + |f.data| > Limit(c0) {
      AfterOverflow(d, Limit(c0), fs);
      RunSilent(Holding(d, c), Absent, fs);
      if |fs| > 1 {
        assert Continues(fs[1..]);
        RestAfterDrop(fs[1..]);
      }
    } else {
      AfterHeld(d, Limit(c0), fs);
      if |fs| == 1 {
        assert fs == [f];
        LastHeld(Holding(d, c), f, d + f.data, Limit(c0));
      } else {
        assert Continues(fs[1..]);
        RunSilent(Holding(d, c), b, fs);
        RestHeld(c0, d + f.data, b.capacity, fs[1..]);
      }
    }
  }

  /** Every text message, oversized or not: without a drop it is delivered whole;
      otherwise exactly what arrived after the last drop is raised as a message
      of its own, and nothing if that is empty. */
  lemma MessageRaises(fs: seq<Fragment>)
    requires TextMessage(fs)
    ensures var n := Dropped(Limit(FirstCapacity(fs)), 0, fs);
      Run(Absent, fs).1 == if n == 0 then [Joined(fs)] else Raised(fs[n..])
  {
    RaisedIsAfter(fs, Limit(FirstCapacity(fs)));
    FirstThenRest(fs);
  }

  lemma RaisedIsAfter(fs: seq<Fragment>, limit: nat)
    ensures var n := Dropped(limit, 0, fs);
      After([], limit, fs) == if n == 0 then [Joined(fs)] else Raised(fs[n..])
  {
    assert [] + Joined(fs) == Joined(fs);
  }

  lemma FirstThenRest(fs: seq<Fragment>)
    requires TextMessage(fs)
    ensures Run(Absent, fs).1 == After([], Limit(FirstCapacity(fs)), fs)
  {
    var c0, f := FirstCapacity(fs), fs[0];
    LimitFacts(c0);
    NextFirst(f);
    AfterHeld([], Limit(c0), fs);
    assert [] + f.data == f.data;
    if |fs| == 1 {
      assert fs == [f];
      LastHeld(Absent, f, f.data, Limit(c0));
    } else {
      RunSilent(Absent, Holding(f.data, c0), fs);
      RestHeld(c0, f.data, c0, fs[1..]);
    }
  }

  /** There is a drop exactly if the message exceeds the limit. */
  lemma {:induction false} DroppedIff(limit: nat, held: nat, fs: seq<Fragment>)
    requires held <= limit
    ensures Dropped(limit, held, fs) > 0 <==> held + |Joined(fs)| > limit
    decreases |fs|
  {
    if fs != [] && held + |fs[0].data| <= limit {
      DroppedIff(limit, held + |fs[0].data|, fs[1..]);
    }
  }

  /** What the first fragment announces is allocated at once, however large, and
      a message that keeps to it is delivered whole. */
  lemma AnnouncedArrives(fs: seq<Fragment>)
    requires TextMessage(fs) && |Joined(fs)| <= FirstCapacity(fs)
    ensures Run(Absent, fs) == (Absent, [Joined(fs)])
  {
    LimitFacts(FirstCapacity(fs));
    DeliveredIff(fs);
  }

  /** A message longer than the maximum is discarded, as intended, if and only if
      it exceeds what its first fragment announced and no bytes arrive after its
      last drop. */
  lemma OversizedDiscardedIff(fs: seq<Fragment>)
    requires TextMessage(fs) && |Joined(fs)| > MAX_RECV_BUF_SIZE
    ensures var c0 := FirstCapacity(fs); var n := Dropped(Limit(c0), 0, fs);
      Run(Absent, fs).1 == [] <==> |Joined(fs)| > c0 && Joined(fs[n..]) == []
  {
    var c0 := FirstCapacity(fs);
    LimitFacts(c0);
    if |Joined(fs)| <= c0 {
      AnnouncedArrives(fs);
    } else {
      MessageRaises(fs);
      DroppedIff(Limit(c0), 0, fs);
    }
  }

  // ------------------------------------------------------------------------
  // The buffer over whole sessions

  /** The capacity stays below the larger of the first allocation and the maximum. */
  lemma {:induction false} CapacityBound(b: Buffer, fs: seq<Fragment>, k: nat, bound: nat)
    requires Fits(b) && Continues(fs) && k <= |fs| && bound >= MAX_RECV_BUF_SIZE
    requires b.Holding? ==> b.capacity <= bound
    ensures var b' := Run(b, fs[..k]).0; Fits(b') && (b'.Holding? ==> b'.capacity <= bound)
    decreases |fs|
  {
    if k > 0 {
      var b1 := Next(b, fs[0]).0;
      assert fs[..k][1..] == fs[1..][..k - 1];
      if |fs| > 1 {
        assert Continues(fs[1..]);
        CapacityBound(b1, fs[1..], k - 1, bound);
      } else {
        assert Run(b1, fs[..k][1..]) == (b1, []);
      }
    }
  }

  lemma MessageCapacity(fs: seq<Fragment>, k: nat)
    requires TextMessage(fs) && k <= |fs|
    ensures var b := Run(Absent, fs[..k]).0;
      Fits(b) && (b.Holding? ==>
        b.capacity <= if FirstCapacity(fs) > MAX_RECV_BUF_SIZE then FirstCapacity(fs) else MAX_RECV_BUF_SIZE)
  {
    if k > 0 {
      var b1 := Next(Absent, fs[0]).0;
      var bound := if FirstCapacity(fs) > MAX_RECV_BUF_SIZE then FirstCapacity(fs) else MAX_RECV_BUF_SIZE;
      assert fs[..k][1..] == fs[1..][..k - 1];
      if |fs| > 1 {
        CapacityBound(b1, fs[1..], k - 1, bound);
      } else {
        assert Run(b1, fs[..k][1..]) == (b1, []);
      }
    }
  }

  function Flat(ms: seq<seq<Fragment>>): seq<Fragment>
  {
    if ms == [] then [] else ms[0] + Flat(ms[1..])
  }

  lemma {:induction false} RunConcat(b: Buffer, fs: seq<Fragment>, gs: seq<Fragment>)
    ensures var r := Run(b, fs);
      Run(b, fs + gs) == (Run(r.0, gs).0, r.1 + Run(r.0, gs).1)
    decreases |fs|
  {
    if fs == [] {
      assert fs + gs == gs && [] + Run(b, gs).1 == Run(b, gs).1;
    } else {
      assert (fs + gs)[1..] == fs[1..] + gs;
      var (b', m) := Next(b, fs[0]);
      RunConcat(b', fs[1..], gs);
      var r := Run(b', fs[1..]);
      if m.Some? {
        assert [m.value] + (r.1 + Run(r.0, gs).1) == ([m.value] + r.1) + Run(r.0, gs).1;
      }
    }
  }

  lemma {:induction false} BinaryIgnored(b: Buffer, fs: seq<Fragment>)
    requires forall k :: 0 <= k < |fs| ==> fs[k].binary
    ensures Run(b, fs) == (b, [])
    decreases |fs|
  {
    if fs != [] {
      BinaryIgnored(b, fs[1..]);
    }
  }

  lemma OneMessage(fs: seq<Fragment>)
    requires TextMessage(fs) || BinaryMessage(fs)
    ensures Run(Absent, fs).0 == Absent && |Run(Absent, fs).1| <= 1
  {
    if fs[0].binary {
      BinaryIgnored(Absent, fs);
    } else {
      var b1 := Next(Absent, fs[0]).0;
      if |fs| > 1 {
        RestOfMessage(b1, fs[1..]);
      } else {
        assert Run(b1, fs[1..]) == (b1, []);
      }
    }
  }

  /** Over any sequence of messages, oversized ones included, the buffer is
      absent after each of them -- so the assertion at a first fragment never
      fails -- and no message raises more than one event. */
  lemma {:induction false} NullBetweenMessages(ms: seq<seq<Fragment>>)
    requires forall k :: 0 <= k < |ms| ==> TextMessage(ms[k]) || BinaryMessage(ms[k])
    ensures Run(Absent, Flat(ms)).0 == Absent && |Run(Absent, Flat(ms)).1| <= |ms|
  {
    if ms != [] {
      OneMessage(ms[0]);
      RunConcat(Absent, ms[0], Flat(ms[1..]));
      NullBetweenMessages(ms[1..]);
    }
  }

  function AllJoined(ms: seq<seq<Fragment>>): seq<seq<byte>>
  {
    if ms == [] then [] else [Joined(ms[0])] + AllJoined(ms[1..])
  }

  /** Text messages below the bound arrive one by one, in order. */
  lemma {:induction false} SessionDelivers(ms: seq<seq<Fragment>>)
    requires forall k :: 0 <= k < |ms| ==>
      TextMessage(ms[k]) && |Joined(ms[k])| <= MAX_RECV_BUF_SIZE - RECV_BUF_REALLOC_SIZE
    ensures Run(Absent, Flat(ms)) == (Absent, AllJoined(ms))
  {
    if ms != [] {
      ShortMessagesArrive(ms[0]);
      RunConcat(Absent, ms[0], Flat(ms[1..]));
      SessionDelivers(ms[1..]);
    }
  }
}
