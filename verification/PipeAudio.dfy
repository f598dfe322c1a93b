/** The audio buffer shared by fork_frame (net-voip/freeswitch/files/
    mod_audio_fork/lws_glue.cpp) and the WRITEABLE case of
    AudioPipe::lws_callback (audio_pipe.cpp). */
module PipeAudio {

  import opened Common

  function Flat(frames: seq<seq<byte>>): seq<byte>
  {
    if frames == [] then [] else Flat(frames[..|frames| - 1]) + frames[|frames| - 1]
  }

  lemma Assoc(a: seq<byte>, b: seq<byte>, c: seq<byte>)
    ensures (a + b) + c == a + (b + c)
  {
  }

  lemma FlatStep(frames: seq<seq<byte>>, i: nat)
    requires i < |frames|
    ensures Flat(frames[..i + 1]) == Flat(frames[..i]) + frames[i]
  {
    assert frames[..i + 1][..i] == frames[..i];
  }

  lemma FlatPrefix(frames: seq<seq<byte>>, i: nat)
    requires i <= |frames|
    ensures Flat(frames[..i]) <= Flat(frames)
    decreases |frames|
  {
    if i == |frames| {
      assert frames[..i] == frames;
    } else {
      var rest := frames[..|frames| - 1];
      assert rest[..i] == frames[..i];
      FlatPrefix(rest, i);
    }
  }

  /** One more piece, whole or cut off, behind the pieces so far. */
  lemma Extend(frames: seq<seq<byte>>, i: nat, any: bool, taken: seq<byte>, data: seq<byte>)
    requires i < |frames| && data <= frames[i] && (any || taken == Flat(frames[..i]))
    ensures any || taken + data <= Flat(frames)
    ensures any || data != frames[i] || taken + data == Flat(frames[..i + 1])
  {
    FlatStep(frames, i);
    FlatPrefix(frames, i + 1);
  }

  lemma Grow(a: seq<byte>, b: seq<byte>, taken: seq<byte>, data: seq<byte>)
    ensures a + taken + data == a + (taken + data) && b + taken + data == b + (taken + data)
  {
  }

  class AudioBuffer {
    const buffer: array<byte>      // m_audio_buffer
    const pre: nat                 // LWS_PRE, the room libwebsockets needs in front
    const minFree: nat             // m_audio_buffer_min_freespace
    var offset: nat                // m_audio_buffer_write_offset
    var locked: bool               // m_audio_mutex
    var queued: bool               // a write was requested since the last drain
    var overrunNotified: bool      // buffer_overrun_notified
    var overrunEvents: nat
    // what happened so far
    ghost var accepted: seq<byte>  // all bytes taken from frames
    ghost var sent: seq<byte>      // all bytes handed to lws_write
    ghost var start: nat           // where the unsent bytes start
    ghost var lost: nat
    ghost var overran: bool

    ghost predicate Valid()
      reads this, buffer
    {
      && (start == 0 || start == pre) && start <= offset <= buffer.Length
      && |accepted| == |sent| + |Unsent()| + lost
      && (!overran ==> start == pre && lost == 0 && accepted == sent + Unsent())
      && (overran ==> overrunNotified) && overrunEvents == (if overrunNotified then 1 else 0)
      && (!locked && offset > pre ==> queued)
    }

    /** The bytes accepted since the buffer was last drained or reset. */
    ghost function Unsent(): seq<byte>
      reads this, buffer
      requires start <= offset <= buffer.Length
    {
      buffer[start..offset]
    }

    constructor (pre: nat, audioLen: nat, minFree: nat)
      ensures Valid() && !locked && !overran && accepted == [] && sent == []
      ensures this.pre == pre && this.minFree == minFree && buffer.Length == pre + audioLen && fresh(buffer)
    {
      this.pre, this.minFree := pre, minFree;
      buffer := new byte[pre + audioLen];
      offset, locked, queued, overrunNotified, overrunEvents := pre, false, false, false, 0;
      accepted, sent, start, lost, overran := [], [], pre, 0, false;
    }

    function SpaceAvailable(): nat
      reads this
      requires offset <= buffer.Length
    {
      buffer.Length - offset
    }

    /** lockAudioBuffer by the one thread that runs fork_frame or the callback. */
    method Lock()
      requires Valid() && !locked
      modifies this`locked
      ensures Valid() && locked
    {
      locked := true;
    }

    /** unlockAudioBuffer: unsent audio is queued for writing first. */
    method Unlock()
      requires Valid() && locked
      modifies this`locked, this`queued
      ensures Valid() && !locked && (offset > pre ==> queued)
    {
      if offset > pre {
        queued := true;
      }
      locked := false;
    }

    /** A reader writes `data` at the write pointer. */
    method Write(data: seq<byte>)
      requires start <= offset && offset + |data| <= buffer.Length
      modifies buffer
      ensures buffer[start..offset + |data|] == old(buffer[start..offset]) + data
    {
      forall k | 0 <= k < |data| {
        buffer[offset + k] := data[k];
      }
    }

    /** ... and the write pointer moves behind it. */
    method Append(data: seq<byte>)
      requires Valid() && locked && |data| <= SpaceAvailable()
      modifies this`offset, this`accepted, buffer
      ensures Valid() && accepted == old(accepted) + data
      ensures offset == old(offset) + |data| && Unsent() == old(Unsent()) + data
    {
      Assoc(sent, Unsent(), data);
      Write(data);
      offset := offset + |data|;
      accepted := accepted + data;
    }

    method NotifyOverrun()
      requires Valid()
      modifies this`overrunNotified, this`overrunEvents
      ensures Valid() && overrunNotified && overrunEvents == 1
    {
      if !overrunNotified {
        overrunNotified := true;
        overrunEvents := overrunEvents + 1;
      }
    }

    /** binaryWritePtrResetToZero after an overrun: everything unsent is gone. */
    method DropAll()
      requires Valid() && locked && overrunNotified
      modifies this`offset, this`start, this`lost, this`overran
      ensures Valid() && overran && offset == 0 && start == 0 && lost == old(lost) + |old(Unsent())|
    {
      lost := lost + |Unsent()|;
      offset, start, overran := 0, 0, true;
    }

    /** The overrun check at the top of fork_frame's loop. */
    method MakeRoom() returns (dropped: bool)
      requires Valid() && locked
      modifies this`overrunNotified, this`overrunEvents, this`offset, this`start, this`lost, this`overran
      ensures Valid() && (dropped <==> old(SpaceAvailable()) < minFree)
      ensures !dropped ==> offset == old(offset) && start == old(start) && overran == old(overran)
      ensures dropped ==> overran && offset == 0
    {
      dropped := SpaceAvailable() < minFree;
      if dropped {
        NotifyOverrun();
        DropAll();
      }
    }

    /** The media bug fills at most the space that is left. */
    method TakeFrame(frame: seq<byte>) returns (data: seq<byte>)
      requires Valid() && locked
      modifies this`offset, this`accepted, buffer
      ensures Valid() && data <= frame && accepted == old(accepted) + data
      ensures |frame| <= old(SpaceAvailable()) ==> data == frame
      ensures offset == old(offset) + |data| && Unsent() == old(Unsent()) + data
    {
      data := if |frame| <= SpaceAvailable() then frame else frame[..SpaceAvailable()];
      if |data| > 0 {
        Append(data);
      }
    }

    /** What a call of fork_frame has done so far. */
    ghost predicate Since(accepted0: seq<byte>, unsent0: seq<byte>, taken: seq<byte>, dropped: bool)
      reads this, buffer
    {
      && Valid() && accepted == accepted0 + taken
      && (!dropped ==> Unsent() == unsent0 + taken)
    }

    /** One turn of the loop without a resampler. */
    method ReadOnce(frame: seq<byte>, ghost accepted0: seq<byte>, ghost unsent0: seq<byte>, ghost taken: seq<byte>,
      ghost dropped: bool)
        returns (data: seq<byte>, full: bool)
      requires locked && Since(accepted0, unsent0, taken, dropped)
      modifies this`offset, this`accepted, this`overrunNotified, this`overrunEvents, this`start, this`lost,
               this`overran, buffer
      ensures Since(accepted0, unsent0, taken + data, dropped || full)
      ensures data <= frame && (|frame| <= old(SpaceAvailable()) ==> data == frame)
      ensures full <==> old(offset) + |data| + minFree > buffer.Length
      ensures !full ==> offset == old(offset) + |data| && overran == old(overran)
      ensures full ==> overran && offset == 0
    {
      data := TakeFrame(frame);
      Grow(accepted0, unsent0, taken, data);
      full := MakeRoom();
    }

    /** fork_frame without a resampler. `frames` are the frames the media bug has
        to offer; it never returns more than the space it is given. */
    method ForkFrame(frames: seq<seq<byte>>) returns (ghost taken: seq<byte>, ghost dropped: bool)
      requires Valid() && !locked
      modifies this, buffer
      ensures Valid() && !locked && sent == old(sent)
      ensures accepted == old(accepted) + taken
      ensures overran <==> old(overran) || dropped
      ensures !dropped ==> Unsent() == old(Unsent()) + taken
      // frames of at most the minimum free space are taken whole, and nothing is
      // dropped exactly if room for one more such frame is left behind them
      ensures minFree <= buffer.Length && SmallFrames(frames) ==>
        taken == Flat(frames) && (dropped <==> old(offset) + |Flat(frames)| + minFree > buffer.Length)
    {
      Lock();
      taken, dropped := ReadFrames(frames);
      Unlock();
    }

    /** The loop of fork_frame without a resampler. */
    method ReadFrames(frames: seq<seq<byte>>) returns (ghost taken: seq<byte>, ghost dropped: bool)
      requires Valid() && locked
      modifies this`offset, this`accepted, this`overrunNotified, this`overrunEvents, this`start, this`lost,
               this`overran, buffer
      ensures Since(old(accepted), old(Unsent()), taken, dropped)
      ensures overran <==> old(overran) || dropped
      ensures minFree <= buffer.Length && SmallFrames(frames) ==>
        taken == Flat(frames) && (dropped <==> old(offset) + |Flat(frames)| + minFree > buffer.Length)
    {
      ghost var accepted0, unsent0 := accepted, Unsent();
      var i := 0;
      var full := MakeRoom();
      taken, dropped := [], full;
      assert frames[..0] == [];
      while i < |frames|
        invariant i <= |frames| && Since(accepted0, unsent0, taken, dropped)
        invariant overran <==> old(overran) || dropped
        invariant !dropped ==> offset == old(offset) + |taken|
        invariant minFree <= buffer.Length && SmallFrames(frames) ==> taken == Flat(frames[..i])
        invariant minFree <= buffer.Length && SmallFrames(frames) ==> minFree <= SpaceAvailable()
        invariant minFree <= buffer.Length && SmallFrames(frames) ==>
          (dropped <==> old(offset) + |taken| + minFree > buffer.Length)
      {
        FlatStep(frames, i);
        var data;
        data, full := ReadOnce(frames[i], accepted0, unsent0, taken, dropped);
        taken, dropped, i := taken + data, dropped || full, i + 1;
      }
      assert frames[..i] == frames;
    }

    predicate SmallFrames(frames: seq<seq<byte>>)
    {
      forall k :: 0 <= k < |frames| ==> |frames[k]| <= minFree
    }

    /** One turn of the loop with a resampler, which writes at most the number of
        two-byte samples that fit. */
    method ResampleOnce(out: seq<byte>, ghost accepted0: seq<byte>, ghost unsent0: seq<byte>, ghost taken: seq<byte>)
        returns (data: seq<byte>, full: bool)
      requires locked && |out| % 2 == 0 && Since(accepted0, unsent0, taken, false)
      modifies this`offset, this`accepted, this`overrunNotified, this`overrunEvents, buffer
      ensures Since(accepted0, unsent0, taken + data, false)
      ensures full <==> SpaceAvailable() < minFree
      ensures overrunNotified <==> old(overrunNotified) || full
      ensures data <= out && (SpaceAvailable() >= 2 ==> data == out)
    {
      var outLen := if |out| / 2 <= SpaceAvailable() / 2 then |out| / 2 else SpaceAvailable() / 2;
      data := TakeFrame(out[..outLen * 2]);
      Grow(accepted0, unsent0, taken, data);
      full := SpaceAvailable() < minFree;
      if full {
        NotifyOverrun();
      }
    }

    /** fork_frame with a resampler on one channel. `outs` is what the resampler
        would produce frame by frame with room enough. */
    method ForkFrameResampled(outs: seq<seq<byte>>) returns (ghost taken: seq<byte>)
      requires Valid() && !locked
      requires forall k :: 0 <= k < |outs| ==> |outs[k]| % 2 == 0
      modifies this, buffer
      ensures Valid() && !locked && sent == old(sent) && overran == old(overran)
      ensures accepted == old(accepted) + taken && Unsent() == old(Unsent()) + taken
      ensures overrunNotified <==> old(overrunNotified) || (outs != [] && SpaceAvailable() < minFree)
      // in order, with nothing left out in between, and whole if room is left
      ensures minFree >= 2 ==> taken <= Flat(outs)
      ensures minFree >= 2 && SpaceAvailable() >= minFree ==> taken == Flat(outs)
    {
      Lock();
      taken := ResampleFrames(outs);
      Unlock();
    }

    /** The loop of fork_frame with a resampler. */
    method ResampleFrames(outs: seq<seq<byte>>) returns (ghost taken: seq<byte>)
      requires Valid() && locked
      requires forall k :: 0 <= k < |outs| ==> |outs[k]| % 2 == 0
      modifies this`offset, this`accepted, this`overrunNotified, this`overrunEvents, buffer
      ensures Since(old(accepted), old(Unsent()), taken, false)
      ensures overrunNotified <==> old(overrunNotified) || (outs != [] && SpaceAvailable() < minFree)
      ensures minFree >= 2 ==> taken <= Flat(outs)
      ensures minFree >= 2 && SpaceAvailable() >= minFree ==> taken == Flat(outs)
    {
      ghost var accepted0, unsent0 := accepted, Unsent();
      var i := 0;
      taken := [];
      assert outs[..0] == [];
      while i < |outs|
        invariant i <= |outs| && Since(accepted0, unsent0, taken, false)
        invariant overrunNotified == old(overrunNotified)
        invariant i > 0 ==> minFree <= SpaceAvailable()
        invariant minFree >= 2 ==> taken == Flat(outs[..i])
      {
        var data, full := ResampleOnce(outs[i], accepted0, unsent0, taken);
        Extend(outs, i, minFree < 2, taken, data);
        taken, i := taken + data, i + 1;
        if full {
          break;
        }
      }
      assert outs[..|outs|] == outs;
    }

    /** The audio part of the WRITEABLE case. */
    method Drain() returns (written: seq<byte>)
      requires Valid() && !locked
      modifies this
      ensures Valid() && !locked && accepted == old(accepted) && sent == old(sent) + written
      ensures !old(overran) ==> written == old(Unsent()) && offset == pre && !overran
      ensures old(offset) > pre ==> written == old(buffer[pre..offset]) && offset == pre
      // after a reset the first bytes fall into the room kept for libwebsockets
      ensures old(start) == 0 && old(offset) > pre ==> lost == old(lost) + pre
      ensures old(offset) <= pre ==> written == [] && offset == old(offset) && lost == old(lost)
    {
      Lock();
      written := [];
      if offset > pre {
        written := buffer[pre..offset];
        sent := sent + written;
        lost := lost + (pre - start);
        offset, start := pre, pre;
        queued := false;
      }
      Unlock();
    }
  }
}
