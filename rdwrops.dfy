/*
 * The wire layer (rdwrops.cpp): typed values framed onto a pipe, over two
 * primitives, `tryRead`, which retries partial reads until it has all the
 * bytes asked for, and `tryWrite`, which makes one write and accepts only
 * a complete one.
 *
 * Each operation is a method on the pipe objects of module Pipe, proved
 * against a function that says what the operation does to the pipe as a
 * value: `Drain`/`Fetch` for reads, `Put`/`PutAll` for writes, and one
 * `...Reply` function per typed read.
 */
module Rdwr {
  import opened Bytes
  import opened Protocol
  import opened Pipe

  // ---------------------------------------------------------------- reading

  /** What a run of `read` calls took off a read end: how it ended, the bytes, the read end afterwards. */
  datatype Drained = Drained(status: Status, got: seq<byte>, rest: ReadView)

  function Prepend(prefix: seq<byte>, d: Drained): Drained
  {
    Drained(d.status, prefix + d.got, d.rest)
  }

  /**
   * The loop of `rdwr_tryRead(fd, buf, count)` on a valid descriptor, one
   * `read` per outcome of the script: a full read ends it, a read of 0
   * bytes or a failure other than EAGAIN throws, EAGAIN counts as 0 bytes
   * and a short read is kept and the rest asked for again.
   *
   * Whatever the reads deliver is the front of the stream, in order; the
   * call returns normally exactly when all `count` bytes arrived.
   */
  function Drain(v: ReadView, count: nat): (d: Drained)
    decreases |v.script|
    ensures |d.got| <= count
    ensures d.status.Done? ==> |d.got| == count
  {
    if v.script == [] then Drained(Stalled, [], v)
    else
      var rr := ReadCall(v, count);
      if rr.r == count then Drained(Done, v.pending[..count], rr.after)
      else if rr.r == 0 || (rr.r < 0 && !rr.again) then Drained(Threw(PluginClosed), [], rr.after)
      else
        var k := if rr.r < 0 then 0 else rr.r;
        Prepend(v.pending[..k], Drain(rr.after, count - k))
  }

  /** Whatever the reads deliver is the front of the stream, in order, and the rest stays for the next read. */
  lemma DrainTakesFront(v: ReadView, count: nat)
    ensures var d := Drain(v, count);
            && |d.got| <= |v.pending|
            && d.got == v.pending[..|d.got|] && d.rest.pending == v.pending[|d.got|..]
  {
    DrainSplits(v, count);
  }

  /** The loop splits the stream in two: the bytes it took, then the bytes it left. */
  lemma {:induction false} DrainSplits(v: ReadView, count: nat)
    decreases |v.script|
    ensures var d := Drain(v, count); v.pending == d.got + d.rest.pending
  {
    if v.script != [] {
      var rr := ReadCall(v, count);
      if rr.r == count {
        assert v.pending == v.pending[..count] + rr.after.pending;
      } else if !(rr.r == 0 || (rr.r < 0 && !rr.again)) {
        var k := if rr.r < 0 then 0 else rr.r;
        var tail := Drain(rr.after, count - k);
        assert Drain(v, count) == Prepend(v.pending[..k], tail);
        assert v.pending == v.pending[..k] + rr.after.pending;
        DrainSplits(rr.after, count - k);
        assert v.pending == (v.pending[..k] + tail.got) + tail.rest.pending;
      }
    }
  }

  /**
   * The loop returns normally exactly when all `count` bytes arrived;
   * otherwise it throws RemotePluginClosedException, or waits for good
   * once the peer stops answering.
   */
  lemma {:induction false} DrainOutcome(v: ReadView, count: nat)
    decreases |v.script|
    ensures var d := Drain(v, count);
            && (count > 0 && |d.got| == count ==> d.status.Done?)
            && (d.status == Done || d.status == Threw(PluginClosed) || (d.status == Stalled && d.rest.script == []))
  {
    if v.script != [] {
      var rr := ReadCall(v, count);
      if rr.r != count && !(rr.r == 0 || (rr.r < 0 && !rr.again)) {
        var k := if rr.r < 0 then 0 else rr.r;
        DrainOutcome(rr.after, count - k);
      }
    }
  }

  /** One turn of the `rdwr_tryRead` loop. */
  lemma DrainStep(v: ReadView, count: nat)
    requires v.script != []
    ensures var rr := ReadCall(v, count);
            var k := if rr.r < 0 then 0 else rr.r;
            && (rr.r == count ==> Drain(v, count) == Drained(Done, v.pending[..count], rr.after))
            && (rr.r != count && (rr.r == 0 || (rr.r < 0 && !rr.again)) ==> Drain(v, count) == Drained(Threw(PluginClosed), [], rr.after))
            && (rr.r != count && (rr.r > 0 || rr.again) ==> Drain(v, count) == Prepend(v.pending[..k], Drain(rr.after, count - k)))
  {
  }

  lemma PrependPrepend(a: seq<byte>, b: seq<byte>, d: Drained)
    ensures Prepend(a, Prepend(b, d)) == Prepend(a + b, d)
  {
  }

  /** `rdwr_tryRead` on descriptor `fd`: a negative descriptor fails its first `read` with EBADF. */
  function Fetch(fd: int, v: ReadView, count: nat): (d: Drained)
    ensures |d.got| <= count
    ensures d.status.Done? ==> |d.got| == count
    ensures d.status == Done || d.status == Threw(PluginClosed) || d.status == Stalled
    ensures v.pending == d.got + d.rest.pending
    ensures fd < 0 ==> d.status == Threw(PluginClosed) && d.got == [] && d.rest == v
  {
    if fd < 0 then Drained(Threw(PluginClosed), [], v)
    else
      DrainOutcome(v, count);
      DrainSplits(v, count);
      Drain(v, count)
  }

  /** `rdwr_tryRead(fd, buf + off, count)` */
  method TryRead(fd: int, ch: ReadChannel, buf: array<byte>, off: nat, count: nat) returns (st: Status)
    requires off + count <= buf.Length
    modifies ch, buf
    ensures var d := Fetch(fd, old(ch.View()), count);
            && st == d.status && ch.View() == d.rest
            && buf[..] == old(buf[..])[..off] + d.got + old(buf[..])[off + |d.got|..]
  {
    if fd < 0 {
      return Threw(PluginClosed);
    }
    st := ReadLoop(ch, buf, off, count);
  }

  /** The loop of `rdwr_tryRead` on a valid descriptor: `read` until all `count` bytes are in or the loop gives up. */
  method ReadLoop(ch: ReadChannel, buf: array<byte>, off: nat, count: nat) returns (st: Status)
    requires off + count <= buf.Length
    modifies ch, buf
    ensures var d := Drain(old(ch.View()), count);
            && st == d.status && ch.View() == d.rest
            && buf[..] == old(buf[..])[..off] + d.got + old(buf[..])[off + |d.got|..]
  {
    ghost var v0, b0 := ch.View(), buf[..];
    ghost var got: seq<byte> := [];
    var at: nat, left: nat := off, count;
    var reading := true;
    st := Stalled;
    while reading
      invariant at == off + |got| && at + left == off + count
      invariant buf[..] == b0[..off] + got + b0[at..]
      invariant reading ==> st == Stalled && Drain(v0, count) == Prepend(got, Drain(ch.View(), left))
      invariant !reading ==> Drain(v0, count) == Drained(st, got, ch.View())
      decreases |ch.script|, reading
    {
      if ch.script == [] {
        // no further outcome: the source would go on retrying
        DrainStalled(ch.View(), left);
        assert got + [] == got;
        reading := false;
      } else {
        var k; ghost var p;
        st, reading, k, p := ReadStep(ch, buf, b0, off, at, left, v0, count, got);
        got := got + p;
        at, left := at + k, left - k;
      }
    }
  }

  lemma DrainStalled(v: ReadView, count: nat)
    requires v.script == []
    ensures Drain(v, count) == Drained(Stalled, [], v)
  {
  }

  /**
   * One turn of the `rdwr_tryRead` loop: a `read` into the free part of
   * the buffer after the `got` bytes already read, then the loop's test
   * on its result. `reading` says whether the loop goes round again; the
   * ensures say what the turn did to the buffer, and how the whole loop's
   * outcome `Drain(v0, count)` stands after it.
   */
  method ReadStep(ch: ReadChannel, buf: array<byte>, ghost b0: seq<byte>, off: nat, at: nat, left: nat,
                  ghost v0: ReadView, ghost count: nat, ghost got: seq<byte>)
    returns (st: Status, reading: bool, k: nat, ghost p: seq<byte>)
    requires ch.script != [] && at == off + |got| && at + left <= buf.Length == |b0|
    requires buf[..] == b0[..off] + got + b0[at..]
    requires Drain(v0, count) == Prepend(got, Drain(ch.View(), left))
    modifies ch, buf
    ensures ch.script == old(ch.script)[1..]
    ensures k <= left && |p| == k
    ensures buf[..] == b0[..off] + (got + p) + b0[at + k..]
    ensures reading ==> st == Stalled && Drain(v0, count) == Prepend(got + p, Drain(ch.View(), left - k))
    ensures !reading ==> Drain(v0, count) == Drained(st, got + p, ch.View())
  {
    ghost var v := ch.View();
    var r, again := ch.Read(buf, at, left);
    k := if r < 0 then 0 else r;  // EAGAIN counts as a read of 0 bytes
    p := v.pending[..k];
    Splice(b0, off, at, got, p, k);
    StepAdvances(v0, count, got, v, left);
    if r == left {
      st, reading := Done, false;
    } else if r == 0 || (r < 0 && !again) {
      st, reading := Threw(PluginClosed), false;
    } else {
      st, reading := Stalled, true;
    }
  }

  /** How the whole loop's outcome stands after one more `read`, given how it stood before. */
  lemma StepAdvances(v0: ReadView, count: nat, got: seq<byte>, v: ReadView, left: nat)
    requires v.script != []
    requires Drain(v0, count) == Prepend(got, Drain(v, left))
    ensures var rr := ReadCall(v, left);
            var k := if rr.r < 0 then 0 else rr.r;
            && (rr.r == left ==> Drain(v0, count) == Drained(Done, got + v.pending[..k], rr.after))
            && (rr.r != left && (rr.r == 0 || (rr.r < 0 && !rr.again)) ==> Drain(v0, count) == Drained(Threw(PluginClosed), got + v.pending[..k], rr.after))
            && (rr.r != left && (rr.r > 0 || rr.again) ==> Drain(v0, count) == Prepend(got + v.pending[..k], Drain(rr.after, left - k)))
  {
    var rr := ReadCall(v, left);
    var k := if rr.r < 0 then 0 else rr.r;
    DrainStep(v, left);
    if rr.r != left && (rr.r == 0 || (rr.r < 0 && !rr.again)) {
      assert got + v.pending[..k] == got;
    } else if rr.r != left {
      PrependPrepend(got, v.pending[..k], Drain(rr.after, left - k));
    }
  }

  /** Bytes `p` read in at `at`, the end of the filled part `got` of a buffer that held `b`. */
  lemma Splice(b: seq<byte>, off: nat, at: nat, got: seq<byte>, p: seq<byte>, k: nat)
    requires at == off + |got| && k == |p| && at + k <= |b|
    ensures var cur := b[..off] + got + b[at..];
            cur[..at] + p + cur[at + k..] == b[..off] + (got + p) + b[at + k..]
  {
    var cur := b[..off] + got + b[at..];
    assert cur[..at] == b[..off] + got;
    assert cur[at + k..] == b[at + k..];
  }

  /** A typed value read off a pipe: how the read ended, the value, the read end afterwards. */
  datatype Reply<T> = Reply(status: Status, value: T, rest: ReadView)

  /** An int's four bytes at the front of a stream: the first four bytes decode to it, and the rest follows. */
  lemma IntFront(i: Int32, rest: seq<byte>)
    ensures |EncodeInt(i) + rest| >= IntSize
    ensures DecodeInt((EncodeInt(i) + rest)[..IntSize]) == i && (EncodeInt(i) + rest)[IntSize..] == rest
  {
    assert (EncodeInt(i) + rest)[..IntSize] == EncodeInt(i);
    DecodeEncodeInt(i);
  }

  /** `rdwr_readInt`: four bytes, decoded; a completed read took exactly the int's encoding off the stream. */
  function IntReply(fd: int, v: ReadView): (r: Reply<Int32>)
    ensures r.status == Done || r.status == Threw(PluginClosed) || r.status == Stalled
    ensures r.status.Done? ==> v.pending == EncodeInt(r.value) + r.rest.pending
  {
    var d := Fetch(fd, v, IntSize);
    if d.status.Done? then
      EncodeDecodeInt(d.got);
      Reply(Done, DecodeInt(d.got), d.rest)
    else Reply(d.status, 0, d.rest)
  }

  /** `rdwr_readFloat`: four bytes, kept as they are; a completed read took exactly the float's bytes off the stream. */
  function FloatReply(fd: int, v: ReadView): (r: Reply<Word>)
    ensures r.status == Done || r.status == Threw(PluginClosed) || r.status == Stalled
    ensures r.status.Done? ==> v.pending == WordBytes(r.value) + r.rest.pending
  {
    var d := Fetch(fd, v, IntSize);
    if d.status.Done? then
      WordRoundTrip(ZeroWord, d.got);
      Reply(Done, BytesWord(d.got), d.rest)
    else Reply(d.status, ZeroWord, d.rest)
  }

  /**
   * `rdwr_readString`: a length, then that many bytes, returned up to the
   * first NUL. A negative length, or one whose successor overflows `int`,
   * leaves the source's behaviour undefined.
   */
  function StringReply(fd: int, v: ReadView): (r: Reply<seq<byte>>)
    ensures r.status.Done? || r.status == Undefined ==> IntSize <= |v.pending|
    ensures r.status == Undefined ==> var n := DecodeInt(v.pending[..IntSize]); n < 0 || n == MaxInt
    ensures r.status.Done? ==>
              var n := DecodeInt(v.pending[..IntSize]);
              && 0 <= n < MaxInt && IntSize + n <= |v.pending|
              && r.value == CString(v.pending[IntSize..IntSize + n])
              && r.rest.pending == v.pending[IntSize + n..]
  {
    var h := IntReply(fd, v);
    if !h.status.Done? then Reply(h.status, [], h.rest)
    else
      IntFront(h.value, h.rest.pending);
      if h.value < 0 || h.value == MaxInt then Reply(Undefined, [], h.rest)
      else
        var d := Fetch(fd, h.rest, h.value);
        PieceAt(v.pending, IntSize, d.got, d.rest.pending);
        Reply(d.status, if d.status.Done? then CString(d.got) else [], d.rest)
  }

  /** A MIDI batch as `rdwr_readMIDIData` hands it back. */
  datatype MidiBatch = MidiBatch(events: int, data: seq<byte>, offsets: seq<Int32>)

  /**
   * `rdwr_readMIDIData` with static buffers for `capacity` events: the
   * event count, `events * 3` data bytes, then `events` frame offsets.
   * A count outside 0..capacity overruns the buffers.
   */
  function MidiReply(fd: int, v: ReadView, capacity: nat): (r: Reply<MidiBatch>)
    ensures r.status.Done? || r.status == Undefined ==> IntSize <= |v.pending| && r.value.events == DecodeInt(v.pending[..IntSize])
    ensures r.status == Undefined ==> r.value.events < 0 || r.value.events > capacity
    ensures r.status.Done? ==>
              && 0 <= r.value.events <= capacity
              && |r.value.data| == 3 * r.value.events && |r.value.offsets| == r.value.events
              && v.pending[IntSize..] == r.value.data + EncodeInts(r.value.offsets) + r.rest.pending
  {
    var h := IntReply(fd, v);
    if !h.status.Done? then Reply(h.status, MidiBatch(0, [], []), h.rest)
    else
      IntFront(h.value, h.rest.pending);
      if h.value < 0 || h.value > capacity then Reply(Undefined, MidiBatch(h.value, [], []), h.rest)
      else MidiPayload(fd, h.rest, h.value)
  }

  /** The data bytes and frame offsets of a batch of `events` events, taken off the stream in that order. */
  function MidiPayload(fd: int, v: ReadView, events: nat): (r: Reply<MidiBatch>)
    ensures r.status == Done || r.status == Threw(PluginClosed) || r.status == Stalled
    ensures r.value.events == events
    ensures r.status.Done? ==>
              && |r.value.data| == 3 * events && |r.value.offsets| == events
              && v.pending == r.value.data + EncodeInts(r.value.offsets) + r.rest.pending
  {
    var d1 := Fetch(fd, v, 3 * events);
    if !d1.status.Done? then Reply(d1.status, MidiBatch(events, [], []), d1.rest)
    else
      var d2 := Fetch(fd, d1.rest, IntSize * events);
      if !d2.status.Done? then Reply(d2.status, MidiBatch(events, [], []), d2.rest)
      else
        EncodeDecodeInts(d2.got);
        assert v.pending == d1.got + d2.got + d2.rest.pending by {
          assert v.pending == d1.got + (d2.got + d2.rest.pending);
        }
        Reply(Done, MidiBatch(events, d1.got, DecodeInts(d2.got)), d2.rest)
  }

  /** zlib's `uncompress(dest, &destlen, source, sourcelen)` with `destlen` set to the capacity: the bytes it produced, or None for a result other than Z_OK. */
  type Inflate = (seq<byte>, nat) -> Option<seq<byte>>

  /** zlib's `compress2(dest, &destlen, source, sourcelen, 9)`: the compressed bytes, or None for a result other than Z_OK. */
  type Deflate = seq<byte> -> Option<seq<byte>>

  /**
   * `rdwr_readRaw`: the compressed length, the original length, the
   * compressed bytes, then whatever the decompressor produces. A negative
   * compressed length makes the payload read undefined; a negative
   * original length makes the array `new` after it throw.
   */
  function RawReply(fd: int, v: ReadView, inflate: Inflate): (r: Reply<seq<byte>>)
    ensures r.status == Done || r.status == Threw(PluginClosed) || r.status == Stalled || r.status == Undefined || r.status == Threw(BadAlloc)
    ensures r.status.Done? || r.status == Undefined || r.status == Threw(BadAlloc) ==> 2 * IntSize <= |v.pending|
    ensures r.status == Undefined ==> DecodeInt(v.pending[..IntSize]) < 0
    ensures r.status == Threw(BadAlloc) ==>
              var c := DecodeInt(v.pending[..IntSize]);
              0 <= c && 2 * IntSize + c <= |v.pending| && DecodeInt(v.pending[IntSize..2 * IntSize]) < 0
    ensures r.status.Done? ==>
              var c := DecodeInt(v.pending[..IntSize]);
              var n := DecodeInt(v.pending[IntSize..2 * IntSize]);
              && 0 <= c && 0 <= n && 2 * IntSize + c <= |v.pending|
              && inflate(v.pending[2 * IntSize..2 * IntSize + c], n) == Some(r.value)
              && r.rest.pending == v.pending[2 * IntSize + c..]
  {
    var h1 := IntReply(fd, v);
    if !h1.status.Done? then Reply(h1.status, [], h1.rest)
    else
      var h2 := IntReply(fd, h1.rest);
      if !h2.status.Done? then Reply(h2.status, [], h2.rest)
      else
        RawHeader(v, h1.value, h1.rest.pending, h2.value, h2.rest.pending);
        if h1.value < 0 then Reply(Undefined, [], h2.rest)
        else
          var d := Fetch(fd, h2.rest, h1.value);
          if !d.status.Done? then Reply(d.status, [], d.rest)
          else
            PieceAt(v.pending, 2 * IntSize, d.got, d.rest.pending);
            if h2.value < 0 then Reply(Threw(BadAlloc), [], d.rest)
            else match inflate(d.got, h2.value)
              case None => Reply(Threw(PluginClosed), [], d.rest)
              case Some(out) => Reply(Done, out, d.rest)
  }

  /** A piece that follows position `k` of a stream lies at `k`, and what follows it is the rest. */
  lemma PieceAt(whole: seq<byte>, k: nat, piece: seq<byte>, rest: seq<byte>)
    requires k <= |whole| && whole[k..] == piece + rest
    ensures k + |piece| <= |whole|
    ensures whole[k..k + |piece|] == piece && whole[k + |piece|..] == rest
  {
    assert whole[k..k + |piece|] == whole[k..][..|piece|];
    assert whole[k + |piece|..] == whole[k..][|piece|..];
  }

  /** The two length fields at the front of a `rdwr_writeRaw` frame, and what follows them. */
  lemma RawHeader(v: ReadView, c: Int32, afterC: seq<byte>, n: Int32, afterN: seq<byte>)
    requires v.pending == EncodeInt(c) + afterC && afterC == EncodeInt(n) + afterN
    ensures 2 * IntSize <= |v.pending|
    ensures DecodeInt(v.pending[..IntSize]) == c && DecodeInt(v.pending[IntSize..2 * IntSize]) == n
    ensures v.pending[2 * IntSize..] == afterN
  {
    IntFront(c, afterC);
    IntFront(n, afterN);
    assert v.pending[IntSize..2 * IntSize] == afterC[..IntSize];
    assert v.pending[2 * IntSize..] == afterC[IntSize..];
  }

  // ---------------------------------------------------------------- writing

  /** What a run of `write` calls did: how it ended and the write end afterwards. */
  datatype Posted = Posted(status: Status, after: WriteView)

  /**
   * `rdwr_tryWrite(fd, src, |src|)`: one `write`; a negative or short
   * result throws (the bytes a short write did take stay in the pipe).
   */
  function Put(fd: int, v: WriteView, src: seq<byte>): (p: Posted)
    ensures fd >= 0 && v.script != [] ==>
              p.after == WriteCall(v, src).after && (p.status.Done? <==> WriteCall(v, src).w == |src|)
    ensures fd < 0 ==> p.status == Threw(PluginClosed)
    ensures fd < 0 || v.script == [] ==> p.after == v
    ensures |v.sent| <= |p.after.sent| <= |v.sent| + |src|
    ensures p.after.sent == v.sent + src[..|p.after.sent| - |v.sent|]
    ensures p.status.Done? ==> p.after.sent == v.sent + src
    ensures |src| > 0 && p.after.sent == v.sent + src ==> p.status.Done?
    ensures p.status == Done || p.status == Threw(PluginClosed) || (p.status == Stalled && v.script == [])
  {
    if fd < 0 then Posted(Threw(PluginClosed), v)
    else if v.script == [] then Posted(Stalled, v)
    else
      var wr := WriteCall(v, src);
      Posted(if wr.w == |src| then Done else Threw(PluginClosed), wr.after)
  }

  function Flatten(pieces: seq<seq<byte>>): seq<byte>
  {
    if pieces == [] then [] else pieces[0] + Flatten(pieces[1..])
  }

  /** The bytes of a frame written piece by piece. */
  lemma FlattenThree(a: seq<byte>, b: seq<byte>, c: seq<byte>)
    ensures Flatten([a, b]) == a + b
    ensures Flatten([a, b, c]) == a + b + c
  {
    assert [b][1..] == [] && [c][1..] == [];
    assert Flatten([b]) == b + [] == b;
    assert Flatten([c]) == c + [] == c;
    assert [a, b][1..] == [b] && [b, c][1..] == [c];
    assert Flatten([a, b]) == a + Flatten([b]);
    assert Flatten([b, c]) == b + Flatten([c]);
    assert [a, b, c][1..] == [b, c];
    assert Flatten([a, b, c]) == a + Flatten([b, c]);
  }

  /** Where each of three consecutive pieces lies in their concatenation. */
  lemma ThreeSlices(a: seq<byte>, b: seq<byte>, c: seq<byte>)
    ensures var f := a + b + c;
            && f[..|a|] == a && f[|a|..|a| + |b|] == b && f[|a| + |b|..] == c
            && f[|a|..] == b + c
  {
  }

  /**
   * Successive `rdwr_tryWrite` calls on one descriptor, stopping at the
   * first that throws: the pipe holds the whole frame, or the call threw
   * and the pipe holds a proper prefix of it.
   */
  function PutAll(fd: int, v: WriteView, pieces: seq<seq<byte>>): (p: Posted)
    decreases |pieces|
    ensures |v.sent| <= |p.after.sent| <= |v.sent| + |Flatten(pieces)|
    ensures p.after.sent == v.sent + Flatten(pieces)[..|p.after.sent| - |v.sent|]
    ensures p.status.Done? ==> p.after.sent == v.sent + Flatten(pieces)
    ensures p.status == Done || p.status == Threw(PluginClosed) || p.status == Stalled
  {
    if pieces == [] then Posted(Done, v)
    else
      var p := Put(fd, v, pieces[0]);
      if p.status.Done? then
        var q := PutAll(fd, p.after, pieces[1..]);
        assert Flatten(pieces) == pieces[0] + Flatten(pieces[1..]);
        assert q.after.sent == v.sent + (pieces[0] + Flatten(pieces[1..])[..|q.after.sent| - |p.after.sent|]);
        q
      else p
  }

  /** A frame is written piece by piece: the first piece, then the rest if the first went through. */
  lemma PutAllCons(fd: int, v: WriteView, x: seq<byte>, rest: seq<seq<byte>>)
    ensures PutAll(fd, v, [x] + rest) == (var p := Put(fd, v, x); if p.status.Done? then PutAll(fd, p.after, rest) else p)
  {
    assert ([x] + rest)[0] == x && ([x] + rest)[1..] == rest;
  }

  /** `rdwr_tryWrite` */
  method TryWrite(fd: int, ch: WriteChannel, src: seq<byte>) returns (st: Status)
    modifies ch
    ensures Posted(st, ch.View()) == Put(fd, old(ch.View()), src)
  {
    if fd < 0 {
      return Threw(PluginClosed);
    }
    if ch.script == [] {
      return Stalled;
    }
    var w := ch.Write(src);
    if w < 0 {
      return Threw(PluginClosed);
    }
    if w < |src| {
      return Threw(PluginClosed);
    }
    return Done;
  }

  /** `rdwr_writeOpcode` */
  method WriteOpcode(fd: int, ch: WriteChannel, op: Opcode) returns (st: Status)
    modifies ch
    ensures Posted(st, ch.View()) == Put(fd, old(ch.View()), OpcodeBytes(op))
  {
    st := TryWrite(fd, ch, OpcodeBytes(op));
  }

  /** `rdwr_writeInt` */
  method WriteInt(fd: int, ch: WriteChannel, i: Int32) returns (st: Status)
    modifies ch
    ensures Posted(st, ch.View()) == Put(fd, old(ch.View()), EncodeInt(i))
  {
    st := TryWrite(fd, ch, EncodeInt(i));
  }

  /** `rdwr_writeFloat` */
  method WriteFloat(fd: int, ch: WriteChannel, f: Word) returns (st: Status)
    modifies ch
    ensures Posted(st, ch.View()) == Put(fd, old(ch.View()), WordBytes(f))
  {
    st := TryWrite(fd, ch, WordBytes(f));
  }

  /**
   * The two writes of `rdwr_writeString`: the length, then the bytes, no
   * terminator. A reader finds the length in the first four bytes and the
   * payload after them.
   */
  function StringPieces(s: seq<byte>): (pieces: seq<seq<byte>>)
    requires |s| <= MaxInt
    ensures var f := Flatten(pieces);
            |f| == IntSize + |s| && DecodeInt(f[..IntSize]) == |s| && f[IntSize..] == s
  {
    FlattenThree(EncodeInt(|s|), s, []);
    IntFront(|s|, s);
    [EncodeInt(|s|), s]
  }

  /** `rdwr_writeString` */
  method WriteString(fd: int, ch: WriteChannel, s: seq<byte>) returns (st: Status)
    requires |s| <= MaxInt
    modifies ch
    ensures Posted(st, ch.View()) == PutAll(fd, old(ch.View()), StringPieces(s))
  {
    PutAllCons(fd, ch.View(), EncodeInt(|s|), [s]);
    st := TryWrite(fd, ch, EncodeInt(|s|));
    if !st.Done? {
      return;
    }
    PutAllCons(fd, ch.View(), s, []);
    st := TryWrite(fd, ch, s);
  }

  /**
   * The frame `RemotePluginClient::sendMIDIData` writes after its opcode
   * and `rdwr_readMIDIData` reads: the event count, three bytes per event,
   * one frame offset per event.
   */
  function MidiPieces(events: Int32, data: seq<byte>, offsets: seq<Int32>): (pieces: seq<seq<byte>>)
    ensures var f := Flatten(pieces);
            && |f| == IntSize + |data| + IntSize * |offsets|
            && DecodeInt(f[..IntSize]) == events
            && f[IntSize..IntSize + |data|] == data
            && DecodeInts(f[IntSize + |data|..]) == offsets
  {
    FlattenThree(EncodeInt(events), data, EncodeInts(offsets));
    ThreeSlices(EncodeInt(events), data, EncodeInts(offsets));
    DecodeEncodeInt(events);
    DecodeEncodeInts(offsets);
    [EncodeInt(events), data, EncodeInts(offsets)]
  }

  /**
   * The three writes of `rdwr_writeRaw` for compressed bytes `c` of an
   * `n`-byte chunk: the compressed length, the raw length, the compressed
   * bytes.
   */
  function RawPieces(c: seq<byte>, n: Int32): (pieces: seq<seq<byte>>)
    requires |c| <= MaxInt
    ensures var f := Flatten(pieces);
            && |f| == 2 * IntSize + |c|
            && DecodeInt(f[..IntSize]) == |c| && DecodeInt(f[IntSize..2 * IntSize]) == n
            && f[2 * IntSize..] == c
  {
    FlattenThree(EncodeInt(|c|), EncodeInt(n), c);
    RawHeader(ReadView(EncodeInt(|c|) + EncodeInt(n) + c, []), |c|, EncodeInt(n) + c, n, c);
    [EncodeInt(|c|), EncodeInt(n), c]
  }

  /** `rdwr_writeRaw`: compress, then frame; a compressor failure throws before anything is written. */
  method WriteRaw(fd: int, ch: WriteChannel, data: seq<byte>, deflate: Deflate) returns (st: Status)
    requires |data| <= MaxInt
    requires deflate(data).Some? ==> |deflate(data).value| <= MaxInt
    modifies ch
    ensures deflate(data).None? ==> st == Threw(PluginClosed) && ch.View() == old(ch.View())
    ensures deflate(data).Some? ==> Posted(st, ch.View()) == PutAll(fd, old(ch.View()), RawPieces(deflate(data).value, |data|))
  {
    var compressed := deflate(data);
    if compressed.None? {
      return Threw(PluginClosed);
    }
    var c := compressed.value;
    PutAllCons(fd, ch.View(), EncodeInt(|c|), [EncodeInt(|data|), c]);
    st := TryWrite(fd, ch, EncodeInt(|c|));
    if !st.Done? {
      return;
    }
    PutAllCons(fd, ch.View(), EncodeInt(|data|), [c]);
    st := TryWrite(fd, ch, EncodeInt(|data|));
    if !st.Done? {
      return;
    }
    PutAllCons(fd, ch.View(), c, []);
    st := TryWrite(fd, ch, c);
  }

  // ---------------------------------------------------------------- typed reads

  /** A static receive buffer that `rdwr_readString` or `rdwr_readRaw` reallocates when too small; its length is `bufLen`. */
  class Scratch {
    var buf: array<byte>

    constructor ()
      ensures buf.Length == 0
    {
      buf := new byte[0];
    }
  }

  /** `rdwr_readInt` */
  method ReadInt(fd: int, ch: ReadChannel) returns (st: Status, i: Int32)
    modifies ch
    ensures var r := IntReply(fd, old(ch.View()));
            st == r.status && ch.View() == r.rest && i == r.value
  {
    var b := new byte[IntSize];
    st := TryRead(fd, ch, b, 0, IntSize);
    i := if st.Done? then DecodeInt(b[..]) else 0;
  }

  /** `rdwr_readFloat` */
  method ReadFloat(fd: int, ch: ReadChannel) returns (st: Status, f: Word)
    modifies ch
    ensures var r := FloatReply(fd, old(ch.View()));
            st == r.status && ch.View() == r.rest && f == r.value
  {
    var b := new byte[IntSize];
    st := TryRead(fd, ch, b, 0, IntSize);
    f := if st.Done? then BytesWord(b[..]) else ZeroWord;
  }

  /** `rdwr_readString`, with its receive buffer, which it enlarges to `len + 1` bytes when too small */
  method ReadString(fd: int, ch: ReadChannel, scratch: Scratch) returns (st: Status, s: seq<byte>)
    modifies ch, scratch, scratch.buf
    ensures var r := StringReply(fd, old(ch.View()));
            st == r.status && ch.View() == r.rest && (st.Done? ==> s == r.value)
    ensures var h := IntReply(fd, old(ch.View()));
            if h.status.Done? && 0 <= h.value < MaxInt && h.value + 1 > old(scratch.buf.Length) then
              fresh(scratch.buf) && scratch.buf.Length == h.value + 1
            else scratch.buf == old(scratch.buf)
    ensures var h := IntReply(fd, old(ch.View()));
            h.status.Done? && 0 <= h.value < MaxInt ==> scratch.buf.Length >= h.value + 1
  {
    var len;
    st, len := ReadInt(fd, ch);
    if !st.Done? {
      return st, [];
    }
    if len < 0 || len == MaxInt {
      return Undefined, [];
    }
    if len + 1 > scratch.buf.Length {
      scratch.buf := new byte[len + 1];
    }
    var buf := scratch.buf;
    ghost var v := ch.View();
    st := TryRead(fd, ch, buf, 0, len);
    if !st.Done? {
      return st, [];
    }
    ghost var got := Fetch(fd, v, len).got;
    assert buf[..len] == got;
    buf[len] := 0;
    assert buf[..len + 1] == got + [0];
    CStringTerminated(got);
    s := CString(buf[..len + 1]);
  }

  /**
   * `rdwr_readMIDIData` over its static buffers `dataBuf` (3 bytes per
   * event) and `offBuf` (one int per event); `wantOffsets` says whether
   * the caller passed a non-null `frameoffsets`, which alone is assigned.
   */
  method ReadMIDIData(fd: int, ch: ReadChannel, dataBuf: array<byte>, offBuf: array<byte>, capacity: nat, wantOffsets: bool)
    returns (st: Status, events: int, data: seq<byte>, offsets: Option<seq<Int32>>)
    requires dataBuf.Length == 3 * capacity && offBuf.Length == IntSize * capacity && dataBuf != offBuf
    modifies ch, dataBuf, offBuf
    ensures var r := MidiReply(fd, old(ch.View()), capacity);
            && st == r.status && ch.View() == r.rest
            && (st.Done? ==> events == r.value.events && data == r.value.data)
            && offsets == (if st.Done? && wantOffsets then Some(r.value.offsets) else None)
  {
    offsets := None;
    data := [];
    st, events := ReadInt(fd, ch);
    if !st.Done? {
      return;
    }
    if events < 0 || events > capacity {
      return Undefined, events, data, offsets;
    }
    st, data, offsets := ReadMIDIPayload(fd, ch, dataBuf, offBuf, events, wantOffsets);
  }

  /** The second half of `rdwr_readMIDIData`, once the event count is known to fit the buffers. */
  method ReadMIDIPayload(fd: int, ch: ReadChannel, dataBuf: array<byte>, offBuf: array<byte>, events: nat, wantOffsets: bool)
    returns (st: Status, data: seq<byte>, offsets: Option<seq<Int32>>)
    requires 3 * events <= dataBuf.Length && IntSize * events <= offBuf.Length && dataBuf != offBuf
    modifies ch, dataBuf, offBuf
    ensures var r := MidiPayload(fd, old(ch.View()), events);
            && st == r.status && ch.View() == r.rest
            && (st.Done? ==> data == r.value.data)
            && (st.Done? ==> dataBuf[..3 * events] == r.value.data && offBuf[..IntSize * events] == EncodeInts(r.value.offsets))
            && offsets == (if st.Done? && wantOffsets then Some(r.value.offsets) else None)
  {
    offsets := None;
    data := [];
    ghost var v1 := ch.View();
    st := TryRead(fd, ch, dataBuf, 0, 3 * events);
    if !st.Done? {
      return;
    }
    ghost var d1 := Fetch(fd, v1, 3 * events);
    assert dataBuf[..3 * events] == d1.got;
    ghost var v2 := ch.View();
    st := TryRead(fd, ch, offBuf, 0, IntSize * events);
    if !st.Done? {
      return;
    }
    ghost var d2 := Fetch(fd, v2, IntSize * events);
    assert offBuf[..IntSize * events] == d2.got;
    EncodeDecodeInts(d2.got);
    data := dataBuf[..3 * events];
    if wantOffsets {
      offsets := Some(DecodeInts(offBuf[..IntSize * events]));
    }
  }

  /** `rdwr_readRaw`, with its receive buffer, which it enlarges to `complen` bytes when too small */
  method ReadRaw(fd: int, ch: ReadChannel, scratch: Scratch, inflate: Inflate) returns (st: Status, out: seq<byte>)
    modifies ch, scratch, scratch.buf
    ensures var r := RawReply(fd, old(ch.View()), inflate);
            st == r.status && ch.View() == r.rest && (st.Done? ==> out == r.value)
    ensures var h1 := IntReply(fd, old(ch.View()));
            var h2 := IntReply(fd, h1.rest);
            if h1.status.Done? && h2.status.Done? && h1.value > old(scratch.buf.Length) then
              fresh(scratch.buf) && scratch.buf.Length == h1.value
            else scratch.buf == old(scratch.buf)
  {
    var complen, len;
    st, complen := ReadInt(fd, ch);
    if !st.Done? {
      return st, [];
    }
    st, len := ReadInt(fd, ch);
    if !st.Done? {
      return st, [];
    }
    if complen > scratch.buf.Length {
      scratch.buf := new byte[complen];
    }
    if complen < 0 {
      return Undefined, [];
    }
    var buf := scratch.buf;
    ghost var v := ch.View();
    st := TryRead(fd, ch, buf, 0, complen);
    if !st.Done? {
      return st, [];
    }
    if len < 0 {
      return Threw(BadAlloc), [];
    }
    assert buf[..complen] == Fetch(fd, v, complen).got;
    var produced := inflate(buf[..complen], len);
    if produced.None? {
      return Threw(PluginClosed), [];
    }
    out := CopyOut(produced.value);
  }

  /** The `push_back` loop that hands the decompressed bytes back as a vector. */
  method CopyOut(src: seq<byte>) returns (out: seq<byte>)
    ensures out == src
  {
    out := [];
    var i := 0;
    while i < |src|
      invariant 0 <= i <= |src| && out == src[..i]
    {
      out := out + [src[i]];
      i := i + 1;
    }
  }
}
