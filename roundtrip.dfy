/*
 * What one side of a pipe writes, the other side reads back: each
 * `rdwr_write...` frame against the `rdwr_read...` that consumes it, and
 * the progress `rdwr_tryRead` makes when the reads keep delivering.
 *
 * A read end holds `frame + rest`: the frame one writer put on the pipe,
 * followed by whatever comes after it. Whatever the read outcomes, a read
 * that returns normally yields the value written and leaves exactly `rest`.
 */
module RoundTrip {
  import opened Bytes
  import opened Protocol
  import opened Pipe
  import opened Rdwr

  // ---------------------------------------------------------------- tryRead

  /** `rdwr_tryRead` on any descriptor takes its bytes off the front of the stream; only a valid descriptor can return normally. */
  lemma FetchTakesFront(fd: int, v: ReadView, count: nat)
    ensures var d := Fetch(fd, v, count);
            && |d.got| <= |v.pending|
            && d.got == v.pending[..|d.got|] && d.rest.pending == v.pending[|d.got|..]
            && (d.status.Done? ==> fd >= 0)
  {
    if fd >= 0 {
      DrainTakesFront(v, count);
    }
  }

  /** A `read` that fails with EAGAIN changes nothing: the loop asks again for the same bytes. */
  lemma WouldBlockIsRetried(v: ReadView, count: nat)
    ensures Drain(ReadView(v.pending, [WouldBlock] + v.script), count) == Drain(v, count)
  {
    var w := ReadView(v.pending, [WouldBlock] + v.script);
    assert w.script[1..] == v.script;
    assert v.pending[..0] == [];
    var d := Drain(v, count);
    assert Prepend([], d) == d;
  }

  /** The number of outcomes in a script that hand over data. */
  function Deliveries(script: seq<ReadOutcome>): (n: nat)
    ensures n <= |script|
  {
    if script == [] then 0
    else (if script[0].Deliver? then 1 else 0) + Deliveries(script[1..])
  }

  /**
   * A script in which every `read` either hands over at least one byte of
   * what is there or fails with EAGAIN: no end of file, no other error.
   */
  predicate Steady(script: seq<ReadOutcome>)
  {
    forall k :: 0 <= k < |script| ==> (script[k].Deliver? && script[k].limit > 0) || script[k] == WouldBlock
  }

  /**
   * Partial reads accumulate: when the peer has written at least `count`
   * bytes and the reads deliver at least one byte `count` times, with
   * nothing but EAGAIN in between, `rdwr_tryRead` returns normally with
   * exactly the first `count` bytes, however the reads split them.
   */
  lemma SteadyDrainCompletes(v: ReadView, count: nat)
    requires 0 < count <= |v.pending|
    requires Steady(v.script) && Deliveries(v.script) >= count
    ensures Drain(v, count).status == Done
    ensures Drain(v, count).got == v.pending[..count]
    ensures Drain(v, count).rest.pending == v.pending[count..]
  {
    SteadyDrainDone(v, count);
    DrainTakesFront(v, count);
  }

  /** The loop of `SteadyDrainCompletes` returns normally. */
  lemma {:induction false} SteadyDrainDone(v: ReadView, count: nat)
    requires 0 < count <= |v.pending|
    requires Steady(v.script) && Deliveries(v.script) >= count
    decreases |v.script|
    ensures Drain(v, count).status == Done
  {
    assert v.script != [];
    var rr := ReadCall(v, count);
    var rest := v.script[1..];
    SteadyTail(v.script);
    if rr.r != count {
      var k := if rr.r < 0 then 0 else rr.r;
      if v.script[0].Deliver? {
        assert 0 < k < count && Deliveries(rest) == Deliveries(v.script) - 1;
      } else {
        assert k == 0 && rr.again && Deliveries(rest) == Deliveries(v.script);
      }
      assert Drain(v, count).status == Drain(rr.after, count - k).status;
      SteadyDrainDone(rr.after, count - k);
    }
  }

  /** What follows the first outcome of a steady script is steady too. */
  lemma SteadyTail(script: seq<ReadOutcome>)
    requires script != [] && Steady(script)
    ensures Steady(script[1..])
    ensures (script[0].Deliver? && script[0].limit > 0) || script[0] == WouldBlock
  {
    var rest := script[1..];
    forall k | 0 <= k < |rest| ensures (rest[k].Deliver? && rest[k].limit > 0) || rest[k] == WouldBlock {
      assert rest[k] == script[k + 1];
    }
  }

  /** A request for no bytes takes nothing off the pipe; a first read that hands over data or reports end of file ends it at once. */
  lemma DrainZero(v: ReadView)
    ensures Drain(v, 0).got == [] && Drain(v, 0).rest.pending == v.pending
    ensures v.script != [] && (v.script[0].Deliver? || v.script[0] == EndOfFile) ==>
              Drain(v, 0) == Drained(Done, [], ReadView(v.pending, v.script[1..]))
  {
    DrainTakesFront(v, 0);
    var d := Drain(v, 0);
    assert |d.got| == 0;
    assert d.rest.pending == v.pending[0..] == v.pending;
    if v.script != [] && (v.script[0].Deliver? || v.script[0] == EndOfFile) {
      var rr := ReadCall(v, 0);
      assert rr.r == 0;
      assert rr.after == ReadView(v.pending, v.script[1..]);
      assert d == Drained(Done, v.pending[..0], rr.after);
      assert v.pending[..0] == [];
    }
  }

  // ---------------------------------------------------------------- typed values

  /** A read of `|x|` bytes off a stream that starts with `x` returns `x`, when it returns normally, and leaves what follows. */
  lemma FetchFrame(fd: int, v: ReadView, x: seq<byte>, rest: seq<byte>)
    requires v.pending == x + rest
    ensures var d := Fetch(fd, v, |x|);
            d.status.Done? ==> d.got == x && d.rest.pending == rest
  {
    FetchTakesFront(fd, v, |x|);
    assert v.pending[..|x|] == x && v.pending[|x|..] == rest;
  }

  /** `rdwr_readInt` reads back what `rdwr_writeInt` wrote. */
  lemma IntRoundTrip(fd: int, i: Int32, rest: seq<byte>, script: seq<ReadOutcome>)
    ensures var r := IntReply(fd, ReadView(EncodeInt(i) + rest, script));
            r.status.Done? ==> r.value == i && r.rest.pending == rest
  {
    var v := ReadView(EncodeInt(i) + rest, script);
    FetchTakesFront(fd, v, IntSize);
    if Fetch(fd, v, IntSize).status.Done? {
      assert v.pending[..IntSize] == EncodeInt(i);
      DecodeEncodeInt(i);
    }
  }

  /** `rdwr_readFloat` reads back, bit for bit, what `rdwr_writeFloat` wrote. */
  lemma FloatRoundTrip(fd: int, f: Word, rest: seq<byte>, script: seq<ReadOutcome>)
    ensures var r := FloatReply(fd, ReadView(WordBytes(f) + rest, script));
            r.status.Done? ==> r.value == f && r.rest.pending == rest
  {
    var v := ReadView(WordBytes(f) + rest, script);
    FetchTakesFront(fd, v, IntSize);
    if Fetch(fd, v, IntSize).status.Done? {
      assert v.pending[..IntSize] == WordBytes(f);
    }
  }

  /**
   * The block of floats `RemotePluginClient::getParameters` reads straight
   * into the caller's array: when the read returns normally, the array
   * holds, sample for sample, the values the server wrote.
   */
  lemma ParametersRoundTrip(fd: int, values: seq<Word>, rest: seq<byte>, script: seq<ReadOutcome>)
    ensures var d := Fetch(fd, ReadView(EncodeWords(values) + rest, script), IntSize * |values|);
            d.status.Done? ==> DecodeWords(d.got) == values && d.rest.pending == rest
  {
    FetchFrame(fd, ReadView(EncodeWords(values) + rest, script), EncodeWords(values), rest);
    DecodeEncodeWords(values);
  }

  /**
   * `rdwr_readString` reads back the length `rdwr_writeString` wrote and
   * exactly that many bytes, and returns them cut at the first NUL: the
   * string comes back unchanged exactly when it holds no NUL byte.
   */
  lemma StringRoundTrip(fd: int, s: seq<byte>, rest: seq<byte>, script: seq<ReadOutcome>)
    requires |s| < MaxInt
    ensures var r := StringReply(fd, ReadView(Flatten(StringPieces(s)) + rest, script));
            r.status.Done? ==> r.value == CString(s) && (r.value == s <==> 0 !in s) && r.rest.pending == rest
  {
    StringFrameRead(fd, s, rest, script);
    CStringKeepsAll(s);
  }

  /** The bytes `rdwr_writeString` puts on the wire: the length, then the payload, then whatever follows. */
  lemma StringFrameBytes(s: seq<byte>, rest: seq<byte>)
    requires |s| < MaxInt
    ensures Flatten(StringPieces(s)) + rest == EncodeInt(|s|) + (s + rest)
  {
    FlattenThree(EncodeInt(|s|), s, []);
  }

  /** The payload `rdwr_readString` reads is the one `rdwr_writeString` wrote. */
  lemma StringFrameRead(fd: int, s: seq<byte>, rest: seq<byte>, script: seq<ReadOutcome>)
    requires |s| < MaxInt
    ensures var r := StringReply(fd, ReadView(Flatten(StringPieces(s)) + rest, script));
            r.status.Done? ==> r.value == CString(s) && r.rest.pending == rest
  {
    StringFrameBytes(s, rest);
    IntFront(|s|, s + rest);
    PieceAt(EncodeInt(|s|) + (s + rest), IntSize, s, rest);
  }

  /** `rdwr_readMIDIData` reads back the batch `RemotePluginClient::sendMIDIData` wrote after its opcode. */
  lemma MidiRoundTrip(fd: int, data: seq<byte>, offsets: seq<Int32>, capacity: nat, rest: seq<byte>, script: seq<ReadOutcome>)
    requires |offsets| <= capacity && |offsets| <= MaxInt && |data| == 3 * |offsets|
    ensures var r := MidiReply(fd, ReadView(Flatten(MidiPieces(|offsets|, data, offsets)) + rest, script), capacity);
            r.status.Done? ==> r.value == MidiBatch(|offsets|, data, offsets) && r.rest.pending == rest
  {
    var events := |offsets|;
    var v := ReadView(Flatten(MidiPieces(events, data, offsets)) + rest, script);
    MidiFrameBytes(data, offsets, rest);
    var r := MidiReply(fd, v, capacity);
    if r.status.Done? {
      SplitThree(r.value.data, EncodeInts(r.value.offsets), r.rest.pending, data, EncodeInts(offsets), rest);
      DecodeEncodeInts(offsets);
      DecodeEncodeInts(r.value.offsets);
    }
  }

  /** The bytes `sendMIDIData` puts on the wire after its opcode: the count, then the data, the offsets and whatever follows. */
  lemma MidiFrameBytes(data: seq<byte>, offsets: seq<Int32>, rest: seq<byte>)
    requires |offsets| <= MaxInt
    ensures var p := Flatten(MidiPieces(|offsets|, data, offsets)) + rest;
            && IntSize <= |p| && DecodeInt(p[..IntSize]) == |offsets|
            && p[IntSize..] == data + EncodeInts(offsets) + rest
  {
    var f := Flatten(MidiPieces(|offsets|, data, offsets));
    FlattenThree(EncodeInt(|offsets|), data, EncodeInts(offsets));
    ThreeSlices(EncodeInt(|offsets|), data, EncodeInts(offsets));
    DecodeEncodeInt(|offsets|);
    assert (f + rest)[..IntSize] == f[..IntSize];
    assert (f + rest)[IntSize..] == f[IntSize..] + rest;
  }

  /** Two streams made of pieces of the same lengths agree piece by piece. */
  lemma SplitThree(a: seq<byte>, b: seq<byte>, c: seq<byte>, x: seq<byte>, y: seq<byte>, z: seq<byte>)
    requires a + b + c == x + y + z && |a| == |x| && |b| == |y|
    ensures a == x && b == y && c == z
  {
    ThreeSlices(a, b, c);
    ThreeSlices(x, y, z);
  }

  /**
   * `rdwr_readRaw` reads back the two lengths and the compressed bytes
   * `rdwr_writeRaw` wrote, and returns exactly what the decompressor makes
   * of them; a decompressor failure throws.
   */
  lemma RawRoundTrip(fd: int, c: seq<byte>, n: Int32, inflate: Inflate, rest: seq<byte>, script: seq<ReadOutcome>)
    requires |c| <= MaxInt && n >= 0
    ensures var r := RawReply(fd, ReadView(Flatten(RawPieces(c, n)) + rest, script), inflate);
            && (r.status.Done? ==> inflate(c, n) == Some(r.value))
            && (r.status.Done? || r.status == Threw(PluginClosed) || r.status == Stalled)
            && (r.status.Done? ==> r.rest.pending == rest)
  {
    var f := Flatten(RawPieces(c, n));
    var v := ReadView(f + rest, script);
    assert v.pending[..IntSize] == f[..IntSize];
    assert v.pending[IntSize..2 * IntSize] == f[IntSize..2 * IntSize];
    assert v.pending[2 * IntSize..2 * IntSize + |c|] == f[2 * IntSize..];
    assert v.pending[2 * IntSize + |c|..] == rest;
  }
}
