/*
 * The operating system's side of one named pipe, as far as the transport
 * sees it: the `read(2)` and `write(2)` calls on a descriptor open on the
 * pipe. Their results are not computed but supplied, call by call, by a
 * script of outcomes; the bytes themselves flow in order.
 */
module Pipe {
  import opened Bytes

  /** What one `read(fd, buf, want)` call does. */
  datatype ReadOutcome =
    | Deliver(limit: nat)   // hands over min(limit, want, bytes available) bytes
    | EndOfFile             // returns 0: the writer has gone
    | WouldBlock            // returns -1 with errno EAGAIN
    | IoError               // returns -1 with any other errno

  /** What one `write(fd, buf, count)` call does. */
  datatype WriteOutcome =
    | Accept(limit: nat)    // takes min(limit, count) bytes
    | WriteError            // returns -1

  /**
   * A read end: the bytes the peer has written or will write and that
   * have not been read yet, and the outcomes of the coming `read` calls.
   */
  datatype ReadView = ReadView(pending: seq<byte>, script: seq<ReadOutcome>)

  /** A write end: the bytes the pipe has accepted so far, and the outcomes of the coming `write` calls. */
  datatype WriteView = WriteView(sent: seq<byte>, script: seq<WriteOutcome>)

  /** The value `read` returns, whether errno is EAGAIN, and the read end afterwards. */
  datatype ReadReturn = ReadReturn(r: int, again: bool, after: ReadView)

  /** The value `write` returns and the write end afterwards. */
  datatype WriteReturn = WriteReturn(w: int, after: WriteView)

  function Min(a: int, b: int): int { if a < b then a else b }

  /** One `read(fd, buf, want)`: never more than asked, always from the front of the stream. */
  function ReadCall(v: ReadView, want: nat): (rr: ReadReturn)
    requires v.script != []
    ensures -1 <= rr.r <= want
    ensures rr.after.script == v.script[1..]
    ensures rr.r >= 0 ==> rr.r <= |v.pending| && rr.after.pending == v.pending[rr.r..]
    ensures rr.r < 0 ==> rr.after.pending == v.pending
    ensures rr.again ==> rr.r == -1
  {
    var rest := v.script[1..];
    match v.script[0]
    case Deliver(limit) =>
      var k := Min(limit, Min(want, |v.pending|));
      ReadReturn(k, false, ReadView(v.pending[k..], rest))
    case EndOfFile => ReadReturn(0, false, ReadView(v.pending, rest))
    case WouldBlock => ReadReturn(-1, true, ReadView(v.pending, rest))
    case IoError => ReadReturn(-1, false, ReadView(v.pending, rest))
  }

  /** One `write(fd, src, |src|)`: the accepted bytes are a prefix of `src`. */
  function WriteCall(v: WriteView, src: seq<byte>): (wr: WriteReturn)
    requires v.script != []
    ensures -1 <= wr.w <= |src|
    ensures wr.after.script == v.script[1..]
    ensures wr.w >= 0 ==> wr.after.sent == v.sent + src[..wr.w]
    ensures wr.w < 0 ==> wr.after.sent == v.sent
  {
    var rest := v.script[1..];
    match v.script[0]
    case Accept(limit) =>
      var k := Min(limit, |src|);
      WriteReturn(k, WriteView(v.sent + src[..k], rest))
    case WriteError => WriteReturn(-1, WriteView(v.sent, rest))
  }

  /** The read end of a pipe, as seen through one descriptor. */
  class ReadChannel {
    var pending: seq<byte>
    var script: seq<ReadOutcome>

    function View(): ReadView
      reads this
    {
      ReadView(pending, script)
    }

    constructor (pending: seq<byte>, script: seq<ReadOutcome>)
      ensures View() == ReadView(pending, script)
    {
      this.pending := pending;
      this.script := script;
    }

    /** `read(fd, buf + at, want)`: the kernel copies what it hands over into `buf` at `at`. */
    method Read(buf: array<byte>, at: nat, want: nat) returns (r: int, again: bool)
      requires script != [] && at + want <= buf.Length
      modifies this, buf
      ensures ReadReturn(r, again, View()) == ReadCall(old(View()), want)
      ensures var k := if r < 0 then 0 else r;
              buf[..] == old(buf[..])[..at] + old(pending)[..k] + old(buf[..])[at + k..]
    {
      var rr := ReadCall(View(), want);
      var k := if rr.r < 0 then 0 else rr.r;
      forall t | 0 <= t < k {
        buf[at + t] := pending[t];
      }
      assert buf[..] == old(buf[..])[..at] + pending[..k] + old(buf[..])[at + k..];
      r, again := rr.r, rr.again;
      pending, script := rr.after.pending, rr.after.script;
    }
  }

  /** The write end of a pipe, as seen through one descriptor. */
  class WriteChannel {
    var sent: seq<byte>
    var script: seq<WriteOutcome>

    function View(): WriteView
      reads this
    {
      WriteView(sent, script)
    }

    constructor (script: seq<WriteOutcome>)
      ensures View() == WriteView([], script)
    {
      this.sent := [];
      this.script := script;
    }

    /** `write(fd, src, |src|)` */
    method Write(src: seq<byte>) returns (w: int)
      requires script != []
      modifies this
      ensures WriteReturn(w, View()) == WriteCall(old(View()), src)
    {
      var wr := WriteCall(View(), src);
      w := wr.w;
      sent, script := wr.after.sent, wr.after.script;
    }
  }
}
