/*
 * Byte-level vocabulary shared by the wire layer and the client: octets,
 * the 32-bit C `int`, the opaque 4-byte `float` word, and C strings.
 *
 * The two processes run on the same machine and exchange native-order
 * values; the model fixes the native order to little-endian two's
 * complement (x86, x86-64, 32- and 64-bit ARM Linux).
 */
module Bytes {

  /** One octet on a pipe or in memory. */
  newtype byte = b: int | 0 <= b < 256

  const MinInt: int := -0x8000_0000
  const MaxInt: int := 0x7fff_ffff

  /** A C `int` (32 bits on every platform the plugin host runs on). */
  type Int32 = i: int | MinInt <= i <= MaxInt

  /** `sizeof(int)`, `sizeof(float)` */
  const IntSize: nat := 4

  /** The unsigned 32-bit pattern of a signed value: the one value below 2^32 congruent to it. */
  function Unsigned(i: Int32): (u: nat)
    ensures u < 0x1_0000_0000
    ensures (u - i) % 0x1_0000_0000 == 0
  {
    if i < 0 then i + 0x1_0000_0000 else i
  }

  /** The four bytes `write(fd, &i, sizeof(int))` puts on the wire. */
  function EncodeInt(i: Int32): (s: seq<byte>)
    ensures |s| == IntSize
  {
    var u := Unsigned(i);
    [(u % 256) as byte, (u / 256 % 256) as byte, (u / 65536 % 256) as byte, (u / 16777216) as byte]
  }

  /**
   * The `int` that four bytes read off the wire stand for: the sign is the
   * top bit of the last byte, and the low byte comes first.
   */
  function DecodeInt(s: seq<byte>): (i: Int32)
    requires |s| == IntSize
    ensures i < 0 <==> s[3] >= 128
    ensures i % 256 == s[0] as int
  {
    var u := s[0] as int + 256 * s[1] as int + 65536 * s[2] as int + 16777216 * s[3] as int;
    if u > MaxInt then u - 0x1_0000_0000 else u
  }

  lemma {:induction false} DecodeEncodeInt(i: Int32)
    ensures DecodeInt(EncodeInt(i)) == i
  {
    var u := Unsigned(i);
    var q0 := u / 256;
    var q1 := q0 / 256;
    var q2 := q1 / 256;
    assert u == u % 256 + 256 * q0;
    assert q0 == q0 % 256 + 256 * q1;
    assert q1 == q1 % 256 + 256 * q2;
    assert u / 65536 == q1;
    assert u / 16777216 == q2;
    var s := EncodeInt(i);
    assert s[0] as int + 256 * s[1] as int + 65536 * s[2] as int + 16777216 * s[3] as int == u;
  }

  lemma {:induction false} EncodeDecodeInt(s: seq<byte>)
    requires |s| == IntSize
    ensures EncodeInt(DecodeInt(s)) == s
  {
    var u := s[0] as int + 256 * s[1] as int + 65536 * s[2] as int + 16777216 * s[3] as int;
    var i := DecodeInt(s);
    assert Unsigned(i) == u;
    assert u % 256 == s[0] as int;
    assert u / 256 == s[1] as int + 256 * s[2] as int + 65536 * s[3] as int;
    assert u / 65536 == s[2] as int + 256 * s[3] as int;
    assert u / 16777216 == s[3] as int;
  }

  /** Two different ints never share an encoding: the receiver can tell them apart. */
  lemma EncodeIntInjective(i: Int32, j: Int32)
    ensures EncodeInt(i) == EncodeInt(j) <==> i == j
  {
    if EncodeInt(i) == EncodeInt(j) {
      DecodeEncodeInt(i);
      DecodeEncodeInt(j);
    }
  }

  /**
   * A C `float`, or one audio sample, as the four bytes of its
   * representation. The transport only copies floats, so no arithmetic
   * on them is modelled.
   */
  datatype Word = Word(b0: byte, b1: byte, b2: byte, b3: byte)

  /** The word `memset(p, 0, 4)` leaves: the float 0.0. */
  const ZeroWord: Word := Word(0, 0, 0, 0)

  function WordBytes(w: Word): (s: seq<byte>)
    ensures |s| == IntSize
  {
    [w.b0, w.b1, w.b2, w.b3]
  }

  function BytesWord(s: seq<byte>): Word
    requires |s| == IntSize
  {
    Word(s[0], s[1], s[2], s[3])
  }

  /** A float survives the wire bit for bit, in both directions. */
  lemma WordRoundTrip(w: Word, s: seq<byte>)
    requires |s| == IntSize
    ensures BytesWord(WordBytes(w)) == w
    ensures WordBytes(BytesWord(s)) == s
  {
  }

  /** An array of ints as it lies in memory: each int's bytes in turn. */
  function EncodeInts(xs: seq<Int32>): (s: seq<byte>)
    ensures |s| == IntSize * |xs|
  {
    if xs == [] then [] else EncodeInt(xs[0]) + EncodeInts(xs[1..])
  }

  function DecodeInts(s: seq<byte>): (xs: seq<Int32>)
    requires |s| % IntSize == 0
    ensures IntSize * |xs| == |s|
  {
    if s == [] then [] else [DecodeInt(s[..IntSize])] + DecodeInts(s[IntSize..])
  }

  lemma {:induction false} DecodeEncodeInts(xs: seq<Int32>)
    ensures DecodeInts(EncodeInts(xs)) == xs
  {
    if xs != [] {
      var s := EncodeInts(xs);
      assert s[..IntSize] == EncodeInt(xs[0]);
      assert s[IntSize..] == EncodeInts(xs[1..]);
      DecodeEncodeInt(xs[0]);
      DecodeEncodeInts(xs[1..]);
    }
  }

  lemma {:induction false} EncodeDecodeInts(s: seq<byte>)
    requires |s| % IntSize == 0
    ensures EncodeInts(DecodeInts(s)) == s
    decreases |s|
  {
    if s != [] {
      EncodeDecodeInt(s[..IntSize]);
      EncodeDecodeInts(s[IntSize..]);
      assert s == s[..IntSize] + s[IntSize..];
    }
  }

  /** `n` zero ints: the frame offsets substituted when none are given. */
  function Zeros(n: nat): (xs: seq<Int32>)
    ensures |xs| == n && forall k :: 0 <= k < n ==> xs[k] == 0
  {
    seq(n, _ => 0)
  }

  /** An array of floats as it lies in memory. */
  function EncodeWords(ws: seq<Word>): (s: seq<byte>)
    ensures |s| == IntSize * |ws|
  {
    if ws == [] then [] else WordBytes(ws[0]) + EncodeWords(ws[1..])
  }

  function DecodeWords(s: seq<byte>): (ws: seq<Word>)
    requires |s| % IntSize == 0
    ensures IntSize * |ws| == |s|
  {
    if s == [] then [] else [BytesWord(s[..IntSize])] + DecodeWords(s[IntSize..])
  }

  lemma {:induction false} DecodeEncodeWords(ws: seq<Word>)
    ensures DecodeWords(EncodeWords(ws)) == ws
  {
    if ws != [] {
      var s := EncodeWords(ws);
      assert s[..IntSize] == WordBytes(ws[0]);
      assert s[IntSize..] == EncodeWords(ws[1..]);
      DecodeEncodeWords(ws[1..]);
    }
  }

  /**
   * `std::string(p)` for a buffer `p`: the bytes before the first NUL,
   * or all of them when there is none.
   */
  function CString(s: seq<byte>): (r: seq<byte>)
    ensures |r| <= |s| && r == s[..|r|]
    ensures 0 !in r
    ensures |r| < |s| ==> s[|r|] == 0
  {
    if s == [] || s[0] == 0 then [] else [s[0]] + CString(s[1..])
  }

  /** A C string keeps all of a payload exactly when the payload has no NUL. */
  lemma CStringKeepsAll(s: seq<byte>)
    ensures CString(s) == s <==> 0 !in s
  {
  }

  /** A NUL in the payload cuts the string at the first NUL. */
  lemma {:induction false} CStringCutsAtFirstNul(s: seq<byte>, k: nat)
    requires k < |s| && s[k] == 0 && 0 !in s[..k]
    ensures CString(s) == s[..k]
  {
    if k > 0 {
      assert s[0] != 0 by { assert s[0] == s[..k][0]; }
      assert s[1..][..k - 1] == s[..k][1..];
      CStringCutsAtFirstNul(s[1..], k - 1);
    }
  }

  /** Writing the terminating NUL after a payload does not change the string read back. */
  lemma {:induction false} CStringTerminated(s: seq<byte>)
    ensures CString(s + [0]) == CString(s)
  {
    if s != [] && s[0] != 0 {
      assert (s + [0])[1..] == s[1..] + [0];
      CStringTerminated(s[1..]);
    }
  }
}
