/**
 Byte-level primitives of gftlib/helpers.py: big-endian packing of a short
 integer, reading a byte string as a big-endian number, and ASCII conversion,
 together with the Python slicing the codec relies on.
 */
module Helpers {
  import opened Wrappers
  import opened Errors

  type Byte = b: int | 0 <= b < 0x100
  type Bytes = seq<Byte>

  /** A Python value handed to the helpers: an int, a str or a bytes object. */
  datatype Value = Int(i: int) | Str(s: string) | Raw(b: Bytes)

  function Pow256(k: nat): (r: nat)
    ensures r >= 1
  {
    if k == 0 then 1 else 256 * Pow256(k - 1)
  }

  // ---------------------------------------------------------------------------
  // Python slicing with clamped bounds
  // ---------------------------------------------------------------------------

  /** `b[:k]` */
  function Take(b: Bytes, k: nat): (r: Bytes)
    ensures |r| == if k <= |b| then k else |b|
    ensures r == b[..|r|]
  {
    if k <= |b| then b[..k] else b
  }

  /** `b[k:]` */
  function Drop(b: Bytes, k: nat): (r: Bytes)
    ensures |r| == if k <= |b| then |b| - k else 0
    ensures k <= |b| ==> b == b[..k] + r
  {
    if k <= |b| then b[k..] else []
  }

  /** `b[lo:hi]` for a non-negative `lo`; a negative `hi` clamps to 0 as Python's does once the length is added. */
  function Slice(b: Bytes, lo: nat, hi: int): Bytes
  {
    Drop(Take(b, if hi < 0 then 0 else hi), lo)
  }

  // ---------------------------------------------------------------------------
  // Big-endian numbers
  // ---------------------------------------------------------------------------

  /** `unpack_short_int`: `int.from_bytes(b, 'big')`, for a byte string of any length. */
  function UnpackShortInt(b: Bytes): (r: nat)
    ensures r < Pow256(|b|)
  {
    if |b| == 0 then 0 else UnpackShortInt(b[..|b| - 1]) * 256 + b[|b| - 1]
  }

  /** The two-byte big-endian form of a 16-bit number. */
  function Be16(n: nat): (r: Bytes)
    requires n < 0x1_0000
    ensures |r| == 2 && r[0] == n / 256 && UnpackShortInt(r) == n
  {
    var r: Bytes := [n / 256, n % 256];
    assert r[..1] == [n / 256];
    r
  }

  /** `pack_short_int`: bytes pass through unchanged, an int becomes 2 big-endian bytes. */
  function PackShortInt(v: Value): (r: Result<Bytes, Error>)
    ensures v.Raw? ==> r == Success(v.b)
    ensures v.Int? ==> (r.Success? <==> 0 <= v.i < 0x1_0000)
    ensures v.Int? && r.Success? ==> |r.value| == 2 && r.value[0] == v.i / 256 && UnpackShortInt(r.value) == v.i
    ensures v.Str? ==> r == Failure(AttributeError)
  {
    match v
    case Raw(b) => Success(b)
    case Int(i) => if 0 <= i < 0x1_0000 then Success(Be16(i)) else Failure(OverflowError)
    case Str(_) => Failure(AttributeError)
  }

  // ---------------------------------------------------------------------------
  // ASCII
  // ---------------------------------------------------------------------------

  predicate IsAscii(s: string)
  {
    forall i :: 0 <= i < |s| ==> s[i] as int < 0x80
  }

  predicate AllAscii(b: Bytes)
  {
    forall i :: 0 <= i < |b| ==> b[i] < 0x80
  }

  /** `s.encode('ascii')` of a string known to be ASCII. */
  function AsciiEncode(s: string): (r: Bytes)
    requires IsAscii(s)
    ensures |r| == |s| && AllAscii(r)
  {
    seq(|s|, i requires 0 <= i < |s| => s[i] as int)
  }

  /** `b.decode('ascii')`: None stands for the UnicodeDecodeError raised on a byte above 0x7f. */
  function AsciiDecode(b: Bytes): (r: Option<string>)
    ensures r.Some? <==> AllAscii(b)
    ensures r.Some? ==> IsAscii(r.value) && AsciiEncode(r.value) == b
  {
    if AllAscii(b) then Some(seq(|b|, i requires 0 <= i < |b| => b[i] as char)) else None
  }

  /** The decimal digits of `n`, as `str(n)` writes them. */
  function Digits(n: nat): (r: string)
    ensures |r| >= 1 && IsAscii(r)
    ensures forall i :: 0 <= i < |r| ==> '0' <= r[i] <= '9'
    decreases n
  {
    var last := ('0' as int + n % 10) as char;
    if n < 10 then [last] else Digits(n / 10) + [last]
  }

  /** `str(i)` for an int. */
  function Decimal(i: int): (r: string)
    ensures IsAscii(r)
  {
    if i < 0 then "-" + Digits(-i) else Digits(i)
  }

  /** `str_to_bytes`: bytes pass through unchanged, anything else is ASCII-encoded as `str(x)`. */
  function StrToBytes(v: Value): (r: Result<Bytes, Error>)
    ensures v.Raw? ==> r == Success(v.b)
    ensures v.Str? ==> (r.Success? <==> IsAscii(v.s))
    ensures v.Str? && r.Success? ==>
      |r.value| == |v.s| && forall i :: 0 <= i < |v.s| ==> r.value[i] == v.s[i] as int
    ensures v.Int? ==> r.Success?
  {
    match v
    case Raw(b) => Success(b)
    case Str(s) => if IsAscii(s) then Success(AsciiEncode(s)) else Failure(UnicodeError)
    case Int(i) => Success(AsciiEncode(Decimal(i)))
  }

  // ---------------------------------------------------------------------------
  // Properties
  // ---------------------------------------------------------------------------

  /** Decoding the ASCII encoding of an ASCII string gives the string back. */
  lemma AsciiRoundTrip(s: string)
    requires IsAscii(s)
    ensures AsciiDecode(AsciiEncode(s)) == Some(s)
  {
    var b := AsciiEncode(s);
    assert AllAscii(b);
    var t := AsciiDecode(b).value;
    assert |t| == |s|;
    forall i | 0 <= i < |s|
      ensures t[i] == s[i]
    {
      assert t[i] == b[i] as char;
    }
    assert t == s;
  }

  /** Packing then unpacking a 16-bit number is the identity. */
  lemma PackUnpackRoundTrip(n: int)
    requires 0 <= n < 0x1_0000
    ensures PackShortInt(Int(n)).Success?
    ensures UnpackShortInt(PackShortInt(Int(n)).value) == n
  {
  }

  /** Unpacking then packing a 2-byte string is the identity: the two are inverse bijections. */
  lemma UnpackPackRoundTrip(b: Bytes)
    requires |b| == 2
    ensures UnpackShortInt(b) < 0x1_0000
    ensures PackShortInt(Int(UnpackShortInt(b))) == Success(b)
  {
    assert b[..1][..0] == [];
    assert UnpackShortInt(b[..1]) == b[0];
    assert UnpackShortInt(b) == (b[0] as int) * 256 + b[1] as int;
    assert Be16(UnpackShortInt(b)) == b;
  }

  /** Big-endian reading of a concatenation: the left part is shifted by the length of the right one. */
  lemma {:induction false} UnpackConcat(a: Bytes, b: Bytes)
    ensures UnpackShortInt(a + b) == UnpackShortInt(a) * Pow256(|b|) + UnpackShortInt(b)
    decreases |b|
  {
    if |b| == 0 {
      assert a + b == a;
    } else {
      var b' := b[..|b| - 1];
      assert (a + b)[..|a + b| - 1] == a + b';
      UnpackConcat(a, b');
      ShiftDistributes(UnpackShortInt(a), Pow256(|b'|), UnpackShortInt(b'), b[|b| - 1],
                       UnpackShortInt(a + b), UnpackShortInt(b), Pow256(|b|));
    }
  }

  /** The arithmetic step of UnpackConcat: appending a byte shifts both sides by 256. */
  lemma ShiftDistributes(x: int, p: int, y: int, c: int, ab: int, bb: int, pb: int)
    requires ab == (x * p + y) * 256 + c && bb == y * 256 + c && pb == 256 * p
    ensures ab == x * pb + bb
  {
  }

  /** Leading zero bytes do not change the number read, so any width reads the same value. */
  lemma LeadingZeroIgnored(b: Bytes)
    ensures UnpackShortInt([0] + b) == UnpackShortInt(b)
  {
    UnpackConcat([0], b);
    assert [0][..0] == [];
  }

  /** The empty byte string reads as 0, and a one-byte string as that byte. */
  lemma UnpackShortIntSmall(b: Bytes)
    requires |b| <= 1
    ensures UnpackShortInt(b) == if |b| == 0 then 0 else b[0]
  {
    if |b| == 1 {
      assert b[..0] == [];
    }
  }
}
