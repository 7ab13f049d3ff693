/**
 Byte strings as the relayer handles them: the big-endian, minimal byte strings of
 Go's `big.Int`, the two ways of padding them to a fixed width, and the narrowing
 conversions to 64 bits.
 */
module Bytes {

  type byte = x: int | 0 <= x < 256
  type uint8 = byte
  type uint64 = x: int | 0 <= x < TWO_64

  const TWO_63: int := 0x8000_0000_0000_0000
  const TWO_64: int := 0x1_0000_0000_0000_0000
  const TWO_256: int := 0x1_0000000000000000_0000000000000000_0000000000000000_0000000000000000

  /** Go's narrowing to int64 (`int64(x)`, `big.Int.Int64`): the low 64 bits, read as two's complement. */
  function Int64(n: int): (r: int)
    ensures -TWO_63 <= r < TWO_63
    ensures r == n <==> -TWO_63 <= n < TWO_63
  {
    var low := n % TWO_64;
    if low < TWO_63 then low else low - TWO_64
  }

  function Pow256(k: nat): (p: nat)
    ensures p >= 1
  {
    if k == 0 then 1 else 256 * Pow256(k - 1)
  }

  /** `big.Int.SetBytes`: the number a big-endian byte string denotes. */
  function ToNat(s: seq<byte>): nat {
    if s == [] then 0 else 256 * ToNat(s[..|s| - 1]) + s[|s| - 1]
  }

  /** `big.Int.Bytes`: the shortest big-endian byte string of n; zero is the empty string. */
  function FromNat(n: nat): seq<byte> {
    if n == 0 then [] else FromNat(n / 256) + [n % 256]
  }

  function Zeros(k: nat): (s: seq<byte>)
    ensures |s| == k && forall i :: 0 <= i < k ==> s[i] == 0
  {
    seq(k, _ => 0)
  }

  /** `common.LeftPadBytes`: a string that is already long enough is returned unchanged. */
  function LeftPad(s: seq<byte>, width: nat): (r: seq<byte>)
    ensures |r| == if width <= |s| then |s| else width
  {
    if width <= |s| then s else Zeros(width - |s|) + s
  }

  /** The 32-byte word of a number that fits one; a longer byte string if it does not. */
  function Word(n: nat): seq<byte> {
    LeftPad(FromNat(n), 32)
  }

  /** `big.Int.BitLen`. */
  function BitLen(n: nat): nat {
    if n == 0 then 0 else 1 + BitLen(n / 2)
  }

  /** The `width` low-order bytes of n, what go-ethereum's `ReadBits` leaves in a buffer of that size. */
  function LowBytes(n: nat, width: nat): (r: seq<byte>)
    ensures |r| == width
  {
    if width == 0 then [] else LowBytes(n / 256, width - 1) + [n % 256]
  }

  /** `math.PaddedBigBytes`: chooses between the two encodings by the bit length. */
  function PaddedBigBytes(n: nat, width: nat): seq<byte> {
    if BitLen(n) / 8 >= width then FromNat(n) else LowBytes(n, width)
  }

  // ---------- the two conversions undo each other ----------

  lemma {:induction false} ToNatFromNat(n: nat)
    ensures ToNat(FromNat(n)) == n
  {
    if n != 0 {
      ToNatFromNat(n / 256);
      assert FromNat(n)[..|FromNat(n)| - 1] == FromNat(n / 256);
    }
  }

  lemma {:induction false} ToNatZeros(k: nat, s: seq<byte>)
    ensures ToNat(Zeros(k) + s) == ToNat(s)
  {
    var z := Zeros(k) + s;
    if z == [] {
    } else if s == [] {
      ToNatZeros(k - 1, []);
      assert z[..|z| - 1] == Zeros(k - 1) + [];
    } else {
      ToNatZeros(k, s[..|s| - 1]);
      assert z[..|z| - 1] == Zeros(k) + s[..|s| - 1];
    }
  }

  /** Padding never changes the number. */
  lemma ToNatLeftPad(s: seq<byte>, width: nat)
    ensures ToNat(LeftPad(s, width)) == ToNat(s)
  {
    if width > |s| {
      ToNatZeros(width - |s|, s);
    }
  }

  /** Reading a string and writing the number back at the same width is the identity. */
  lemma {:induction false} LeftPadFromToNat(s: seq<byte>)
    ensures |FromNat(ToNat(s))| <= |s|
    ensures LeftPad(FromNat(ToNat(s)), |s|) == s
  {
    if s != [] {
      var p, d := s[..|s| - 1], s[|s| - 1];
      LeftPadFromToNat(p);
      var n := ToNat(p);
      assert ToNat(s) == 256 * n + d && (256 * n + d) / 256 == n && (256 * n + d) % 256 == d;
      if ToNat(s) == 0 {
        assert p == Zeros(|p|) + FromNat(0);
        assert s == Zeros(|s|) + FromNat(0);
      } else {
        assert FromNat(ToNat(s)) == FromNat(n) + [d];
        assert s == LeftPad(FromNat(n), |p|) + [d];
      }
    }
  }

  /** The minimal string of n has at most k bytes exactly when n < 256^k. */
  lemma {:induction false} FromNatLength(n: nat, k: nat)
    ensures |FromNat(n)| <= k <==> n < Pow256(k)
  {
    if n != 0 && k != 0 {
      FromNatLength(n / 256, k - 1);
    }
  }

  lemma WordLength(n: nat)
    ensures |Word(n)| == 32 <==> n < TWO_256
    ensures ToNat(Word(n)) == n
  {
    FromNatLength(n, 32);
    Pow256Values();
    ToNatLeftPad(FromNat(n), 32);
    ToNatFromNat(n);
  }

  lemma Pow256Values()
    ensures Pow256(8) == TWO_64
    ensures Pow256(32) == TWO_256
  {
    assert Pow256(4) == 0x1_0000_0000;
    assert Pow256(8) == 0x1_0000_0000_0000_0000;
    assert Pow256(12) == 0x1_0000_0000_0000_0000_0000_0000;
    assert Pow256(16) == 0x1_0000_0000_0000_0000_0000_0000_0000_0000;
    assert Pow256(20) == 0x1_0000_0000_0000_0000_0000_0000_0000_0000_0000_0000;
    assert Pow256(24) == 0x1_0000_0000_0000_0000_0000_0000_0000_0000_0000_0000_0000_0000;
    assert Pow256(28) == 0x1_0000_0000_0000_0000_0000_0000_0000_0000_0000_0000_0000_0000_0000_0000;
  }

  // ---------- the two paddings agree ----------

  /** Peeling off one byte, as eight halvings. */
  lemma BitLenByte(n: nat)
    ensures n >= 16 ==> BitLen(n) == 4 + BitLen(n / 16)
    ensures n >= 256 ==> BitLen(n) == 8 + BitLen(n / 256)
    ensures 0 < n < 256 ==> 1 <= BitLen(n) <= 8
  {
    var m := n / 16;
    assert m / 16 == n / 256 && (n >= 256 <==> m >= 16);
    BitLenNibble(n);
    BitLenNibble(m);
  }

  lemma BitLenNibble(n: nat)
    ensures n >= 16 ==> BitLen(n) == 4 + BitLen(n / 16)
    ensures 0 < n < 16 ==> 1 <= BitLen(n) <= 4
  {
    assert BitLen(n / 2) == if n / 2 == 0 then 0 else 1 + BitLen(n / 2 / 2);
    assert n / 2 / 2 == n / 4;
    assert BitLen(n / 4) == if n / 4 == 0 then 0 else 1 + BitLen(n / 4 / 2);
    assert n / 4 / 2 == n / 8;
    assert BitLen(n / 8) == if n / 8 == 0 then 0 else 1 + BitLen(n / 8 / 2);
    assert n / 8 / 2 == n / 16;
  }

  lemma {:induction false} BitLenBytes(n: nat)
    ensures |FromNat(n)| == (BitLen(n) + 7) / 8
  {
    if n != 0 {
      BitLenByte(n);
      BitLenBytes(n / 256);
    }
  }

  lemma {:induction false} LowBytesIsLeftPad(n: nat, width: nat)
    requires |FromNat(n)| <= width
    ensures LowBytes(n, width) == LeftPad(FromNat(n), width)
  {
    if width != 0 {
      LowBytesIsLeftPad(n / 256, width - 1);
      if n == 0 {
        assert LowBytes(n, width) == Zeros(width - 1) + [] + [0] == Zeros(width);
      }
    }
  }

  /** The constructors' padding and the message handlers' padding are the same function. */
  lemma PaddedIsLeftPad(n: nat, width: nat)
    ensures PaddedBigBytes(n, width) == LeftPad(FromNat(n), width)
  {
    BitLenBytes(n);
    if BitLen(n) / 8 < width {
      LowBytesIsLeftPad(n, width);
    }
  }
}
