/**
  Bytes, words and lower-case hexadecimal as the stratum messages use them: `hex::encode`,
  `{:0Nx}` formatting, and little- and big-endian 64-bit words.
 */
module Hex {
  type Byte = x: nat | x < 256 witness 0
  type U64 = x: nat | x < 0x1_0000_0000_0000_0000 witness 0

  /** The lower-case hexadecimal digit of a number below sixteen. */
  function Digit(d: nat): char
    requires d < 16
  {
    if d < 10 then ('0' as int + d) as char else ('a' as int + d - 10) as char
  }

  lemma DigitIs(d: nat)
    requires d < 16
    ensures Digit(d) == "0123456789abcdef"[d]
  {
  }

  lemma DigitsDistinct(a: nat, b: nat)
    requires a < 16 && b < 16 && Digit(a) == Digit(b)
    ensures a == b
  {
  }

  function Pow256(k: nat): (p: nat)
    ensures p >= 1
  {
    if k == 0 then 1 else 256 * Pow256(k - 1)
  }

  /** The number whose big-endian bytes are `bs`. */
  function FromBe(bs: seq<Byte>): (v: nat)
    ensures v < Pow256(|bs|)
  {
    if bs == [] then 0 else 256 * FromBe(bs[..|bs| - 1]) + bs[|bs| - 1]
  }

  /** The `k` big-endian bytes of a number that fits them. */
  function ToBe(v: nat, k: nat): (bs: seq<Byte>)
    requires v < Pow256(k)
    ensures |bs| == k
  {
    if k == 0 then [] else ToBe(v / 256, k - 1) + [v % 256]
  }

  lemma {:induction false} ToBeFromBe(bs: seq<Byte>)
    ensures ToBe(FromBe(bs), |bs|) == bs
  {
    if bs != [] {
      ToBeFromBe(bs[..|bs| - 1]);
      DivMod256(FromBe(bs[..|bs| - 1]), bs[|bs| - 1]);
    }
  }

  lemma DivMod256(q: nat, r: nat)
    requires r < 256
    ensures (256 * q + r) / 256 == q && (256 * q + r) % 256 == r
  {
  }

  lemma {:induction false} FromBeToBe(v: nat, k: nat)
    requires v < Pow256(k)
    ensures FromBe(ToBe(v, k)) == v
  {
    if k > 0 {
      FromBeToBe(v / 256, k - 1);
      var bs := ToBe(v, k);
      assert bs[..k - 1] == ToBe(v / 256, k - 1);
    }
  }

  /** Byte `i` of a number, the lowest being byte 0. */
  function ByteAt(v: nat, i: nat): Byte {
    if i == 0 then v % 256 else ByteAt(v / 256, i - 1)
  }

  lemma {:induction false} ToBeAt(v: nat, k: nat, i: nat)
    requires v < Pow256(k) && i < k
    ensures ToBe(v, k)[k - 1 - i] == ByteAt(v, i)
  {
    if i > 0 {
      ToBeAt(v / 256, k - 1, i - 1);
    }
  }

  function Reverse<T>(s: seq<T>): (r: seq<T>)
    ensures |r| == |s| && forall i :: 0 <= i < |s| ==> r[i] == s[|s| - 1 - i]
  {
    seq(|s|, i requires 0 <= i < |s| => s[|s| - 1 - i])
  }

  /** The two digits of a byte. */
  function ByteHex(b: Byte): (s: string)
    ensures |s| == 2
  {
    [Digit(b / 16), Digit(b % 16)]
  }

  /** `hex::encode`: two digits per byte, high nibble first. */
  function Encode(bs: seq<Byte>): (s: string)
    ensures |s| == 2 * |bs|
  {
    if bs == [] then "" else Encode(bs[..|bs| - 1]) + ByteHex(bs[|bs| - 1])
  }

  /** Every byte is its high and then its low digit. */
  lemma {:induction false} EncodeAt(bs: seq<Byte>, k: nat)
    requires k < |bs|
    ensures Encode(bs)[2 * k] == "0123456789abcdef"[bs[k] / 16]
    ensures Encode(bs)[2 * k + 1] == "0123456789abcdef"[bs[k] % 16]
  {
    if k < |bs| - 1 {
      EncodeAt(bs[..|bs| - 1], k);
    } else {
      DigitIs(bs[k] / 16);
      DigitIs(bs[k] % 16);
    }
  }

  /** Hex digits of a number without leading zeros; zero is a single digit. */
  function LowerHex(v: nat): (s: string)
    ensures |s| >= 1
  {
    if v < 16 then [Digit(v)] else LowerHex(v / 16) + [Digit(v % 16)]
  }

  function Zeros(n: nat): (s: string)
    ensures |s| == n
  {
    if n == 0 then "" else Zeros(n - 1) + "0"
  }

  /** The format `{:0Nx}`: at least `n` digits, padded with zeros on the left. */
  function Padded(v: nat, n: nat): string {
    var s := LowerHex(v);
    if |s| < n then Zeros(n - |s|) + s else s
  }

  function Pow16(k: nat): (p: nat)
    ensures p >= 1
  {
    if k == 0 then 1 else 16 * Pow16(k - 1)
  }

  lemma DivMod16(q: nat, r: nat)
    requires r < 16
    ensures (16 * q + r) / 16 == q && (16 * q + r) % 16 == r
  {
  }

  lemma LastDigit(v: nat) returns (q: nat, r: nat)
    ensures v == 16 * q + r && r < 16
  {
    q, r := v / 16, v % 16;
  }

  lemma LowerHexStep(q: nat, r: nat)
    requires q > 0 && r < 16
    ensures LowerHex(16 * q + r) == LowerHex(q) + [Digit(r)]
  {
    DivMod16(q, r);
  }

  lemma {:induction false} LowerHexFits(v: nat, n: nat)
    requires n > 0 && v < Pow16(n)
    ensures |LowerHex(v)| <= n
  {
    var q, r := LastDigit(v);
    if q > 0 {
      assert n > 1 by {
        assert Pow16(1) == 16 * Pow16(0);
      }
      LowerHexFits(q, n - 1);
      LowerHexStep(q, r);
    }
  }

  lemma PaddedLength(v: nat, n: nat)
    requires n > 0 && v < Pow16(n)
    ensures |Padded(v, n)| == n
  {
    LowerHexFits(v, n);
  }

  /** A number below `16^n` is formatted as its digits above the last one, then the last one. */
  lemma PaddedStep(q: nat, r: nat, n: nat)
    requires n > 1 && r < 16 && 16 * q + r < Pow16(n)
    ensures q < Pow16(n - 1) && Padded(16 * q + r, n) == Padded(q, n - 1) + [Digit(r)]
  {
    LowerHexFits(q, n - 1);
    if q > 0 {
      LowerHexStep(q, r);
      var s := LowerHex(q);
      assert Zeros(n - 1 - |s|) + (s + [Digit(r)]) == Zeros(n - 1 - |s|) + s + [Digit(r)];
    } else {
      assert LowerHex(r) == [Digit(r)] && LowerHex(0) == "0";
      assert Zeros(n - 1) == Zeros(n - 2) + "0";
    }
  }

  /** Digit `i` of a number in base 16, the lowest being digit 0. */
  function NibbleAt(v: nat, i: nat): (d: nat)
    ensures d < 16
  {
    if i == 0 then v % 16 else NibbleAt(v / 16, i - 1)
  }

  /** Formatting writes the digits of the number, highest first. */
  lemma {:induction false} PaddedAt(v: nat, n: nat, i: nat)
    requires i < n && v < Pow16(n)
    ensures |Padded(v, n)| == n && Padded(v, n)[n - 1 - i] == "0123456789abcdef"[NibbleAt(v, i)]
  {
    PaddedLength(v, n);
    var q, r := LastDigit(v);
    DivMod16(q, r);
    DigitIs(r);
    if n > 1 {
      PaddedStep(q, r, n);
      if i > 0 {
        PaddedAt(q, n - 1, i - 1);
      } else {
        PaddedLength(q, n - 1);
      }
    } else {
      assert Pow16(1) == 16 * Pow16(0);
    }
  }

  /** The last byte of a number formatted at even width. */
  lemma PaddedByte(q: nat, high: nat, low: nat, n: nat)
    requires n > 0 && high < 16 && low < 16 && 16 * (16 * q + high) + low < Pow16(2 * n)
    requires n == 1 ==> q == 0
    ensures Padded(16 * (16 * q + high) + low, 2 * n) ==
            (if n == 1 then "" else Padded(q, 2 * n - 2)) + [Digit(high), Digit(low)]
  {
    PaddedStep(16 * q + high, low, 2 * n);
    if n > 1 {
      PaddedStep(q, high, 2 * n - 1);
    } else {
      assert LowerHex(high) == [Digit(high)];
    }
  }

  /** Formatting a big-endian number at its full width is the same as encoding its bytes. */
  lemma {:induction false} PaddedIsEncode(bs: seq<Byte>)
    requires bs != []
    ensures Padded(FromBe(bs), 2 * |bs|) == Encode(bs)
  {
    var front, last := bs[..|bs| - 1], bs[|bs| - 1];
    FitsPow16(bs);
    PaddedByte(FromBe(front), last / 16, last % 16, |bs|);
    if |bs| > 1 {
      PaddedIsEncode(front);
    } else {
      assert front == [];
    }
  }

  lemma {:induction false} FitsPow16(bs: seq<Byte>)
    ensures FromBe(bs) < Pow16(2 * |bs|)
  {
    if bs != [] {
      FitsPow16(bs[..|bs| - 1]);
      assert Pow16(2 * |bs|) == 16 * (16 * Pow16(2 * |bs| - 2));
    }
  }

  /** Equal strings with equally long tails have equal heads and tails. */
  lemma TailsEqual(a: string, x: string, b: string, y: string)
    requires |x| == |y| && a + x == b + y
    ensures a == b && x == y
  {
    assert |a + x| == |b + y|;
    assert a == (a + x)[..|a|] && b == (b + y)[..|b|];
    assert x == (a + x)[|a|..] && y == (b + y)[|b|..];
  }

  lemma ByteDigits(a: Byte, b: Byte)
    requires ByteHex(a) == ByteHex(b)
    ensures a == b
  {
    assert ByteHex(a)[0] == ByteHex(b)[0] && ByteHex(a)[1] == ByteHex(b)[1];
    DigitsDistinct(a / 16, b / 16);
    DigitsDistinct(a % 16, b % 16);
  }

  /** Fixed-width hex loses nothing. */
  lemma {:induction false} EncodeInjective(a: seq<Byte>, b: seq<Byte>)
    requires Encode(a) == Encode(b)
    ensures a == b
  {
    assert |Encode(a)| == |Encode(b)|;
    if a != [] {
      var m := |a| - 1;
      var front, front' := a[..m], b[..m];
      TailsEqual(Encode(front), ByteHex(a[m]), Encode(front'), ByteHex(b[m]));
      EncodeInjective(front, front');
      ByteDigits(a[m], b[m]);
      assert a == front + [a[m]] && b == front' + [b[m]];
    }
  }

  /** Below `16^n`, equal formatted strings mean equal numbers. */
  lemma {:induction false} PaddedInjective(v: nat, w: nat, n: nat)
    requires n > 0 && v < Pow16(n) && w < Pow16(n) && Padded(v, n) == Padded(w, n)
    ensures v == w
  {
    if n == 1 {
      assert Pow16(1) == 16 * Pow16(0);
      DigitsDistinct(v, w);
    } else {
      var q, r := LastDigit(v);
      var q', r' := LastDigit(w);
      PaddedStep(q, r, n);
      PaddedStep(q', r', n);
      TailsEqual(Padded(q, n - 1), [Digit(r)], Padded(q', n - 1), [Digit(r')]);
      assert [Digit(r)][0] == [Digit(r')][0];
      PaddedInjective(q, q', n - 1);
      DigitsDistinct(r, r');
    }
  }
}
