/** The proof-of-work test on a digest, and what it means for the digest as a number. */
module LeadingZeros {
  import opened Basics

  /** The big-endian value of a digest. */
  function Value(d: seq<Byte>): int {
    if d == [] then 0 else d[0] * Pow2(8 * (|d| - 1)) + Value(d[1..])
  }

  lemma Pow2Add(a: nat, b: nat)
    ensures Pow2(a + b) == Pow2(a) * Pow2(b)
  {
    if a > 0 {
      Pow2Add(a - 1, b);
    }
  }

  lemma Pow2Grows(a: nat, b: nat)
    requires a <= b
    ensures Pow2(a) <= Pow2(b)
  {
    if a < b {
      Pow2Grows(a, b - 1);
    }
  }

  /** One byte more or less on top of a value below Pow2(rest). */
  lemma TopByte(top: int, rest: nat, low: int, bits: nat)
    requires 0 <= top && 0 <= low < Pow2(rest)
    ensures top * Pow2(rest) + low < Pow2(rest + bits) <==> top < Pow2(bits)
    ensures top * Pow2(rest) + low >= 0
  {
    Pow2Add(rest, bits);
    var p := Pow2(rest);
    ScaleMonotone(p, 0, top);
    if top < Pow2(bits) {
      ScaleMonotone(p, top + 1, Pow2(bits));
    } else {
      ScaleMonotone(p, Pow2(bits), top);
    }
  }

  lemma {:induction false} ValueBounds(d: seq<Byte>)
    ensures 0 <= Value(d) < Pow2(8 * |d|)
  {
    if d != [] {
      ValueBounds(d[1..]);
      assert Pow2(8) == 256;
      TopByte(d[0], 8 * (|d| - 1), Value(d[1..]), 8);
    }
  }

  /** A digest that starts with zero bytes has the value of what follows them. */
  lemma {:induction false} ZeroPrefix(d: seq<Byte>, k: nat)
    requires k <= |d| && forall i :: 0 <= i < k ==> d[i] == 0
    ensures Value(d) == Value(d[k..])
  {
    if k > 0 {
      ZeroPrefix(d[1..], k - 1);
      assert d[1..][k - 1..] == d[k..];
    } else {
      assert d[0..] == d;
    }
  }

  /** A byte that is not zero makes the value at least the weight of that byte. */
  lemma NonZeroByte(d: seq<Byte>, k: nat, bits: nat)
    requires k < |d| && (forall i :: 0 <= i < k ==> d[i] == 0) && d[k] != 0 && 8 * (k + 1) <= bits <= 8 * |d|
    ensures Value(d) >= Pow2(8 * |d| - bits)
  {
    ZeroPrefix(d, k);
    TopWeight(d[k..]);
    Pow2Grows(8 * |d| - bits, 8 * (|d| - k - 1));
  }

  lemma TopWeight(d: seq<Byte>)
    requires d != [] && d[0] != 0
    ensures Value(d) >= Pow2(8 * (|d| - 1))
  {
    ValueBounds(d[1..]);
    ScaleMonotone(Pow2(8 * (|d| - 1)), 1, d[0]);
  }

  /** hasLeadingZeroBits: the digest, read as a big-endian number, has that many leading zero bits. */
  method HasLeadingZeroBits(digest: seq<Byte>, difficultyBits: nat) returns (ok: bool)
    requires difficultyBits <= 8 * |digest|
    ensures ok <==> Value(digest) < Pow2(8 * |digest| - difficultyBits)
  {
    var fullZeroBytes := difficultyBits / 8;
    var i := 0;
    while i < fullZeroBytes
      invariant 0 <= i <= fullZeroBytes
      invariant forall j :: 0 <= j < i ==> digest[j] == 0
    {
      if digest[i] != 0 {
        NonZeroByte(digest, i, difficultyBits);
        return false;
      }
      i := i + 1;
    }
    var remainingBits := difficultyBits % 8;
    ZeroPrefix(digest, fullZeroBytes);
    if remainingBits == 0 {
      ValueBounds(digest[fullZeroBytes..]);
      return true;
    }
    ValueBounds(digest[fullZeroBytes + 1..]);
    assert digest[fullZeroBytes..][1..] == digest[fullZeroBytes + 1..];
    TopByte(digest[fullZeroBytes], 8 * (|digest| - fullZeroBytes - 1), Value(digest[fullZeroBytes + 1..]), 8 - remainingBits);
    ShiftedOut(digest[fullZeroBytes], 8 - remainingBits);
    ok := digest[fullZeroBytes] / Pow2(8 - remainingBits) == 0;
  }

  /** A byte shifted right is zero exactly when the byte is below the power shifted by. */
  lemma ShiftedOut(b: Byte, bits: nat)
    ensures Pow2(bits) > 0 && (b / Pow2(bits) == 0 <==> b < Pow2(bits))
  {
    QuotientBounds(b, Pow2(bits), 0);
  }
}
