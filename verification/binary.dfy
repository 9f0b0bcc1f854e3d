/** Fixed-width binary strings as the simulator presents port values:
    most significant bit first, one `bool` per '0'/'1' character. */
module Binary {

  type Bits = seq<bool>

  /** A port value: the simulator never reports a zero-width port. */
  type Word = b: Bits | |b| > 0 witness [false]

  function Pow2(n: nat): (p: nat)
    ensures p >= 1
  {
    if n == 0 then 1 else 2 * Pow2(n - 1)
  }

  function BitValue(b: bool): nat
  {
    if b then 1 else 0
  }

  /** Unsigned big-endian value of a bit string, as Python's `int(s, 2)`. */
  function ToNat(b: Bits): (v: nat)
    ensures v < Pow2(|b|)
  {
    if |b| == 0 then 0 else 2 * ToNat(b[..|b| - 1]) + BitValue(b[|b| - 1])
  }

  /** Python's `format(v, "b")`: the shortest binary spelling, "0" for zero. */
  function Digits(v: nat): (b: Bits)
    ensures |b| >= 1
    ensures ToNat(b) == v
  {
    if v < 2 then [v == 1]
    else
      var b := Digits(v / 2) + [v % 2 == 1];
      assert b[..|b| - 1] == Digits(v / 2);
      b
  }

  function Zeros(n: nat): (z: Bits)
    ensures |z| == n
    ensures forall i :: 0 <= i < n ==> !z[i]
  {
    seq(n, i => false)
  }

  /** The `0{w}` fill of a format spec: left-pad with '0' up to width `w`. */
  function PadLeft(b: Bits, w: nat): Bits
  {
    if |b| < w then Zeros(w - |b|) + b else b
  }

  /** Python's slice `s[-w:]`; note that `-0` is `0`, so `w == 0` keeps all of `s`. */
  function TakeLast(s: Bits, w: nat): Bits
  {
    if w == 0 || w >= |s| then s else s[|s| - w..]
  }

  /** The string `_write_signal` hands to the simulator: `f"{v:0{w}b}"[-w:]`. */
  function Format(v: nat, w: nat): Bits
  {
    TakeLast(PadLeft(Digits(v), w), w)
  }

  /** The `w`-bit string that encodes `v` modulo 2^w, most significant bit
      first: the value a port of width `w` holds after `v` is written to it. */
  function Encode(v: nat, w: nat): (b: Word)
    requires w >= 1
    ensures |b| == w
    ensures ToNat(b) == v % Pow2(w)
    decreases w
  {
    if w == 1 then
      assert Pow2(1) == 2;
      [v % 2 == 1]
    else
      var b := Encode(v / 2, w - 1) + [v % 2 == 1];
      assert b[..w - 1] == Encode(v / 2, w - 1);
      HalveMod(v, Pow2(w - 1));
      b
  }

  /** Dropping the lowest bit of `v` and re-appending it commutes with reduction modulo 2p. */
  lemma HalveMod(v: nat, p: nat)
    requires p >= 1
    ensures 2 * ((v / 2) % p) + v % 2 == v % (2 * p)
  {
    var q := v / 2;
    var a := q / p;
    var b := q % p;
    assert q == a * p + b;
    assert v == a * (2 * p) + (2 * b + v % 2) by {
      assert a * (2 * p) == 2 * (a * p);
    }
    ModOfShifted(a, 2 * p, 2 * b + v % 2);
  }

  /** The value of a concatenation: the high part shifted past the low part. */
  lemma {:induction false} ToNatAppend(a: Bits, b: Bits)
    ensures ToNat(a + b) == ToNat(a) * Pow2(|b|) + ToNat(b)
    decreases |b|
  {
    if |b| == 0 {
      assert a + b == a;
    } else {
      var ab := a + b;
      var b' := b[..|b| - 1];
      assert ab[..|ab| - 1] == a + b';
      assert ab[|ab| - 1] == b[|b| - 1];
      ToNatAppend(a, b');
      assert Pow2(|b|) == 2 * Pow2(|b'|);
      Regroup(ToNat(a), Pow2(|b'|), ToNat(b'), BitValue(b[|b| - 1]));
    }
  }

  lemma {:induction false} ToNatZeros(n: nat)
    ensures ToNat(Zeros(n)) == 0
  {
    if n > 0 {
      assert Zeros(n)[..n - 1] == Zeros(n - 1);
      ToNatZeros(n - 1);
    }
  }

  /** Leading zeros do not change the value, and padding reaches at least width `w`. */
  lemma PadLeftValue(b: Bits, w: nat)
    ensures |PadLeft(b, w)| == if |b| < w then w else |b|
    ensures ToNat(PadLeft(b, w)) == ToNat(b)
  {
    if |b| < w {
      ToNatAppend(Zeros(w - |b|), b);
      ToNatZeros(w - |b|);
    }
  }

  lemma Regroup(x: int, p: int, y: int, c: int)
    ensures 2 * (x * p + y) + c == x * (2 * p) + (2 * y + c)
  {
  }

  lemma MulAtLeast(k: int, p: int)
    requires k >= 1 && p >= 0
    ensures k * p >= p
  {
  }

  lemma ModOfShifted(q: nat, p: nat, r: nat)
    requires 0 <= r < p
    ensures (q * p + r) % p == r
  {
    var x := q * p + r;
    var d := x / p;
    var m := x % p;
    assert x == d * p + m;
    assert (q - d) * p == m - r by {
      assert (q - d) * p == q * p - d * p;
    }
    if q > d {
      MulAtLeast(q - d, p);
    } else if q < d {
      MulAtLeast(d - q, p);
    }
  }

  /** Keeping the last `w` bits computes the value modulo 2^w. */
  lemma TakeLastValue(s: Bits, w: nat)
    requires 1 <= w <= |s|
    ensures |TakeLast(s, w)| == w
    ensures ToNat(TakeLast(s, w)) == ToNat(s) % Pow2(w)
  {
    var k := |s| - w;
    assert s == s[..k] + s[k..];
    ToNatAppend(s[..k], s[k..]);
    ModOfShifted(ToNat(s[..k]), Pow2(w), ToNat(s[k..]));
  }

  /** For every width `w >= 1` the written string is exactly `w` bits wide and
      encodes `v` modulo 2^w: high bits are dropped, never reported. */
  lemma FormatFits(v: nat, w: nat)
    requires w >= 1
    ensures |Format(v, w)| == w
    ensures ToNat(Format(v, w)) == v % Pow2(w)
  {
    PadLeftValue(Digits(v), w);
    TakeLastValue(PadLeft(Digits(v), w), w);
  }

  /** A zero width keeps the whole, unpadded binary spelling of `v`: the result is
      never zero bits wide, so the write does not match the port. */
  lemma FormatZeroWidth(v: nat)
    ensures Format(v, 0) == Digits(v)
    ensures |Format(v, 0)| >= 1 && ToNat(Format(v, 0)) == v
  {
  }

  lemma SmallMod(v: nat, p: nat)
    requires v < p
    ensures v % p == v
  {
    ModOfShifted(0, p, v);
  }

  /** Two strings of equal width with the same value are the same string. */
  lemma {:induction false} ToNatInjective(a: Bits, b: Bits)
    requires |a| == |b| && ToNat(a) == ToNat(b)
    ensures a == b
    decreases |a|
  {
    if |a| > 0 {
      var n := |a| - 1;
      var x := BitValue(a[n]);
      var y := BitValue(b[n]);
      assert 2 * ToNat(a[..n]) + x == 2 * ToNat(b[..n]) + y;
      assert x == y;
      assert a[n] == b[n];
      ToNatInjective(a[..n], b[..n]);
      assert a == a[..n] + [a[n]];
      assert b == b[..n] + [b[n]];
    }
  }

  /** The Python formatting expression computes exactly the `w`-bit encoding. */
  lemma FormatIsEncode(v: nat, w: nat)
    requires w >= 1
    ensures Format(v, w) == Encode(v, w)
  {
    FormatFits(v, w);
    ToNatInjective(Format(v, w), Encode(v, w));
  }

  /** Reading a port and writing the value back reproduces the same string. */
  lemma ReadThenEncode(b: Bits)
    requires |b| >= 1
    ensures Encode(ToNat(b), |b|) == b
  {
    SmallMod(ToNat(b), Pow2(|b|));
    ToNatInjective(Encode(ToNat(b), |b|), b);
  }

  /** Every port is wide enough to hold a 1. */
  lemma OneFits(w: nat)
    requires w >= 1
    ensures ToNat(Encode(1, w)) == 1
  {
    assert Pow2(w) == 2 * Pow2(w - 1);
    SmallMod(1, Pow2(w));
  }

  /** Writing then reading returns the value whenever it fits the width. */
  lemma EncodeRoundTrip(v: nat, w: nat)
    requires w >= 1 && v < Pow2(w)
    ensures ToNat(Encode(v, w)) == v
  {
    SmallMod(v, Pow2(w));
  }
}
