/** Values shared by the receiver and the transmitter: bits, bytes, binary
    values read most-significant-bit first, and decimal rendering of counts. */
module Common {

  /** A bit as both programs hold it: the integer 0 or 1. */
  type Bit = b: int | 0 <= b <= 1

  /** A byte as its unsigned value. Java's `(byte)` cast keeps the low 8 bits
      of an int; this model reads those 8 bits as 0..255. */
  type Byte = x: int | 0 <= x < 256

  datatype Option<T> = None | Some(value: T)

  function Pow2(n: nat): (p: nat)
    ensures p >= 1
  {
    if n == 0 then 1 else 2 * Pow2(n - 1)
  }

  lemma {:induction false} Pow2Add(a: nat, b: nat)
    ensures Pow2(a + b) == Pow2(a) * Pow2(b)
  {
    if b > 0 {
      Pow2Add(a, b - 1);
      calc {
        Pow2(a + b);
        2 * Pow2(a + b - 1);
        2 * (Pow2(a) * Pow2(b - 1));
        Pow2(a) * (2 * Pow2(b - 1));
        Pow2(a) * Pow2(b);
      }
    }
  }

  /** Powers of two grow with the exponent. */
  lemma Pow2Monotone(a: nat, b: nat)
    ensures a <= b ==> Pow2(a) <= Pow2(b)
  {
    if a <= b {
      Pow2Add(a, b - a);
    }
  }

  /** x shifted left by n bit positions (Java's and Python's `<<` on a
      non-negative value, before any truncation). */
  function ShiftLeft(x: int, n: nat): int
    decreases n
  {
    if n == 0 then x else ShiftLeft(2 * x, n - 1)
  }

  lemma {:induction false} ShiftLeftIsMul(x: int, n: nat)
    decreases n
    ensures ShiftLeft(x, n) == x * Pow2(n)
  {
    if n > 0 {
      ShiftLeftIsMul(2 * x, n - 1);
      assert (2 * x) * Pow2(n - 1) == x * (2 * Pow2(n - 1));
    }
  }

  /** n zero bits. */
  function Zeros(n: nat): (z: seq<Bit>)
    ensures |z| == n && forall i :: 0 <= i < n ==> z[i] == 0
  {
    seq(n, _ => 0)
  }

  /** The value of a bit string read as a binary number, first bit most
      significant: appending a bit doubles the value and adds the bit. */
  function Val(s: seq<Bit>): (v: nat)
    ensures v < Pow2(|s|)
  {
    if s == [] then 0 else 2 * Val(s[..|s| - 1]) + s[|s| - 1]
  }

  /** Independent reading of the same value: bit j of an n-bit string
      weighs 2^(n-1-j), so the first bit is the most significant. */
  function Weighted(s: seq<Bit>): nat
  {
    if s == [] then 0
    else (if s[0] == 1 then Pow2(|s| - 1) else 0) + Weighted(s[1..])
  }

  lemma {:induction false} ValAppend(a: seq<Bit>, b: seq<Bit>)
    ensures Val(a + b) == Val(a) * Pow2(|b|) + Val(b)
  {
    if b == [] {
      assert a + b == a;
    } else {
      var b' := b[..|b| - 1];
      var last := b[|b| - 1];
      ValAppend(a, b');
      assert (a + b)[..|a + b| - 1] == a + b';
      assert Val(a + b) == 2 * Val(a + b') + last;
      assert Val(b) == 2 * Val(b') + last;
      assert Pow2(|b|) == 2 * Pow2(|b'|);
      ShiftStep(Val(a), Pow2(|b'|), Val(b'), last);
    }
  }

  lemma ShiftStep(v: int, p: int, w: int, x: int)
    ensures 2 * (v * p + w) + x == v * (2 * p) + (2 * w + x)
  {
  }

  lemma ValSingle(x: Bit)
    ensures Val([x]) == x
  {
    assert [x][..0] == [];
  }

  /** The two readings agree: Val is the MSB-first weighted sum. */
  lemma {:induction false} ValIsWeighted(s: seq<Bit>)
    ensures Val(s) == Weighted(s)
  {
    if s != [] {
      var head := if s[0] == 1 then Pow2(|s| - 1) else 0;
      assert Val(s) == head + Val(s[1..]) by {
        assert [s[0]] + s[1..] == s;
        ValAppend([s[0]], s[1..]);
        ValSingle(s[0]);
      }
      ValIsWeighted(s[1..]);
    }
  }

  lemma {:induction false} ValZeros(n: nat)
    ensures Val(Zeros(n)) == 0
  {
    if n > 0 {
      assert Zeros(n)[..n - 1] == Zeros(n - 1);
      ValZeros(n - 1);
    }
  }

  /** Leading zeros do not change a value. */
  lemma ValLeadingZeros(n: nat, s: seq<Bit>)
    ensures Val(Zeros(n) + s) == Val(s)
  {
    ValAppend(Zeros(n), s);
    ValZeros(n);
  }

  /** Trailing zeros shift a value left. */
  lemma ValTrailingZeros(s: seq<Bit>, n: nat)
    ensures Val(s + Zeros(n)) == Val(s) * Pow2(n)
  {
    ValAppend(s, Zeros(n));
    ValZeros(n);
  }

  /** The low 8 bits of a value are the value of its last 8 bits. */
  lemma LowByte(s: seq<Bit>)
    requires |s| >= 8
    ensures Val(s) % 256 == Val(s[|s| - 8..])
  {
    var hi, lo := s[..|s| - 8], s[|s| - 8..];
    var a, b := Val(hi), Val(lo);
    assert Val(s) == a * 256 + b by {
      assert hi + lo == s;
      ValAppend(hi, lo);
      Pow2Eight();
    }
    assert b < 256 by {
      Pow2Eight();
    }
    ModAfterShift(a, b);
  }

  lemma Pow2Eight()
    ensures Pow2(8) == 256
  {
  }

  lemma ModAfterShift(x: int, y: int)
    requires 0 <= y < 256
    ensures (x * 256 + y) % 256 == y
  {
  }

  /** The n-bit binary expansion of x, most significant bit first (the
      low n bits of x when x does not fit). */
  function Bits(x: nat, n: nat): (s: seq<Bit>)
    ensures |s| == n
  {
    if n == 0 then [] else Bits(x / 2, n - 1) + [x % 2]
  }

  /** Expanding a value that fits in n bits and reading it back gives the
      value. */
  lemma {:induction false} ValOfBits(x: nat, n: nat)
    requires x < Pow2(n)
    ensures Val(Bits(x, n)) == x
  {
    if n > 0 {
      ValOfBits(x / 2, n - 1);
      var s := Bits(x, n);
      assert s[..n - 1] == Bits(x / 2, n - 1);
    }
  }

  /** Reading a bit string and expanding the value to the same width gives
      the bit string back. */
  lemma {:induction false} BitsOfVal(s: seq<Bit>)
    ensures Bits(Val(s), |s|) == s
  {
    if s != [] {
      var n := |s|;
      BitsOfVal(s[..n - 1]);
      assert Val(s) / 2 == Val(s[..n - 1]);
      assert s[..n - 1] + [s[n - 1]] == s;
    }
  }

  function DigitChar(d: nat): char
    requires d < 10
  {
    ('0' as int + d) as char
  }

  /** Decimal text of a count, as Java's StringBuilder.append(int) writes a
      non-negative int. */
  function NatToString(n: nat): (s: string)
    ensures |s| >= 1 && forall i :: 0 <= i < |s| ==> '0' <= s[i] <= '9'
    ensures s[0] == '0' ==> n == 0 && |s| == 1
  {
    if n < 10 then [DigitChar(n)] else NatToString(n / 10) + [DigitChar(n % 10)]
  }

  /** Reads decimal digits back into a number. */
  function DecimalValue(s: string): nat
    requires forall i :: 0 <= i < |s| ==> '0' <= s[i] <= '9'
  {
    if s == [] then 0
    else 10 * DecimalValue(s[..|s| - 1]) + (s[|s| - 1] as int - '0' as int)
  }

  lemma {:induction false} NatToStringRoundTrip(n: nat)
    ensures DecimalValue(NatToString(n)) == n
  {
    if n >= 10 {
      NatToStringRoundTrip(n / 10);
      var s := NatToString(n);
      assert s[..|s| - 1] == NatToString(n / 10);
    }
  }
}
