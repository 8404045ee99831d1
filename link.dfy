/** The link end to end: what the transmitter's bits become at the
    receiver, assuming every bit arrives (the analyzer's vote is correct and
    none is lost) unless a lemma says otherwise. */
module Link {
  import opened Common
  import opened Packer
  import opened Interpreter
  import opened Transmitter

  /** The byte codes of a string whose characters are all below 256. */
  function Codes(s: string): (codes: seq<Byte>)
    requires Narrow(s)
    ensures |codes| == |s| && forall i :: 0 <= i < |s| ==> codes[i] == s[i] as int
  {
    seq(|s|, i requires 0 <= i < |s| => s[i] as int)
  }

  /** Unpacking distributes over concatenation. */
  lemma {:induction false} UnpackAppend(a: seq<Byte>, b: seq<Byte>)
    ensures Unpack(a + b) == Unpack(a) + Unpack(b)
  {
    if a != [] {
      UnpackAppend(a[1..], b);
      assert (a + b)[0] == a[0] && (a + b)[1..] == a[1..] + b;
    } else {
      assert a + b == b;
    }
  }

  /** The codes of a string are the codes of all but its last character,
      then the last one's code. */
  lemma CodesSnoc(s: string)
    requires Narrow(s) && s != []
    ensures Codes(s) == Codes(s[..|s| - 1]) + [s[|s| - 1] as int]
  {
    var n := |s| - 1;
    var front := Codes(s[..n]);
    var both := front + [s[n] as int];
    forall i | 0 <= i < |s|
      ensures Codes(s)[i] == both[i]
    {
      if i < n {
        assert both[i] == front[i] == s[..n][i] as int;
      }
    }
  }

  /** `tobits` of a narrow string is the 8-bit expansion of its codes. */
  lemma {:induction false} BitsOfCodes(s: string)
    requires Narrow(s)
    ensures BitsOf(s) == Unpack(Codes(s))
  {
    if s != [] {
      var n := |s| - 1;
      BitsOfCodes(s[..n]);
      CharBitsOfByte(s[n]);
      CodesSnoc(s);
      UnpackAppend(Codes(s[..n]), [s[n] as int]);
    }
  }

  /** The receiver's packing undoes the transmitter's expansion: a narrow
      string's bits are 8 per character and pack back to its codes. */
  lemma RoundTrip(s: string)
    requires Narrow(s)
    ensures |BitsOf(s)| == 8 * |s|
    ensures Pack(BitsOf(s)) == Codes(s)
  {
    BitsOfCodes(s);
    PackUnpack(Codes(s));
  }

  /** Once a sent word's bits have all arrived and a second passes without
      new bits, Word mode clears the buffer and shows the decoding of the
      word's codes. */
  lemma WordShowsSentText(s: string, text: string, decode: seq<Byte> -> string)
    requires Narrow(s) && s != []
    ensures WordTick(BitsOf(s), false, text, decode) == Screen([], decode(Codes(s)))
  {
    var bits := BitsOf(s);
    RoundTrip(s);
    WholeBytes(bits, |s|);
    assert Framed(bits) == bits;
  }

  lemma WholeBytes(bits: seq<Bit>, n: nat)
    requires |bits| == 8 * n
    ensures |bits| % 8 == 0 && (|bits| + 1) % 8 == 1
    ensures |bits| != 0 <==> n != 0
  {
  }

  /** The same holds when one stray bit was caught before the word: the
      buffer is one bit over whole bytes and that bit is dropped. */
  lemma WordDropsStrayBit(s: string, stray: Bit, text: string, decode: seq<Byte> -> string)
    requires Narrow(s)
    ensures WordTick([stray] + BitsOf(s), false, text, decode) == Screen([], decode(Codes(s)))
  {
    var bits := BitsOf(s);
    RoundTrip(s);
    WholeBytes(bits, |s|);
    StrayBitDropped(bits, stray);
  }

  /** Framing a buffer of whole bytes behind one stray bit gives the whole
      bytes back. */
  lemma StrayBitDropped(bits: seq<Bit>, stray: Bit)
    requires |bits| % 8 == 0
    ensures Framed([stray] + bits) == bits
  {
    assert ([stray] + bits)[1..] == bits;
  }

  /** The transmitter's 200-bit test pattern is the alternating pattern
      starting with 1 that the receiver scores as error-free. */
  lemma BerPatternIsAlternating()
    ensures BerPattern(BER_BITS) == Alternating(BER_LENGTH, 1)
  {
    BerPatternAlternates(BER_BITS);
  }

  /** Received intact, the test pattern scores no errors and a 0 rate. */
  lemma IntactPatternScoresZero(text: string, format: real -> string)
    ensures ErrorCount(BerPattern(BER_BITS)) == 0 && BitErrorRate(BerPattern(BER_BITS)) == 0.0
    ensures BerTick(BerPattern(BER_BITS), false, text, format) == Screen([], "BER: " + format(0.0) + "%")
  {
    BerPatternIsAlternating();
    NoRepeatsIffAlternating(BerPattern(BER_BITS), 0);
  }

  /** One bit of the test pattern received inverted (any but the last)
      reads as a 0.5 % rate. */
  lemma FlippedBitReadsHalfPercent(k: nat)
    requires k + 1 < BER_BITS
    ensures BitErrorRate(Flip(BerPattern(BER_BITS), k)) * 100.0 == 0.5
  {
    BerPatternIsAlternating();
    FlipRepeatsTwice(BER_LENGTH, 0, k);
  }

  /** One bit of the test pattern lost (any but the last) also reads as a
      0.5 % rate: one missing bit plus one repeat. */
  lemma DroppedBitReadsHalfPercent(k: nat)
    requires k + 1 < BER_BITS
    ensures BitErrorRate(BerPattern(BER_BITS)[..k] + BerPattern(BER_BITS)[k + 1..]) * 100.0 == 0.5
  {
    BerPatternIsAlternating();
    DropRepeatsOnce(BER_LENGTH, 0, k);
  }
}
