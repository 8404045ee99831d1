/** The transmitter (transmit.py): a screen redrawn at 60 frames per second
    that is dimmed on the frames of a 15 Hz pattern to send 0 and of a 20 Hz
    pattern to send 1, one bit per 12 frames. Bits come from a forced
    toggle, a bit-error-rate test countdown or a queue of typed words. */
module Transmitter {
  import opened Common

  /** Frames per bit. */
  const PERIOD: nat := 12
  /** The frame counter runs modulo the 60 frames of a second. */
  const FRAMES: nat := 60
  /** Length of the bit-error-rate test pattern. */
  const BER_BITS: nat := 200
  /** The two dimming strengths key A switches between. */
  const DIM_LOW: real := 0.1
  const DIM_HIGH: real := 0.5

  /** The keys `on_key_press` tells apart. */
  datatype Key = Key0 | Key1 | KeyA | OtherKey

  // ---------------------------------------------------------------------
  // Keys

  /** Key 0 or 1 forces bit b, or stops forcing it when b is already
      forced. */
  function ToggleAfter(toggle: Option<Bit>, b: Bit): (t: Option<Bit>)
    ensures t == None <==> toggle == Some(b)
    ensures t != None ==> t == Some(b)
  {
    if toggle == Some(b) then None else Some(b)
  }

  /** Key A switches the dimming strength between 0.1 and 0.5. */
  function DimAfter(dalph: real): (d: real)
    ensures d == DIM_HIGH <==> dalph == DIM_LOW
    ensures d == DIM_LOW <==> dalph != DIM_LOW
  {
    if dalph == DIM_LOW then DIM_HIGH else DIM_LOW
  }

  /** Pressing the same bit key twice from an unforced state, or from the
      state it forces, restores that state; so does pressing A twice. */
  lemma PressTwiceRestores(toggle: Option<Bit>, b: Bit, dalph: real)
    requires toggle == None || toggle == Some(b)
    requires dalph == DIM_LOW || dalph == DIM_HIGH
    ensures ToggleAfter(ToggleAfter(toggle, b), b) == toggle
    ensures DimAfter(DimAfter(dalph)) == dalph
  {
  }

  // ---------------------------------------------------------------------
  // The bit source

  /** What `get_bit` reads and changes: the forced bit, the countdown of the
      test pattern and the queue of word bits. */
  datatype Source = Source(toggle: Option<Bit>, berCount: nat, queue: seq<Bit>)

  /** `get_bit`: a forced bit first, then the test pattern (the parity of
      the decremented countdown), then the head of the queue; nothing when
      all three are exhausted. */
  function NextBit(src: Source): (Option<Bit>, Source)
  {
    if src.toggle.Some? then (src.toggle, src)
    else if src.berCount > 0 then
      (Some((src.berCount - 1) % 2), src.(berCount := src.berCount - 1))
    else if src.queue == [] then (None, src)
    else (Some(src.queue[0]), src.(queue := src.queue[1..]))
  }

  /** The bits a run of `get_bit` calls returned and the source after it. */
  datatype Sent = Sent(bits: seq<Option<Bit>>, final: Source)

  /** n calls of `get_bit`. */
  function Run(src: Source, n: nat): (r: Sent)
    decreases n
    ensures |r.bits| == n
  {
    if n == 0 then Sent([], src)
    else
      var (bit, next) := NextBit(src);
      var rest := Run(next, n - 1);
      Sent([bit] + rest.bits, rest.final)
  }

  function Somes(bits: seq<Bit>): (s: seq<Option<Bit>>)
    ensures |s| == |bits| && forall i :: 0 <= i < |bits| ==> s[i] == Some(bits[i])
  {
    seq(|bits|, i requires 0 <= i < |bits| => Some(bits[i]))
  }

  /** The test pattern of a countdown from c: the parities of c-1 down to
      0. */
  function BerPattern(c: nat): (p: seq<Bit>)
    ensures |p| == c && forall i :: 0 <= i < c ==> p[i] == (c - 1 - i) % 2
  {
    seq(c, i requires 0 <= i < c => (c - 1 - i) % 2)
  }

  /** While a bit is forced, every call returns it and nothing else
      changes: the countdown and the queue wait. */
  lemma {:induction false} ToggleHolds(src: Source, n: nat)
    requires src.toggle.Some?
    ensures Run(src, n) == Sent(seq(n, _ => src.toggle), src)
  {
    if n > 0 {
      ToggleHolds(src, n - 1);
    }
  }

  /** With no bit forced, a countdown from c sends its c pattern bits (for
      c = 200: 1, 0, 1, 0, ..., 0) and leaves the queue untouched. */
  lemma {:induction false} BerCountdown(c: nat, queue: seq<Bit>)
    ensures Run(Source(None, c, queue), c) == Sent(Somes(BerPattern(c)), Source(None, 0, queue))
  {
    if c > 0 {
      BerCountdown(c - 1, queue);
      assert Somes(BerPattern(c)) == [Some((c - 1) % 2)] + Somes(BerPattern(c - 1));
    }
  }

  /** The test pattern alternates, ending with 0. */
  lemma BerPatternAlternates(c: nat)
    ensures forall i :: 0 <= i < c ==> BerPattern(c)[i] == if (c - i) % 2 == 0 then 1 else 0
    ensures forall i :: 0 <= i && i + 1 < c ==> BerPattern(c)[i] != BerPattern(c)[i + 1]
  {
    var p := BerPattern(c);
    forall i | 0 <= i < c
      ensures p[i] == if (c - i) % 2 == 0 then 1 else 0
    {
      assert (c - 1 - i) % 2 == 1 - (c - i) % 2;
    }
  }

  /** With no bit forced and no countdown, the queued bits go out in FIFO
      order, after which calls return nothing. */
  lemma {:induction false} QueueFifo(queue: seq<Bit>)
    ensures Run(Source(None, 0, queue), |queue|) == Sent(Somes(queue), Source(None, 0, []))
    ensures NextBit(Source(None, 0, [])) == (None, Source(None, 0, []))
  {
    if queue != [] {
      QueueFifo(queue[1..]);
      assert Somes(queue) == [Some(queue[0])] + Somes(queue[1..]);
    }
  }

  // ---------------------------------------------------------------------
  // The flash schedule

  /** Whether a frame is dimmed: bit 0 on frames 1 mod 4 (15 of 60), bit 1
      on frames 2 mod 3 (20 of 60), no bit never. */
  predicate Dimmed(bit: Option<Bit>, frame: nat)
  {
    (bit == Some(0) && frame % 4 == 1) || (bit == Some(1) && frame % 3 == 2)
  }

  /** The dimmed frames among frames start .. start + n - 1. */
  function DimCount(bit: Option<Bit>, start: nat, n: nat): nat
  {
    if n == 0 then 0
    else DimCount(bit, start, n - 1) + (if Dimmed(bit, start + n - 1) then 1 else 0)
  }

  /** Counting over consecutive stretches adds up. */
  lemma {:induction false} DimCountSplit(bit: Option<Bit>, start: nat, m: nat, n: nat)
    ensures DimCount(bit, start, m + n) == DimCount(bit, start, m) + DimCount(bit, start + m, n)
  {
    if n > 0 {
      DimCountSplit(bit, start, m, n - 1);
    }
  }

  /** The dimmed frames among the first f of a held bit: every fourth
      starting at frame 1 for 0, every third starting at frame 2 for 1. */
  lemma {:induction false} DimCountFromStart(f: nat)
    ensures DimCount(Some(0), 0, f) == (f + 2) / 4
    ensures DimCount(Some(1), 0, f) == f / 3
    ensures DimCount(None, 0, f) == 0
  {
    if f > 0 {
      DimCountFromStart(f - 1);
      QuarterStep(f - 1);
      ThirdStep(f - 1);
    }
  }

  /** Frame g is 1 mod 4 exactly when it raises the count of such frames. */
  lemma QuarterStep(g: nat)
    ensures (g + 3) / 4 == (g + 2) / 4 + (if g % 4 == 1 then 1 else 0)
  {
    var q := g / 4;
    assert g == 4 * q + g % 4;
  }

  /** Frame g is 2 mod 3 exactly when it raises the count of such frames. */
  lemma ThirdStep(g: nat)
    ensures (g + 1) / 3 == g / 3 + (if g % 3 == 2 then 1 else 0)
  {
  }

  /** Over each 12-frame bit period, bit 0 dims 3 frames, bit 1 dims 4 and
      no bit dims none. */
  lemma DimsPerPeriod(bit: Option<Bit>, j: nat)
    ensures DimCount(bit, PERIOD * j, PERIOD) == match bit
      case None => 0
      case Some(b) => if b == 0 then 3 else 4
  {
    var f := PERIOD * j;
    DimCountSplit(bit, 0, f, PERIOD);
    DimCountFromStart(f);
    DimCountFromStart(f + PERIOD);
    assert (f + 2) / 4 == 3 * j && (f + PERIOD + 2) / 4 == 3 * j + 3;
    assert f / 3 == 4 * j && (f + PERIOD) / 3 == 4 * j + 4;
  }

  /** A bit held for a whole second flickers at its carrier frequency: 15
      dimmed frames for 0, 20 for 1. */
  lemma DimsPerSecond()
    ensures DimCount(Some(0), 0, FRAMES) == 15
    ensures DimCount(Some(1), 0, FRAMES) == 20
  {
    DimCountFromStart(FRAMES);
  }

  // ---------------------------------------------------------------------
  // Characters to bits

  /** Python's `bin(n)[2:]`: the binary digits of n, most significant
      first, without leading zeros (a single 0 for 0). */
  function BinaryDigits(n: nat): (d: seq<Bit>)
    ensures |d| >= 1 && Val(d) == n
    ensures n > 0 ==> d[0] == 1
    ensures n == 0 ==> d == [0]
  {
    if n < 2 then [n]
    else
      var d := BinaryDigits(n / 2) + [n % 2];
      assert d[..|d| - 1] == BinaryDigits(n / 2);
      d
  }

  /** One character's bits in `tobits`: its binary digits, left-padded with
      zeros to 8 when shorter; a character whose code needs more than 8
      digits keeps all of them. */
  function CharBits(c: char): (bits: seq<Bit>)
    ensures Val(bits) == c as int && |bits| >= 8
    ensures |bits| > 8 ==> bits[0] == 1
  {
    var d := BinaryDigits(c as int);
    ValLeadingZeros(if |d| < 8 then 8 - |d| else 0, d);
    Zeros(if |d| < 8 then 8 - |d| else 0) + d
  }

  /** `tobits`: the characters' bits, one after another. */
  function BitsOf(s: string): (bits: seq<Bit>)
    ensures |bits| >= 8 * |s|
  {
    if s == [] then [] else BitsOf(s[..|s| - 1]) + CharBits(s[|s| - 1])
  }

  /** A string of characters with codes below 256. */
  predicate Narrow(s: string)
  {
    forall i :: 0 <= i < |s| ==> s[i] as int < 256
  }

  /** A value with a leading 1 bit is at least 2^(length - 1). */
  lemma LeadingOneBound(d: seq<Bit>)
    requires |d| >= 1 && d[0] == 1
    ensures Val(d) >= Pow2(|d| - 1)
  {
    assert d == [d[0]] + d[1..];
    ValAppend([d[0]], d[1..]);
    ValSingle(d[0]);
  }

  /** A value below 256 has at most 8 binary digits. */
  lemma DigitsOfByte(n: nat)
    requires n < 256
    ensures |BinaryDigits(n)| <= 8
  {
    var d := BinaryDigits(n);
    if n > 0 {
      LeadingOneBound(d);
      Pow2Monotone(8, |d| - 1);
      Pow2Eight();
    }
  }

  /** A character with a code below 256 becomes exactly its 8-bit
      expansion, most significant bit first. */
  lemma CharBitsOfByte(c: char)
    requires c as int < 256
    ensures CharBits(c) == Bits(c as int, 8)
  {
    DigitsOfByte(c as int);
    BitsOfVal(CharBits(c));
  }

  /** A character with a code of 256 or more becomes more than 8 bits, so
      the receiver's byte framing no longer lines up with it. */
  lemma WideCharBits(c: char)
    requires c as int >= 256
    ensures |CharBits(c)| > 8
  {
    var d := BinaryDigits(c as int);
    Pow2Eight();
    Pow2Monotone(|d|, 8);
  }

  /** The loop of `tobits`. */
  method ToBits(s: string) returns (result: seq<Bit>)
    ensures result == BitsOf(s)
  {
    result := [];
    var i := 0;
    while i < |s|
      invariant 0 <= i <= |s|
      invariant result == BitsOf(s[..i])
    {
      assert s[..i + 1][..i] == s[..i];
      result := result + CharBits(s[i]);
      i := i + 1;
    }
    assert s[..i] == s;
  }

  // ---------------------------------------------------------------------
  // The transmitter's state

  class Sender {
    /** Frame counter, modulo FRAMES (`frame`). */
    var frame: nat
    /** The bit being flashed (`active_bit`). */
    var activeBit: Option<Bit>
    /** The forced bit (`toggle`). */
    var toggle: Option<Bit>
    /** The dimming strength (`dalph`). */
    var dalph: real
    /** The test pattern countdown (`ber_count`). */
    var berCount: nat
    /** The queue of word bits (`q`). */
    var queue: seq<Bit>

    /** The part of the state `get_bit` works on. */
    function Src(): Source
      reads this
    {
      Source(toggle, berCount, queue)
    }

    ghost predicate Valid()
      reads this
    {
      frame < FRAMES && (dalph == DIM_LOW || dalph == DIM_HIGH)
    }

    constructor()
      ensures Valid() && frame == 0 && activeBit == None && dalph == DIM_LOW
      ensures Src() == Source(None, 0, [])
    {
      frame := 0;
      activeBit := None;
      toggle := None;
      dalph := DIM_LOW;
      berCount := 0;
      queue := [];
    }

    /** `on_key_press`. */
    method OnKeyPress(key: Key)
      requires Valid()
      modifies this
      ensures Valid()
      ensures toggle == match key
        case Key0 => ToggleAfter(old(toggle), 0)
        case Key1 => ToggleAfter(old(toggle), 1)
        case _ => old(toggle)
      ensures dalph == if key == KeyA then DimAfter(old(dalph)) else old(dalph)
      ensures frame == old(frame) && activeBit == old(activeBit)
      ensures berCount == old(berCount) && queue == old(queue)
    {
      if key == Key0 {
        if toggle == Some(0) {
          toggle := None;
        } else {
          toggle := Some(0);
        }
      } else if key == Key1 {
        if toggle == Some(1) {
          toggle := None;
        } else {
          toggle := Some(1);
        }
      } else if key == KeyA {
        if dalph == DIM_LOW {
          dalph := DIM_HIGH;
        } else {
          dalph := DIM_LOW;
        }
      }
    }

    /** `get_bit`. */
    method GetBit() returns (bit: Option<Bit>)
      modifies this
      ensures (bit, Src()) == NextBit(old(Src()))
      ensures frame == old(frame) && activeBit == old(activeBit) && dalph == old(dalph)
    {
      if toggle == Some(0) {
        return Some(0);
      } else if toggle == Some(1) {
        return Some(1);
      }
      if berCount > 0 {
        berCount := berCount - 1;
        return Some(berCount % 2);
      }
      if queue == [] {
        bit := None;
      } else {
        bit := Some(queue[0]);
        queue := queue[1..];
      }
    }

    /** The frame logic of `on_draw`: a new bit at the start of each
        12-frame period, the dimming alpha of this frame, the next frame. */
    method OnDraw() returns (alpha: real)
      requires Valid()
      modifies this
      ensures Valid()
      ensures old(frame) % PERIOD == 0 ==> (activeBit, Src()) == NextBit(old(Src()))
      ensures old(frame) % PERIOD != 0 ==> activeBit == old(activeBit) && Src() == old(Src())
      ensures alpha == if Dimmed(activeBit, old(frame)) then dalph else 0.0
      ensures frame == (old(frame) + 1) % FRAMES && dalph == old(dalph)
    {
      alpha := 0.0;
      if frame % PERIOD == 0 {
        activeBit := GetBit();
      }
      if activeBit == Some(0) {
        if frame % 4 == 1 {
          alpha := dalph;
        }
      } else if activeBit == Some(1) {
        if frame % 3 == 2 {
          alpha := dalph;
        }
      }
      frame := (frame + 1) % FRAMES;
    }

    /** One command of `word_input`: "quit" stops, "0" and "1" press the
        bit keys, "ber" starts the test pattern, anything else is queued as
        a word and ends any forced bit. */
    method WordInput(line: string) returns (quit: bool)
      requires Valid()
      modifies this
      ensures Valid()
      ensures quit <==> line == "quit"
      ensures frame == old(frame) && activeBit == old(activeBit) && dalph == old(dalph)
      ensures line == "quit" ==> Src() == old(Src())
      ensures line == "0" ==> Src() == old(Src()).(toggle := ToggleAfter(old(toggle), 0))
      ensures line == "1" ==> Src() == old(Src()).(toggle := ToggleAfter(old(toggle), 1))
      ensures line == "ber" ==> Src() == old(Src()).(berCount := BER_BITS)
      ensures line !in {"quit", "0", "1", "ber"} ==>
        Src() == Source(None, old(berCount), old(queue) + BitsOf(line))
    {
      quit := false;
      if line == "quit" {
        quit := true;
      } else if line == "0" {
        OnKeyPress(Key0);
      } else if line == "1" {
        OnKeyPress(Key1);
      } else if line == "ber" {
        berCount := BER_BITS;
      } else {
        var bits := ToBits(line);
        queue := queue + bits;
        toggle := None;
      }
    }
  }
}
