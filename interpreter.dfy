/** The receiver's interpreter (MainActivity.timedTask, setState, resetTask):
    once a second the bits the analyzer queued are moved into a display
    buffer, which the current mode then shows, decodes as a word, or scores
    against the bit-error-rate test pattern. */
module Interpreter {
  import opened Common
  import opened Channel
  import opened Packer

  /** The activity's mode: Idle is `kNONE` (show the latest bits), Word is
      `kWORD` (receive a word), Ber is `kBER` (measure the bit error rate). */
  datatype State = Idle | Word | Ber

  /** The two buttons whose clicks change the mode. */
  datatype Button = WordButton | BerButton

  /** Bits shown while idle. */
  const WINDOW: nat := 16
  /** Length of the test pattern a bit-error-rate measurement expects. */
  const BER_LENGTH: nat := 200
  /** Fewest bits a measurement is scored on. */
  const BER_MINIMUM: nat := 180

  /** The display buffer and the text on screen. */
  datatype Screen = Screen(vis: seq<Bit>, text: string)

  function Abs(x: int): nat
  {
    if x < 0 then -x else x
  }

  // ---------------------------------------------------------------------
  // Idle: the last 16 bits, in groups of four

  /** The bits kept while idle: the last min(n, 16) of them, in order. */
  function Recent(vis: seq<Bit>): (r: seq<Bit>)
    ensures |r| == if |vis| < WINDOW then |vis| else WINDOW
    ensures r == vis[|vis| - |r|..]
  {
    if |vis| > WINDOW then vis[|vis| - WINDOW..] else vis
  }

  /** The idle display: each bit as its digit, with a space before every
      bit whose index is a positive multiple of 4. */
  function Spaced(bits: seq<Bit>): string
  {
    if bits == [] then ""
    else
      var i := |bits| - 1;
      Spaced(bits[..i]) + (if i > 0 && i % 4 == 0 then " " else "") + [DigitChar(bits[i])]
  }

  /** Where bit i of the idle display is shown. */
  function DigitPos(i: nat): nat
  {
    i + i / 4
  }

  /** Consecutive bits sit at consecutive positions, one further apart
      when a group of four starts; spaces fall at positions 4 mod 5. */
  lemma DigitPosStep(i: nat)
    ensures DigitPos(i) % 5 != 4
    ensures i > 0 ==> DigitPos(i) == DigitPos(i - 1) + 1 + (if i % 4 == 0 then 1 else 0)
    ensures i > 0 && i % 4 == 0 ==> (DigitPos(i) - 1) % 5 == 4
  {
  }

  /** The idle display has one character per bit plus one space per
      started group of four after the first. */
  lemma {:induction false} SpacedLength(bits: seq<Bit>)
    ensures |Spaced(bits)| == if bits == [] then 0 else DigitPos(|bits| - 1) + 1
  {
    if bits != [] {
      var i := |bits| - 1;
      SpacedLength(bits[..i]);
      DigitPosStep(i);
    }
  }

  /** Groups of four digits are separated by single spaces: exactly every
      fifth character of the idle display is a space. */
  lemma {:induction false} SpacedSpaces(bits: seq<Bit>)
    ensures forall j :: 0 <= j < |Spaced(bits)| ==> (Spaced(bits)[j] == ' ' <==> j % 5 == 4)
  {
    if bits != [] {
      var i := |bits| - 1;
      var pre := bits[..i];
      SpacedSpaces(pre);
      SpacedLength(pre);
      DigitPosStep(i);
      var sep: string := if i > 0 && i % 4 == 0 then " " else "";
      var last := [DigitChar(bits[i])];
      var s := Spaced(bits);
      assert s == Spaced(pre) + sep + last;
      forall j | 0 <= j < |s|
        ensures s[j] == ' ' <==> j % 5 == 4
      {
        if j < |Spaced(pre)| {
          assert s[j] == Spaced(pre)[j];
        } else if j < DigitPos(i) {
          assert s[j] == ' ' && j == DigitPos(i) - 1;
        } else {
          assert s[j] == last[0];
        }
      }
    }
  }

  /** Bit i of the idle display is the digit at position i + i / 4. */
  lemma {:induction false} SpacedDigits(bits: seq<Bit>)
    ensures forall i :: 0 <= i < |bits| ==> DigitPos(i) < |Spaced(bits)|
    ensures forall i :: 0 <= i < |bits| ==> Spaced(bits)[DigitPos(i)] == DigitChar(bits[i])
  {
    if bits != [] {
      var i := |bits| - 1;
      var pre := bits[..i];
      SpacedDigits(pre);
      SpacedLength(pre);
      DigitPosStep(i);
      var s := Spaced(bits);
      assert s == Spaced(pre) + (if i > 0 && i % 4 == 0 then " " else "") + [DigitChar(bits[i])];
      forall k | 0 <= k < i
        ensures DigitPos(k) < |s| && s[DigitPos(k)] == DigitChar(bits[k])
      {
        assert pre[k] == bits[k];
        assert s[DigitPos(k)] == Spaced(pre)[DigitPos(k)];
      }
    }
  }

  // ---------------------------------------------------------------------
  // Word: framing, then packing

  /** A buffer one bit over a whole number of bytes has its oldest bit
      dropped (the bit the receiver caught before the word started). */
  function Framed(vis: seq<Bit>): (w: seq<Bit>)
    ensures |vis| % 8 == 1 ==> w == vis[1..]
    ensures |vis| % 8 != 1 ==> w == vis
  {
    if |vis| % 8 == 1 then vis[1..] else vis
  }

  function BadSizeText(size: nat): string
  {
    "Err: Bad Size " + NatToString(size)
  }

  /** What a tick in Word mode does after draining. */
  function WordTick(vis: seq<Bit>, newBits: bool, text: string,
                    decode: seq<Byte> -> string): Screen
  {
    if newBits || vis == [] then Screen(vis, text)
    else
      var framed := Framed(vis);
      if |framed| % 8 != 0 then Screen([], BadSizeText(|framed|))
      else Screen([], decode(Pack(framed)))
  }

  // ---------------------------------------------------------------------
  // Ber: scoring against the alternating test pattern

  /** The number of bits equal to the bit before them, the bit before the
      first being prev. */
  function Repeats(bits: seq<Bit>, prev: Bit): nat
  {
    if bits == [] then 0
    else (if bits[0] == prev then 1 else 0) + Repeats(bits[1..], bits[0])
  }

  /** n alternating bits starting with first. */
  function Alternating(n: nat, first: Bit): (s: seq<Bit>)
    ensures |s| == n
    ensures forall i :: 0 <= i < n ==> s[i] == if i % 2 == 0 then first else 1 - first
  {
    seq(n, i => if i % 2 == 0 then first else 1 - first)
  }

  /** The error count of a measurement: one per bit missing from or added
      to the 200, plus one per repeated bit (the first compared with 0). */
  function ErrorCount(vis: seq<Bit>): nat
  {
    Abs(|vis| - BER_LENGTH) + Repeats(vis, 0)
  }

  /** The reported rate: a flipped bit repeats twice and a dropped bit
      once, so the count is halved before dividing by 200. */
  function BitErrorRate(vis: seq<Bit>): (rate: real)
    ensures rate == ErrorCount(vis) as real / 400.0
  {
    (ErrorCount(vis) as real / 2.0) / BER_LENGTH as real
  }

  function ReceivedText(size: nat): string
  {
    "Received " + NatToString(size) + "/200"
  }

  function BerText(vis: seq<Bit>, format: real -> string): string
  {
    "BER: " + format(BitErrorRate(vis) * 100.0) + "%"
  }

  /** What a tick in Ber mode does after draining. */
  function BerTick(vis: seq<Bit>, newBits: bool, text: string,
                   format: real -> string): Screen
  {
    if newBits then Screen(vis, ReceivedText(|vis|))
    else if vis == [] || |vis| < BER_MINIMUM then Screen(vis, text)
    else Screen([], BerText(vis, format))
  }

  /** What a tick does after draining, by mode. */
  function Tick(state: State, vis: seq<Bit>, newBits: bool, text: string,
                decode: seq<Byte> -> string, format: real -> string): Screen
  {
    match state
    case Idle => Screen(Recent(vis), Spaced(Recent(vis)))
    case Word => WordTick(vis, newBits, text, decode)
    case Ber => BerTick(vis, newBits, text, format)
  }

  lemma AlternatingTail(n: nat, first: Bit)
    requires n > 0
    ensures Alternating(n, first)[1..] == Alternating(n - 1, 1 - first)
  {
  }

  /** A received pattern scores no repeats exactly when it alternates,
      starting with the opposite of prev. */
  lemma {:induction false} NoRepeatsIffAlternating(bits: seq<Bit>, prev: Bit)
    ensures Repeats(bits, prev) == 0 <==> bits == Alternating(|bits|, 1 - prev)
  {
    if bits != [] {
      var n := |bits|;
      NoRepeatsIffAlternating(bits[1..], bits[0]);
      AlternatingTail(n, 1 - prev);
      if Repeats(bits, prev) == 0 {
        var a := Alternating(n, 1 - prev);
        assert bits[1..] == Alternating(n - 1, prev);
        forall i | 0 <= i < n
          ensures bits[i] == a[i]
        {
          if i > 0 {
            assert bits[i] == bits[1..][i - 1];
          }
        }
      }
    }
  }

  /** s with bit k inverted. */
  function Flip(s: seq<Bit>, k: nat): (f: seq<Bit>)
    requires k < |s|
    ensures |f| == |s| && f[k] == 1 - s[k]
    ensures forall i :: 0 <= i < |s| && i != k ==> f[i] == s[i]
  {
    s[k := 1 - s[k]]
  }

  /** One flipped bit anywhere but at the very end of an alternating
      pattern is two repeats. */
  lemma {:induction false} FlipRepeatsTwice(n: nat, prev: Bit, k: nat)
    requires k + 1 < n
    ensures Repeats(Flip(Alternating(n, 1 - prev), k), prev) == 2
  {
    var flipped := Flip(Alternating(n, 1 - prev), k);
    AlternatingTail(n, 1 - prev);
    if k == 0 {
      assert flipped[1..] == Alternating(n - 1, prev);
      AlternatingTail(n - 1, prev);
      NoRepeatsIffAlternating(Alternating(n - 2, 1 - prev), prev);
    } else {
      FlipRepeatsTwice(n - 1, 1 - prev, k - 1);
      assert flipped[1..] == Flip(Alternating(n - 1, prev), k - 1);
    }
  }

  /** One bit dropped anywhere but at the very end of an alternating
      pattern is one repeat. */
  lemma {:induction false} DropRepeatsOnce(n: nat, prev: Bit, k: nat)
    requires k + 1 < n
    ensures Repeats(Alternating(n, 1 - prev)[..k] + Alternating(n, 1 - prev)[k + 1..], prev) == 1
  {
    var a := Alternating(n, 1 - prev);
    var dropped := a[..k] + a[k + 1..];
    AlternatingTail(n, 1 - prev);
    if k == 0 {
      assert dropped == Alternating(n - 1, prev);
      AlternatingTail(n - 1, prev);
      NoRepeatsIffAlternating(Alternating(n - 2, 1 - prev), prev);
    } else {
      var b := Alternating(n - 1, prev);
      DropRepeatsOnce(n - 1, 1 - prev, k - 1);
      assert dropped[1..] == b[..k - 1] + b[k..];
    }
  }

  // ---------------------------------------------------------------------
  // Mode changes

  /** The mode after a button asks for `requested`: asking for the current
      mode returns to Idle, asking for another mode switches to it. */
  function NextState(current: State, requested: State): (next: State)
    ensures next == Idle || next == requested
    ensures next == requested <==> current != requested || requested == Idle
  {
    if current == requested then Idle else requested
  }

  /** The mode each button asks for. */
  function Requested(button: Button): State
  {
    match button
    case WordButton => Word
    case BerButton => Ber
  }

  /** Clicking the same button twice from Idle returns to Idle. */
  lemma ClickTwiceCancels(button: Button)
    ensures NextState(NextState(Idle, Requested(button)), Requested(button)) == Idle
  {
  }

  /** The idle display loop of `timedTask`: each bit's digit, with a space
      before every index that is a positive multiple of 4. */
  method Display(bits: seq<Bit>) returns (text: string)
    ensures text == Spaced(bits)
  {
    text := "";
    var i := 0;
    while i < |bits|
      invariant 0 <= i <= |bits|
      invariant text == Spaced(bits[..i])
    {
      assert bits[..i + 1][..i] == bits[..i];
      if i > 0 && i % 4 == 0 {
        text := text + " ";
      }
      text := text + [DigitChar(bits[i])];
      i := i + 1;
    }
    assert bits[..i] == bits;
  }

  class MainActivity {
    var state: State
    /** The bits the analyzer has decoded and the interpreter has not yet
        moved; shared with the analyzer. */
    const bitQueue: BitQueue
    /** The display buffer (`visQueue`). */
    var visQueue: seq<Bit>
    /** The text of the bit display (`mBitText`). */
    var bitText: string
    /** `new String(bytes, StandardCharsets.UTF_8)`. */
    const decodeUtf8: seq<Byte> -> string
    /** The text StringBuilder.append(double) writes for a double. */
    const formatDouble: real -> string

    constructor(queue: BitQueue, decode: seq<Byte> -> string, format: real -> string)
      ensures state == Idle && visQueue == [] && bitText == ""
      ensures bitQueue == queue && decodeUtf8 == decode && formatDouble == format
    {
      state := Idle;
      bitQueue := queue;
      visQueue := [];
      bitText := "";
      decodeUtf8 := decode;
      formatDouble := format;
    }

    /** `timedTask`: drain the queue, then act by mode. */
    method TimedTask()
      modifies this, bitQueue
      ensures bitQueue.items == [] && state == old(state)
      ensures Screen(visQueue, bitText)
           == Tick(state, old(visQueue) + old(bitQueue.items), old(bitQueue.items) != [],
                   old(bitText), decodeUtf8, formatDouble)
    {
      var newBits := Drain();
      if state == Idle {
        ShowRecentBits();
      } else if state == Word {
        ReadWord(newBits);
      } else {
        MeasureBer(newBits);
      }
    }

    /** Moves every queued bit, in order, to the display buffer. */
    method Drain() returns (newBits: bool)
      modifies this, bitQueue
      ensures visQueue == old(visQueue) + old(bitQueue.items) && bitQueue.items == []
      ensures newBits <==> old(bitQueue.items) != []
      ensures state == old(state) && bitText == old(bitText)
    {
      newBits := false;
      var empty := bitQueue.IsEmpty();
      while !empty
        invariant empty <==> bitQueue.items == []
        invariant visQueue + bitQueue.items == old(visQueue) + old(bitQueue.items)
        invariant newBits <==> old(bitQueue.items) != [] && visQueue != old(visQueue)
        invariant visQueue == old(visQueue) ==> bitQueue.items == old(bitQueue.items)
        invariant state == old(state) && bitText == old(bitText)
        decreases |bitQueue.items|
      {
        newBits := true;
        var head := bitQueue.Poll();
        visQueue := visQueue + [head.value];
        empty := bitQueue.IsEmpty();
      }
    }

    /** Idle: keep the last 16 bits and show them in groups of four. */
    method ShowRecentBits()
      modifies this
      ensures visQueue == Recent(old(visQueue)) && bitText == Spaced(visQueue)
      ensures state == old(state)
    {
      ghost var all := visQueue;
      while |visQueue| > WINDOW
        invariant visQueue == all[|all| - |visQueue|..]
        invariant |all| > WINDOW ==> |visQueue| >= WINDOW
        invariant |all| <= WINDOW ==> visQueue == all
        invariant state == old(state)
      {
        visQueue := visQueue[1..];
      }
      bitText := Display(visQueue);
    }

    /** Word: once no bits arrived during the last second, drop a leading
        stray bit, then either report a bad size or show the decoded bytes;
        the buffer is cleared either way. */
    method ReadWord(newBits: bool)
      modifies this
      ensures Screen(visQueue, bitText) == WordTick(old(visQueue), newBits, old(bitText), decodeUtf8)
      ensures state == old(state)
    {
      if newBits {
        return;
      }
      if visQueue == [] {
        return;
      }
      if |visQueue| % 8 == 1 {
        visQueue := visQueue[1..];
      }
      if |visQueue| % 8 != 0 {
        bitText := BadSizeText(|visQueue|);
        visQueue := [];
        return;
      }
      var bytes := EncodeToByteArray(visQueue);
      bitText := decodeUtf8(bytes[..]);
      visQueue := [];
    }

    /** Ber: report progress while bits arrive; once they stop and at least
        180 are buffered, score them and show the rate as a percentage. */
    method MeasureBer(newBits: bool)
      modifies this
      ensures Screen(visQueue, bitText) == BerTick(old(visQueue), newBits, old(bitText), formatDouble)
      ensures state == old(state)
    {
      if newBits {
        bitText := ReceivedText(|visQueue|);
        return;
      }
      if visQueue == [] {
        return;
      }
      if |visQueue| < BER_MINIMUM {
        return;
      }
      ghost var all := visQueue;
      var errCount: int := Abs(|visQueue| - BER_LENGTH);
      var prevBit: Bit := 0;
      while visQueue != []
        invariant errCount + Repeats(visQueue, prevBit) == ErrorCount(all)
        invariant state == old(state)
        decreases |visQueue|
      {
        var bit := visQueue[0];
        visQueue := visQueue[1..];
        if bit == prevBit {
          errCount := errCount + 1;
        }
        prevBit := bit;
      }
      var halved := errCount as real / 2.0;
      var ber := halved / BER_LENGTH as real;
      bitText := "BER: " + formatDouble(ber * 100.0) + "%";
    }

    /** `setState`: asking for the current mode returns to Idle; either way
        the queues and the text are reset. */
    method SetState(requested: State)
      modifies this, bitQueue
      ensures state == NextState(old(state), requested)
      ensures bitQueue.items == [] && visQueue == [] && bitText == ""
    {
      var s := requested;
      if state == s {
        s := Idle;
      }
      state := s;
      ResetTask();
    }

    /** `resetTask`: empties both queues and the text. */
    method ResetTask()
      modifies this, bitQueue
      ensures bitQueue.items == [] && visQueue == [] && bitText == ""
      ensures state == old(state)
    {
      bitQueue.Clear();
      visQueue := [];
      bitText := "";
    }

    /** `onClick`: each button asks for its mode. */
    method OnClick(button: Button)
      modifies this, bitQueue
      ensures state == NextState(old(state), Requested(button))
      ensures bitQueue.items == [] && visQueue == [] && bitText == ""
    {
      if button == WordButton {
        SetState(Word);
      } else {
        SetState(Ber);
      }
    }
  }
}
