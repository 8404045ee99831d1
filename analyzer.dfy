/** The receiver's frame analyzer (MainActivity.HiLightAnalyzer): a window of
    the last 12 luminance samples, a pool of 12 per-frame symbols, and a
    majority vote that turns every 12 frames into at most one bit.

    The luminance average of a camera frame and the powers of the 15 Hz and
    20 Hz bins of the window's spectrum are inputs here; the camera and the
    FFT are not part of this model. */
module Analyzer {
  import opened Common
  import opened Channel

  /** Samples in the window and symbols in the pool. */
  const FFT_SIZE: nat := 12
  /** Power (dB) a carrier needs before a frame is classified at all. */
  const THRESH: real := 6.0
  /** Votes a bit needs in the pool before it is emitted. */
  const MAJORITY: nat := 6
  /** The frame counter runs modulo the camera's 60 frames per second. */
  const FRAMES: nat := 60

  /** A frame's symbol: 0 (15 Hz dominates), 1 (20 Hz dominates) or
      AMBIGUOUS (neither carrier reaches the threshold). */
  type Symbol = s: int | 0 <= s <= 2
  const AMBIGUOUS: Symbol := 2

  /** Classification of one frame from the powers of the 15 Hz and 20 Hz
      bins: the stronger carrier wins when either is at or above the
      threshold, a tie going to 1. Each symbol says which carrier was above
      the threshold and at least as strong as the other. */
  function Classify(p15: real, p20: real): (s: Symbol)
    ensures s == 0 ==> p15 >= THRESH && p15 > p20
    ensures s == 1 ==> p20 >= THRESH && p20 >= p15
    ensures s == AMBIGUOUS ==> p15 < THRESH && p20 < THRESH
  {
    if p15 >= THRESH || p20 >= THRESH then
      (if p15 > p20 then 0 else 1)
    else AMBIGUOUS
  }

  /** How many slots of the pool hold v. */
  function Occurrences(pool: seq<Symbol>, v: Symbol): (n: nat)
    ensures n == multiset(pool)[v]
  {
    if pool == [] then 0
    else
      assert pool == pool[..|pool| - 1] + [pool[|pool| - 1]];
      Occurrences(pool[..|pool| - 1], v) + (if pool[|pool| - 1] == v then 1 else 0)
  }

  /** The majority vote over the pool: a bit is emitted when 0 or 1 holds at
      least MAJORITY slots; the emitted bit then holds at least MAJORITY
      slots and no fewer than the other bit, and a tie goes to 0. */
  function Majority(pool: seq<Symbol>): (bit: Option<Bit>)
    ensures bit.Some? <==> Occurrences(pool, 0) >= MAJORITY || Occurrences(pool, 1) >= MAJORITY
    ensures bit.Some? ==> Occurrences(pool, bit.value) >= MAJORITY
    ensures bit.Some? ==> Occurrences(pool, bit.value) >= Occurrences(pool, 1 - bit.value)
    ensures bit == Some(1) ==> Occurrences(pool, 1) > Occurrences(pool, 0)
  {
    var count0, count1 := Occurrences(pool, 0), Occurrences(pool, 1);
    if count0 >= MAJORITY || count1 >= MAJORITY then
      Some(if count0 >= count1 then 0 else 1)
    else None
  }

  /** The bits a vote appends to the queue: none or one. */
  function Emitted(vote: Option<Bit>): seq<Bit>
  {
    match vote
    case None => []
    case Some(b) => [b]
  }

  /** Every slot holds one of the three symbols. */
  lemma {:induction false} OccurrencesTotal(pool: seq<Symbol>)
    ensures Occurrences(pool, 0) + Occurrences(pool, 1) + Occurrences(pool, AMBIGUOUS) == |pool|
  {
    if pool != [] {
      OccurrencesTotal(pool[..|pool| - 1]);
    }
  }

  /** A bit that holds more than half of the 12 slots is always the one
      emitted. */
  lemma StrictMajorityWins(pool: seq<Symbol>, b: Bit)
    requires |pool| == FFT_SIZE && Occurrences(pool, b) > FFT_SIZE / 2
    ensures Majority(pool) == Some(b)
  {
    OccurrencesTotal(pool);
  }

  /** A 12-slot pool in which both bits have the same count emits only when
      they hold six slots each, with no ambiguous frame, and then emits 0. */
  lemma TieGoesToZero(pool: seq<Symbol>)
    requires |pool| == FFT_SIZE && Occurrences(pool, 0) == Occurrences(pool, 1)
    requires Majority(pool).Some?
    ensures Occurrences(pool, 0) == MAJORITY && Occurrences(pool, AMBIGUOUS) == 0
    ensures Majority(pool) == Some(0)
  {
    OccurrencesTotal(pool);
  }

  /** The window after a sample: the new value in slot 0, every other slot
      taking its predecessor's old value, the oldest value dropped. */
  function Push(window: seq<real>, x: real): (w: seq<real>)
    requires |window| > 0
    ensures |w| == |window| && w[0] == x
    ensures forall i :: 1 <= i < |w| ==> w[i] == window[i - 1]
  {
    [x] + window[..|window| - 1]
  }

  /** The window after a run of samples, oldest first. */
  function PushAll(window: seq<real>, samples: seq<real>): (w: seq<real>)
    requires |window| > 0
    ensures |w| == |window|
  {
    if samples == [] then window
    else Push(PushAll(window, samples[..|samples| - 1]), samples[|samples| - 1])
  }

  function Reverse<T>(s: seq<T>): (r: seq<T>)
    ensures |r| == |s| && forall i :: 0 <= i < |s| ==> r[i] == s[|s| - 1 - i]
  {
    if s == [] then [] else [s[|s| - 1]] + Reverse(s[..|s| - 1])
  }

  /** After any run of samples the window holds the newest samples, newest
      first, followed by what is left of the old window. */
  lemma {:induction false} PushAllKeepsNewest(window: seq<real>, samples: seq<real>)
    requires |window| > 0
    ensures PushAll(window, samples) == (Reverse(samples) + window)[..|window|]
  {
    if samples != [] {
      var n := |samples|;
      PushAllKeepsNewest(window, samples[..n - 1]);
      var prev := PushAll(window, samples[..n - 1]);
      var w := PushAll(window, samples);
      var full := Reverse(samples) + window;
      var before := Reverse(samples[..n - 1]) + window;
      forall i | 0 <= i < |window|
        ensures w[i] == full[i]
      {
        if i > 0 {
          assert w[i] == prev[i - 1] == before[i - 1];
        }
      }
    }
  }

  /** Once at least 12 samples have arrived, the window is exactly the last
      12 of them, newest first, whatever it held at the start. */
  lemma WindowIsLastTwelve(window: seq<real>, samples: seq<real>)
    requires |window| == FFT_SIZE && |samples| >= FFT_SIZE
    ensures PushAll(window, samples) == Reverse(samples[|samples| - FFT_SIZE..])
  {
    PushAllKeepsNewest(window, samples);
    var last := samples[|samples| - FFT_SIZE..];
    forall i | 0 <= i < FFT_SIZE
      ensures PushAll(window, samples)[i] == Reverse(last)[i]
    {
      assert (Reverse(samples) + window)[i] == samples[|samples| - 1 - i];
    }
  }

  /** The tally loop of `analyze`: counts the 0 and 1 symbols of the pool. */
  method Tally(pool: array<Symbol>) returns (count0: nat, count1: nat)
    ensures count0 == Occurrences(pool[..], 0) && count1 == Occurrences(pool[..], 1)
  {
    count0, count1 := 0, 0;
    var i := 0;
    while i < pool.Length
      invariant 0 <= i <= pool.Length
      invariant count0 == Occurrences(pool[..i], 0) && count1 == Occurrences(pool[..i], 1)
    {
      assert pool[..i + 1][..i] == pool[..i];
      if pool[i] == 0 {
        count0 := count0 + 1;
      } else if pool[i] == 1 {
        count1 := count1 + 1;
      }
      i := i + 1;
    }
    assert pool[..i] == pool[..];
  }

  class HiLightAnalyzer {
    /** Camera frame counter, modulo FRAMES. */
    var frame: nat
    /** The last FFT_SIZE luminance samples, newest in slot 0. */
    const luminData: array<real>
    /** The symbol of each of the last FFT_SIZE frames, at slot frame % 12. */
    const bitPool: array<Symbol>
    /** Where decoded bits go: the activity's shared bit queue. */
    const extQueue: BitQueue

    ghost predicate Valid()
      reads this
    {
      luminData.Length == FFT_SIZE && bitPool.Length == FFT_SIZE && frame < FRAMES
    }

    /** The window starts as all zeros and the pool as all ambiguous. */
    constructor(extQ: BitQueue)
      ensures Valid() && fresh(luminData) && fresh(bitPool)
      ensures luminData[..] == seq(FFT_SIZE, _ => 0.0)
      ensures bitPool[..] == seq(FFT_SIZE, _ => AMBIGUOUS)
      ensures frame == 0 && extQueue == extQ
    {
      frame := 0;
      luminData := new real[FFT_SIZE];
      bitPool := new Symbol[FFT_SIZE];
      extQueue := extQ;
      new;
      var i := 0;
      while i < FFT_SIZE
        invariant 0 <= i <= FFT_SIZE && frame == 0
        invariant forall j :: 0 <= j < i ==> luminData[j] == 0.0 && bitPool[j] == AMBIGUOUS
      {
        luminData[i] := 0.0;
        bitPool[i] := AMBIGUOUS;
        i := i + 1;
      }
    }

    /** One camera frame: shift the sample into the window, classify the
        frame into slot frame % 12 of the pool, vote on the pool when
        frame % 12 == 0, and advance the frame counter. */
    method Analyze(average: real, p15: real, p20: real)
      requires Valid()
      modifies this, luminData, bitPool, extQueue
      ensures Valid()
      ensures luminData[..] == Push(old(luminData[..]), average)
      ensures bitPool[..] == old(bitPool[..])[old(frame) % FFT_SIZE := Classify(p15, p20)]
      ensures extQueue.items == old(extQueue.items)
        + (if old(frame) % FFT_SIZE == 0 then Emitted(Majority(bitPool[..])) else [])
      ensures frame == (old(frame) + 1) % FRAMES
    {
      PushSample(average);

      var index := frame % FFT_SIZE;
      bitPool[index] := Classify(p15, p20);

      if frame % FFT_SIZE == 0 {
        Vote();
      }

      frame := (frame + 1) % FRAMES;
    }

    /** `System.arraycopy(luminData, 0, luminData, 1, 11)` followed by
        `luminData[0] = average`. */
    method PushSample(average: real)
      requires Valid()
      modifies luminData
      ensures luminData[..] == Push(old(luminData[..]), average)
    {
      // arraycopy copies as if through a temporary, which the simultaneous
      // forall assignment also does.
      forall i | 1 <= i < FFT_SIZE {
        luminData[i] := luminData[i - 1];
      }
      luminData[0] := average;
    }

    /** The tally and vote of `analyze`: appends the majority bit, if any,
        to the queue. */
    method Vote()
      requires Valid()
      modifies extQueue
      ensures extQueue.items == old(extQueue.items) + Emitted(Majority(bitPool[..]))
    {
      var count0, count1 := Tally(bitPool);
      if count0 >= MAJORITY || count1 >= MAJORITY {
        if count0 >= count1 {
          extQueue.Add(0);
        } else {
          extQueue.Add(1);
        }
      }
    }
  }
}
