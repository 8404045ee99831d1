# HilightClone link model

HilightClone is a screen-to-camera optical link. The transmitter
(`transmit.py`) redraws a picture at 60 frames per second. For each bit it
dims the picture on the frames of a 15 Hz pattern (bit 0) or a 20 Hz pattern
(bit 1), holding each bit for 12 frames. The receiver (`MainActivity.java`)
classifies each camera frame by the power of those two carriers. Every 12
frames it takes a majority vote over the last 12 classifications and queues
a bit when 0 or 1 holds at least 6 of them. Once a second an interpreter turns the queued bits into
something on screen:

- in the idle mode, the latest 16 bits;
- in the word mode, the decoded text of a packed byte sequence;
- in the BER mode, a bit-error rate scored against a 200-bit alternating
  test pattern.

The model has one module per part of the system:

- `Common`: bits, bytes, binary values and decimal text.
- `Packer`: `encodeToByteArray`, proved against the specification `Pack`.
- `Channel`: the receiver's shared bit queue.
- `Analyzer`: the `HiLightAnalyzer` class, with its sample window, symbol pool
  and majority vote, over arrays.
- `Interpreter`: the `MainActivity` class, covering `timedTask`, `setState`,
  `resetTask` and `onClick`. Each mode's effect is a specification function
  (`Tick`), and the imperative methods are proved against it.
- `Transmitter`: the `Sender` class, covering `on_key_press`, `get_bit`, the
  frame logic of `on_draw` and one command of `word_input`. It also holds
  `tobits` and the specification of the bit source (`NextBit`, `Run`) and of
  the flash schedule (`Dimmed`, `DimCount`).
- `Link`: properties of both ends together. They cover the round trip
  `tobits`/`encodeToByteArray`, what word mode shows for a sent word, and how
  the receiver scores the transmitter's test pattern.

The link lemmas assume every bit arrives, unless a lemma says otherwise (an
extra, an inverted or a lost bit). The camera, the FFT and the vote's
accuracy are not part of this model.

Two facts about the source are worth stating.

**The error-free BER pattern.** The receiver compares the first bit with 0,
so a pattern scores no repeats exactly when it alternates starting with 1
(`NoRepeatsIffAlternating`). The transmitter's countdown sends 1, 0, 1, …, 0
(`BerCountdown`, `BerPatternIsAlternating`), so the two ends agree
(`IntactPatternScoresZero`). An alternating pattern that starts with 0 would
score one repeat.

**One error reads as 0.5 %.** One inverted bit adds two repeats
(`FlipRepeatsTwice`), and one lost bit adds one repeat plus one length error
(`DropRepeatsOnce`). Either way the error count is 2, which reads as 0.5 %.
This holds for any bit but the last, where an inverted or lost bit counts
only once.

## Model

| member | source | states |
|---|---|---|
| Common.ShiftLeftIsMul | app/src/main/java/com/ethankgordon/hilightclone/MainActivity.java:129 | shifting a value left by n bits multiplies it by 2^n |
| Common.NatToString | app/src/main/java/com/ethankgordon/hilightclone/MainActivity.java:162-164 | the text of a count is decimal digits with no leading zero, a single 0 standing for 0 |
| Common.NatToStringRoundTrip | app/src/main/java/com/ethankgordon/hilightclone/MainActivity.java:162-164 | the decimal text appended for a count reads back as that count |
| Packer.Pack | app/src/main/java/com/ethankgordon/hilightclone/MainActivity.java:116 | packing n bits gives ⌈n/8⌉ bytes, which hold between n and n+7 bits |
| Packer.UnpackPack | app/src/main/java/com/ethankgordon/hilightclone/MainActivity.java:115-133 | expanding the packed bytes gives every bit in order, first bit of each byte as its MSB, then the zero bits that left-align a trailing partial group |
| Packer.PackUnpack | app/src/main/java/com/ethankgordon/hilightclone/MainActivity.java:115-133 | packing the 8-bit expansions of whole bytes gives the bytes back |
| Packer.EncodeToByteArray | app/src/main/java/com/ethankgordon/hilightclone/MainActivity.java:115-133 | the loop fills a newly allocated array that is exactly the packing of the bits |
| Packer.RunningIsVal | app/src/main/java/com/ethankgordon/hilightclone/MainActivity.java:119-121 | after i steps the accumulator holds the binary value of the first i bits |
| Packer.CompletedByte | app/src/main/java/com/ethankgordon/hilightclone/MainActivity.java:123-124 | once a group of 8 completes, the low 8 bits of the accumulator are that group's byte |
| Packer.TrailingByte | app/src/main/java/com/ethankgordon/hilightclone/MainActivity.java:128-130 | shifting a trailing group of r bits left by 8−r gives, in its low 8 bits, the left-aligned zero-padded group |
| Channel.BitQueue.constructor | app/src/main/java/com/ethankgordon/hilightclone/MainActivity.java:72 | a new queue is empty |
| Channel.BitQueue.Add | app/src/main/java/com/ethankgordon/hilightclone/MainActivity.java:322 | add appends at the tail |
| Channel.BitQueue.IsEmpty | app/src/main/java/com/ethankgordon/hilightclone/MainActivity.java:138 | isEmpty is true exactly when no bit is queued |
| Channel.BitQueue.Poll | app/src/main/java/com/ethankgordon/hilightclone/MainActivity.java:140 | poll removes and returns the head, or returns nothing and changes nothing when empty |
| Channel.BitQueue.Clear | app/src/main/java/com/ethankgordon/hilightclone/MainActivity.java:206 | clear empties the queue |
| Analyzer.Classify | app/src/main/java/com/ethankgordon/hilightclone/MainActivity.java:300-309 | symbol 0 means the 15 Hz power reached 6 dB and beat the 20 Hz power; symbol 1 means the 20 Hz power reached 6 dB and was at least as strong; symbol 2 means neither reached 6 dB |
| Analyzer.Occurrences | app/src/main/java/com/ethankgordon/hilightclone/MainActivity.java:313-318 | the count of a symbol equals its multiplicity in the pool |
| Analyzer.OccurrencesTotal | app/src/main/java/com/ethankgordon/hilightclone/MainActivity.java:313-318 | the counts of 0, 1 and 2 add up to the pool size |
| Analyzer.Majority | app/src/main/java/com/ethankgordon/hilightclone/MainActivity.java:319-327 | a bit is emitted exactly when 0 or 1 holds at least 6 slots; the emitted bit has at least 6 votes and no fewer than the other bit; 1 wins only with strictly more votes |
| Analyzer.StrictMajorityWins | app/src/main/java/com/ethankgordon/hilightclone/MainActivity.java:319-327 | a bit holding more than half of the 12 slots is always the one emitted |
| Analyzer.TieGoesToZero | app/src/main/java/com/ethankgordon/hilightclone/MainActivity.java:319-321 | a tie can only emit with 6 votes each and no ambiguous slot, and then emits 0 |
| Analyzer.Push | app/src/main/java/com/ethankgordon/hilightclone/MainActivity.java:283-284 | after a sample, slot 0 holds it, slot i holds the old slot i−1, and the length is kept |
| Analyzer.PushAllKeepsNewest | app/src/main/java/com/ethankgordon/hilightclone/MainActivity.java:283-284 | after any run of samples the window holds the newest samples, newest first, then what is left of the old window |
| Analyzer.WindowIsLastTwelve | app/src/main/java/com/ethankgordon/hilightclone/MainActivity.java:283-284 | after at least 12 samples the window is exactly the last 12, newest first |
| Analyzer.Tally | app/src/main/java/com/ethankgordon/hilightclone/MainActivity.java:313-318 | the tally loop counts the 0 and 1 symbols of the pool |
| Analyzer.HiLightAnalyzer.constructor | app/src/main/java/com/ethankgordon/hilightclone/MainActivity.java:233-237 | the window starts as 12 zeros, the pool as 12 ambiguous symbols and the frame counter at 0 |
| Analyzer.HiLightAnalyzer.Analyze | app/src/main/java/com/ethankgordon/hilightclone/MainActivity.java:283-331 | the window takes the sample; only pool slot frame%12 changes, to the frame's class; the vote's bit, if any, is queued only when frame%12 == 0; the counter advances modulo 60 |
| Analyzer.HiLightAnalyzer.PushSample | app/src/main/java/com/ethankgordon/hilightclone/MainActivity.java:283-284 | the in-place shift and store leave the window equal to its push |
| Analyzer.HiLightAnalyzer.Vote | app/src/main/java/com/ethankgordon/hilightclone/MainActivity.java:312-328 | the queue grows by exactly the majority's bit, or stays as it is |
| Interpreter.Recent | app/src/main/java/com/ethankgordon/hilightclone/MainActivity.java:143-145 | the kept bits are the last min(n, 16) bits, in order |
| Interpreter.SpacedLength | app/src/main/java/com/ethankgordon/hilightclone/MainActivity.java:147-153 | the display has one character per bit plus one space per started group of four after the first |
| Interpreter.SpacedSpaces | app/src/main/java/com/ethankgordon/hilightclone/MainActivity.java:149-152 | a character of the display is a space exactly at positions 4 mod 5 |
| Interpreter.SpacedDigits | app/src/main/java/com/ethankgordon/hilightclone/MainActivity.java:149-152 | bit i is shown as its digit at position i + i/4 |
| Interpreter.Display | app/src/main/java/com/ethankgordon/hilightclone/MainActivity.java:147-153 | the display loop builds the spaced text of the bits |
| Interpreter.Framed | app/src/main/java/com/ethankgordon/hilightclone/MainActivity.java:157-159 | a buffer one bit over whole bytes loses exactly its oldest bit; any other buffer is kept |
| Interpreter.NoRepeatsIffAlternating | app/src/main/java/com/ethankgordon/hilightclone/MainActivity.java:186-193 | a buffer scores no repeats exactly when it alternates, starting with the opposite of the bit before it |
| Interpreter.FlipRepeatsTwice | app/src/main/java/com/ethankgordon/hilightclone/MainActivity.java:186-194 | one inverted bit, anywhere but last, in an alternating pattern that starts with the opposite of the bit before it (one that scores no repeats) scores two repeats |
| Interpreter.DropRepeatsOnce | app/src/main/java/com/ethankgordon/hilightclone/MainActivity.java:186-194 | one lost bit, anywhere but last, in an alternating pattern that starts with the opposite of the bit before it (one that scores no repeats) scores one repeat |
| Interpreter.BitErrorRate | app/src/main/java/com/ethankgordon/hilightclone/MainActivity.java:185-195 | the rate is the error count divided by 400 |
| Interpreter.NextState | app/src/main/java/com/ethankgordon/hilightclone/MainActivity.java:379-382 | the new mode is the requested one exactly when it differs from the current mode or is idle; otherwise the mode becomes idle |
| Interpreter.ClickTwiceCancels | app/src/main/java/com/ethankgordon/hilightclone/MainActivity.java:379-382 | clicking the same button twice from idle returns to idle |
| Interpreter.MainActivity.constructor | app/src/main/java/com/ethankgordon/hilightclone/MainActivity.java:58 | the activity starts idle, with an empty buffer and empty text |
| Interpreter.MainActivity.TimedTask | app/src/main/java/com/ethankgordon/hilightclone/MainActivity.java:136-202 | the queue is drained into the buffer, the mode is kept, and buffer and text become what the mode's tick makes of the drained buffer |
| Interpreter.MainActivity.Drain | app/src/main/java/com/ethankgordon/hilightclone/MainActivity.java:137-141 | every queued bit is appended to the buffer in FIFO order, the queue ends empty, and newBits is true exactly when it was not empty |
| Interpreter.MainActivity.ShowRecentBits | app/src/main/java/com/ethankgordon/hilightclone/MainActivity.java:142-153 | the buffer keeps its last 16 bits and the text shows them spaced |
| Interpreter.MainActivity.ReadWord | app/src/main/java/com/ethankgordon/hilightclone/MainActivity.java:154-173 | nothing changes while bits arrive or the buffer is empty; otherwise the framed buffer gives "Err: Bad Size k" or the decoded packing, and is cleared |
| Interpreter.MainActivity.MeasureBer | app/src/main/java/com/ethankgordon/hilightclone/MainActivity.java:174-200 | while bits arrive the text is "Received n/200"; below 180 bits nothing changes; otherwise the buffer is emptied and the text shows the rate |
| Interpreter.MainActivity.SetState | app/src/main/java/com/ethankgordon/hilightclone/MainActivity.java:379-408 | the mode becomes NextState of the old mode, and the queue, the buffer and the text are all cleared |
| Interpreter.MainActivity.ResetTask | app/src/main/java/com/ethankgordon/hilightclone/MainActivity.java:204-211 | resetTask empties the bit queue, the display buffer and the text, and keeps the mode unchanged. |
| Interpreter.MainActivity.OnClick | app/src/main/java/com/ethankgordon/hilightclone/MainActivity.java:411-419 | the word button requests word mode and the BER button requests BER mode |
| Transmitter.ToggleAfter | transmitter/transmit.py:26-39 | key b clears the forced bit when b is forced and forces b otherwise |
| Transmitter.DimAfter | transmitter/transmit.py:40-46 | key A switches to 0.5 exactly from 0.1, and to 0.1 from anything else |
| Transmitter.PressTwiceRestores | transmitter/transmit.py:24-46 | from no forced bit, or with b already forced, pressing key b twice restores the toggle; from a strength of 0.1 or 0.5, pressing A twice restores the strength |
| Transmitter.ToggleHolds | transmitter/transmit.py:52-55 | while a bit is forced, every call returns it and the countdown and queue are untouched |
| Transmitter.BerCountdown | transmitter/transmit.py:57-59 | with no forced bit, a countdown from c returns its c pattern bits, ends at 0 and does not consume the queue |
| Transmitter.BerPatternAlternates | transmitter/transmit.py:57-59 | the test pattern strictly alternates and ends with 0 |
| Transmitter.QueueFifo | transmitter/transmit.py:62-68 | with no forced bit and no countdown, the queued bits come out in FIFO order, after which calls return nothing |
| Transmitter.DimCountFromStart | transmitter/transmit.py:89-94 | of the first f frames, bit 0 dims (f+2)/4, bit 1 dims f/3 and no bit dims none |
| Transmitter.DimsPerPeriod | transmitter/transmit.py:86-94 | over any 12-frame bit period, bit 0 dims 3 frames, bit 1 dims 4 and no bit dims none |
| Transmitter.DimsPerSecond | transmitter/transmit.py:89-94 | over 60 frames, bit 0 dims 15 frames and bit 1 dims 20 |
| Transmitter.BinaryDigits | transmitter/transmit.py:117 | the digits of bin() read back as the number, with no leading zero |
| Transmitter.CharBits | transmitter/transmit.py:117-118 | a character's bits read back as its code and are at least 8 long, and when longer than 8 they start with 1, so zeros pad only up to 8 |
| Transmitter.CharBitsOfByte | transmitter/transmit.py:117-119 | a character with a code below 256 becomes exactly its 8 bits, MSB first, zero-padded |
| Transmitter.WideCharBits | transmitter/transmit.py:117-118 | a character with a code of 256 or more becomes more than 8 bits |
| Transmitter.BitsOf | transmitter/transmit.py:114-120 | a string yields at least 8 bits per character |
| Transmitter.ToBits | transmitter/transmit.py:114-120 | the loop yields each character's bits, in order |
| Transmitter.Sender.constructor | transmitter/transmit.py:13-21 | frame 0, no active bit, nothing forced, strength 0.1, no countdown, empty queue |
| Transmitter.Sender.OnKeyPress | transmitter/transmit.py:23-46 | keys 0 and 1 toggle the forced bit, key A switches the strength, and nothing else changes |
| Transmitter.Sender.GetBit | transmitter/transmit.py:49-68 | the bit returned and the new toggle, countdown and queue are NextBit of the old ones: forced bit first, then the countdown, then the queue head |
| Transmitter.Sender.OnDraw | transmitter/transmit.py:80-105 | a new bit is drawn only when frame%12 == 0; the frame is dimmed by the current strength exactly on the frames of its bit's pattern; the counter advances modulo 60 |
| Transmitter.Sender.WordInput | transmitter/transmit.py:122-149 | "quit" stops; "0" and "1" act as the keys; "ber" sets the countdown to 200; any other line appends its bits to the queue and clears the forced bit |
| Link.BitsOfCodes | transmitter/transmit.py:114-120 | for codes below 256, a string's bits are the 8-bit expansions of its codes |
| Link.RoundTrip | transmitter/transmit.py:114-120 | for codes below 256, a string gives 8 bits per character, and packing them gives back its codes |
| Link.WordShowsSentText | app/src/main/java/com/ethankgordon/hilightclone/MainActivity.java:154-173 | once a sent word's bits have all arrived, word mode clears the buffer and shows the decoding of the word's codes |
| Link.WordDropsStrayBit | app/src/main/java/com/ethankgordon/hilightclone/MainActivity.java:157-159 | the same holds when one stray bit arrived before the word |
| Link.BerPatternIsAlternating | transmitter/transmit.py:57-59 | the transmitted 200-bit test pattern is the alternating pattern starting with 1 |
| Link.IntactPatternScoresZero | app/src/main/java/com/ethankgordon/hilightclone/MainActivity.java:185-200 | the intact test pattern scores 0 errors and the text "BER: " followed by the formatted 0 and "%" |
| Link.FlippedBitReadsHalfPercent | app/src/main/java/com/ethankgordon/hilightclone/MainActivity.java:194-198 | one inverted pattern bit, anywhere but last, reads as 0.5 % |
| Link.DroppedBitReadsHalfPercent | app/src/main/java/com/ethankgordon/hilightclone/MainActivity.java:185-198 | one lost pattern bit, anywhere but last, reads as 0.5 % |

## Left out

- Camera acquisition and luminance averaging are left out, because they are platform I/O. Analyze takes the frame's average luminance as a parameter.
- The FFT and power spectrum are left out, because they are a foreign library and floating-point log and square root. Analyze takes the powers of the 15 Hz and 20 Hz bins (bins 3 and 4) as parameters.
- UTF-8 decoding is not modelled. It is a function from bytes to text supplied to the MainActivity constructor.
- The formatting of a double by StringBuilder.append is not modelled. It is a function from reals to text supplied to the MainActivity constructor.
- Floating-point rounding is not modelled. The BER and the dimming strengths are exact reals.
- Concurrency is not modelled: the concurrent queues, the camera executor thread, the once-a-second Handler timer and the activity lifecycle. Queues are plain sequences, and each method runs as one atomic step.
- Button labels and enabling in setState are pure UI. OnClick accepts either button in any mode, while the app disables the other mode's button.
- Debug code is left out: the FPS measurement, logging and the int_queue.
- The text title set by setState is UI and is not modelled. The initial text of the TextView comes from the layout, which is not part of this model; the model starts the text as "" in its place.
- The transmitter's graphics are left out: the pyglet window, image blitting, get_quad, the GL blend calls and the conversion of the alpha to an integer 0..255. OnDraw returns the alpha as a real.
- The word_input loop is left out: input(), sys.exit, the thread and the printed messages. WordInput models one command and returns whether it was "quit".
- Packer.EncodeToByteArray: Java's int accumulator wraps at 32 bits and its `(byte)` cast gives a signed byte. The model keeps an unbounded value and stores the byte as 0..255. Both keep the same low 8 bits, which is what the cast stores.
- Transmitter.BitsOf: codes of 256 or more are modelled as in the source, which emits more than 8 bits for them (WideCharBits). The round-trip lemmas are stated only for codes below 256.
- Transmitter.Run: its own contract states only the number of bits. Its behaviour is stated by ToggleHolds, BerCountdown and QueueFifo.
