/**
 * The firmware's main routine: enable the GPIOD clock, configure the four
 * LED pins as outputs, then repeatedly switch all LEDs off, switch on the
 * LED at the current position of a four-entry sequence, and advance the
 * position modulo four.
 *
 * The endless loop is modelled by its single iteration (`Step` and
 * `LoopIteration`) and by its first `n` iterations (`Run` and `RunFirmware`).
 */
module Blinky {
  import opened RegisterMap
  import opened LedBits
  import opened Peripherals

  /** The circular pattern: green, orange, red, blue. */
  const LED_SEQUENCE: seq<bv32> := [LED_GREEN, LED_ORANGE, LED_RED, LED_BLUE]

  /** Among the four LED bits of `odr`, bit `pin` is the only one set. */
  ghost predicate OnlyLedLit(odr: bv32, pin: BitPos)
  {
    forall q: BitPos :: IsLedPin(q) ==> (Bit(odr, q) <==> q == pin)
  }

  /** The state the loop carries from one iteration to the next. */
  datatype LoopState = LoopState(odr: bv32, current: nat)

  /** The position after `i`: one further along the sequence, back to the start after the last entry. */
  function NextIndex(i: nat): (j: nat)
    requires i < |LED_SEQUENCE|
    ensures j < |LED_SEQUENCE|
    ensures j == if i == |LED_SEQUENCE| - 1 then 0 else i + 1
  {
    (i + 1) % |LED_SEQUENCE|
  }

  /** The ODR value after one iteration at position `i`: all LEDs off, then LED_SEQUENCE[i] on. */
  function StepOdr(odr: bv32, i: nat): bv32
    requires i < |LED_SEQUENCE|
  {
    LedsOnWord(LedsOffWord(odr, ALL_LEDS), LED_SEQUENCE[i])
  }

  /** One iteration of the loop, without the delay. */
  function Step(s: LoopState): (t: LoopState)
    requires s.current < |LED_SEQUENCE|
    ensures t.current < |LED_SEQUENCE|
  {
    LoopState(StepOdr(s.odr, s.current), NextIndex(s.current))
  }

  /** The first `n` iterations of the loop; the position after them is `n` further along, modulo four. */
  function Run(s: LoopState, n: nat): (t: LoopState)
    requires s.current < |LED_SEQUENCE|
    ensures t.current == (s.current + n) % |LED_SEQUENCE|
    decreases n
  {
    if n == 0 then s else Step(Run(s, n - 1))
  }

  // Facts about the sequence entries.

  lemma OrDistributes(x: bv32, y: bv32, a: bv32)
    ensures (x | y) & a == (x & a) | (y & a)
  {
  }

  lemma ZeroOr(y: bv32)
    ensures 0 | y == y
  {
  }

  lemma SplitByMask(x: bv32, y: bv32, a: bv32)
    requires x & a == y & a && x & !a == y & !a
    ensures x == y
  {
  }

  /** Entry `i` of the sequence is the single bit of pin 12 + i. */
  lemma SequenceBits(i: nat, q: BitPos)
    requires i < |LED_SEQUENCE|
    ensures Bit(LED_SEQUENCE[i], q) <==> q as int == 12 + i
  {
  }

  /** Every entry of the sequence lies within the LED bits. */
  lemma SequenceWithinLeds(i: nat)
    requires i < |LED_SEQUENCE|
    ensures LED_SEQUENCE[i] & ALL_LEDS == LED_SEQUENCE[i]
  {
  }

  // One iteration.

  /** After one iteration at position `i`, the LED bits of ODR are exactly LED_SEQUENCE[i]. */
  lemma StepOdrLeds(odr: bv32, i: nat)
    requires i < |LED_SEQUENCE|
    ensures StepOdr(odr, i) & ALL_LEDS == LED_SEQUENCE[i]
  {
    var off := LedsOffWord(odr, ALL_LEDS);
    calc {
      StepOdr(odr, i) & ALL_LEDS;
      LedsOnWord(off, LED_SEQUENCE[i]) & ALL_LEDS;
      { LedsOnLedBits(off, LED_SEQUENCE[i]); }
      (off | LED_SEQUENCE[i]) & ALL_LEDS;
      { OrDistributes(off, LED_SEQUENCE[i], ALL_LEDS); }
      (off & ALL_LEDS) | (LED_SEQUENCE[i] & ALL_LEDS);
      { AllLedsOffClearsLeds(odr); SequenceWithinLeds(i); }
      0 | LED_SEQUENCE[i];
      { ZeroOr(LED_SEQUENCE[i]); }
      LED_SEQUENCE[i];
    }
  }

  /** One iteration changes no bit of ODR outside the LEDs. */
  lemma StepOdrKeepsOthers(odr: bv32, i: nat)
    requires i < |LED_SEQUENCE|
    ensures StepOdr(odr, i) & !ALL_LEDS == odr & !ALL_LEDS
  {
    var off := LedsOffWord(odr, ALL_LEDS);
    calc {
      StepOdr(odr, i) & !ALL_LEDS;
      LedsOnWord(off, LED_SEQUENCE[i]) & !ALL_LEDS;
      { LedsOnKeepsOthers(off, LED_SEQUENCE[i]); }
      off & !ALL_LEDS;
      { LedsOffKeepsOthers(odr, ALL_LEDS); }
      odr & !ALL_LEDS;
    }
  }

  /** After one iteration at position `i`, exactly one LED is lit: the one on pin 12 + i. */
  lemma StepLightsOneLed(odr: bv32, i: nat)
    requires i < |LED_SEQUENCE|
    ensures OnlyLedLit(StepOdr(odr, i), (12 + i) as BitPos)
  {
    var off := LedsOffWord(odr, ALL_LEDS);
    forall q: BitPos | IsLedPin(q)
      ensures Bit(StepOdr(odr, i), q) <==> q == (12 + i) as BitPos
    {
      LedsOnBits(off, LED_SEQUENCE[i], q);
      AllLedsOffBits(odr, q);
      SequenceBits(i, q);
    }
  }

  // Many iterations.

  /** After at least one iteration, the LED bits of ODR are the entry of the latest iteration. */
  lemma RunLeds(s: LoopState, n: nat)
    requires s.current < |LED_SEQUENCE| && n >= 1
    ensures Run(s, n).odr & ALL_LEDS == LED_SEQUENCE[(s.current + n - 1) % |LED_SEQUENCE|]
  {
    var prev := Run(s, n - 1);
    StepOdrLeds(prev.odr, prev.current);
  }

  /** After at least one iteration exactly one LED is lit: the one of the latest iteration's entry. */
  lemma RunLightsOneLed(s: LoopState, n: nat)
    requires s.current < |LED_SEQUENCE| && n >= 1
    ensures OnlyLedLit(Run(s, n).odr, (12 + (s.current + n - 1) % |LED_SEQUENCE|) as BitPos)
  {
    var prev := Run(s, n - 1);
    assert prev.current == (s.current + n - 1) % |LED_SEQUENCE|;
    StepLightsOneLed(prev.odr, prev.current);
  }

  /** No number of iterations changes a bit of ODR outside the LEDs. */
  lemma {:induction false} RunKeepsOthers(s: LoopState, n: nat)
    requires s.current < |LED_SEQUENCE|
    ensures Run(s, n).odr & !ALL_LEDS == s.odr & !ALL_LEDS
    decreases n
  {
    if n > 0 {
      var prev := Run(s, n - 1);
      RunKeepsOthers(s, n - 1);
      StepOdrKeepsOthers(prev.odr, prev.current);
    }
  }

  /** Four further iterations leave the LED bits of ODR as they were. */
  lemma RunPeriodicLeds(s: LoopState, n: nat)
    requires s.current < |LED_SEQUENCE| && n >= 1
    ensures Run(s, n + 4).odr & ALL_LEDS == Run(s, n).odr & ALL_LEDS
  {
    assert (s.current + (n + 4) - 1) % |LED_SEQUENCE| == (s.current + n - 1) % |LED_SEQUENCE|;
    RunLeds(s, n + 4);
    RunLeds(s, n);
  }

  /** Four further iterations leave the other bits of ODR as they were. */
  lemma RunPeriodicOthers(s: LoopState, n: nat)
    requires s.current < |LED_SEQUENCE|
    ensures Run(s, n + 4).odr & !ALL_LEDS == Run(s, n).odr & !ALL_LEDS
  {
    RunKeepsOthers(s, n + 4);
    RunKeepsOthers(s, n);
  }

  /** Two loop states agreeing on the position, the LED bits and the other bits are equal. */
  lemma SameState(a: LoopState, b: LoopState)
    requires a.current == b.current
    requires a.odr & ALL_LEDS == b.odr & ALL_LEDS && a.odr & !ALL_LEDS == b.odr & !ALL_LEDS
    ensures a == b
  {
    SplitByMask(a.odr, b.odr, ALL_LEDS);
  }

  /** Once the first iteration is done, the loop state repeats with period four. */
  lemma RunPeriodic(s: LoopState, n: nat)
    requires s.current < |LED_SEQUENCE| && n >= 1
    ensures Run(s, n + 4) == Run(s, n)
  {
    RunPeriodicLeds(s, n);
    RunPeriodicOthers(s, n);
    SameState(Run(s, n + 4), Run(s, n));
  }

  /** From position 0 the positions seen by the first eight iterations are 0, 1, 2, 3, 0, 1, 2, 3. */
  lemma IndexCycle(odr: bv32)
    ensures seq(8, k requires 0 <= k => Run(LoopState(odr, 0), k).current) == [0, 1, 2, 3, 0, 1, 2, 3]
  {
  }

  /**
   * From position 0: after one iteration only the green LED (pin 12) is lit,
   * after four only the blue one (pin 15), and the state after five equals
   * the state after one.
   */
  lemma FirstRounds(odr: bv32)
    ensures OnlyLedLit(Run(LoopState(odr, 0), 1).odr, 12)
    ensures OnlyLedLit(Run(LoopState(odr, 0), 4).odr, 15)
    ensures Run(LoopState(odr, 0), 5) == Run(LoopState(odr, 0), 1)
  {
    RunLightsOneLed(LoopState(odr, 0), 1);
    RunLightsOneLed(LoopState(odr, 0), 4);
    RunPeriodic(LoopState(odr, 0), 1);
  }

  // The imperative loop over the register file.

  /** One pass of the loop body on the registers: ODR and the position advance as `Step` says; two ODR writes. */
  method LoopIteration(rf: RegisterFile, current: nat) returns (next: nat)
    requires current < |LED_SEQUENCE|
    modifies rf
    ensures LoopState(rf.odr, next) == Step(LoopState(old(rf.odr), current))
    ensures rf.ahb1enr == old(rf.ahb1enr) && rf.moder == old(rf.moder)
    ensures rf.writes == old(rf.writes) + [Odr, Odr]
  {
    rf.AllLedsOff();
    rf.LedsOn(LED_SEQUENCE[current]);
    next := (current + 1) % |LED_SEQUENCE|;
  }

  /**
   * The main routine cut after `steps` iterations of its loop: the clock is
   * enabled and then the pins configured, before any ODR write; ODR and the
   * position are those of `Run` from position 0.
   */
  method RunFirmware(rf: RegisterFile, steps: nat) returns (current: nat)
    modifies rf
    ensures LoopState(rf.odr, current) == Run(LoopState(old(rf.odr), 0), steps)
    ensures rf.ahb1enr == EnableGpiod(old(rf.ahb1enr))
    ensures rf.moder == SetOutputMode(old(rf.moder))
    ensures rf.writes == old(rf.writes) + [Ahb1enr, Moder] + seq(2 * steps, _ => Odr)
  {
    rf.EnableGpiodClock();
    rf.ConfigureLedPins();
    ghost var start := LoopState(old(rf.odr), 0);
    ghost var booted := rf.writes;
    current := 0;
    var k := 0;
    while k < steps
      invariant k <= steps
      invariant current < |LED_SEQUENCE|
      invariant LoopState(rf.odr, current) == Run(start, k)
      invariant rf.ahb1enr == EnableGpiod(old(rf.ahb1enr))
      invariant rf.moder == SetOutputMode(old(rf.moder))
      invariant rf.writes == booted + seq(2 * k, _ => Odr)
      decreases steps - k
    {
      current := LoopIteration(rf, current);
      assert seq(2 * (k + 1), _ => Odr) == seq(2 * k, _ => Odr) + [Odr, Odr];
      k := k + 1;
    }
  }
}
