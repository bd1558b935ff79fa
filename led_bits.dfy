/**
 * The bit constants of the firmware and the pure word transforms that its
 * read-modify-write helpers apply: enabling the GPIOD clock, switching pins
 * 12-15 to output mode, and switching LEDs on and off by mask.
 *
 * Every transform is specified bit by bit against the pin numbers (bits 12 to
 * 15 are the LEDs), independently of how the masks are spelled.
 */
module LedBits {

  /** GPIODEN, bit 3 of AHB1ENR: the clock of GPIO port D. */
  const RCC_AHB1ENR_GPIODEN: bv32 := 1 << 3

  const LED_GREEN: bv32 := 1 << 12
  const LED_ORANGE: bv32 := 1 << 13
  const LED_RED: bv32 := 1 << 14
  const LED_BLUE: bv32 := 1 << 15
  const ALL_LEDS: bv32 := LED_GREEN | LED_ORANGE | LED_RED | LED_BLUE

  /** The low bit of the 2-bit MODER field of each of pins 12 to 15. */
  const MODE_BITS: bv32 := (1 << 24) | (1 << 26) | (1 << 28) | (1 << 30)

  /** The 2-bit MODER encoding of "general-purpose output". */
  const MODE_OUTPUT: bv32 := 1

  /** A bit position within a 32-bit register, 0 to 31. */
  type BitPos = bv5

  /** Bit `i` of `x` is set. */
  predicate Bit(x: bv32, i: BitPos)
  {
    (x >> i) & 1 == 1
  }

  /** Bits 12 to 15 of the output register drive the four LEDs. */
  predicate IsLedPin(i: BitPos)
  {
    12 <= i <= 15
  }

  /** The 2-bit mode field of GPIO pin `pin` (0 to 15) within a MODER value. */
  function ModeField(moder: bv32, pin: BitPos): (m: bv32)
    requires pin < 16
    ensures m < 4
    ensures Bit(m, 0) == Bit(moder, 2 * pin) && Bit(m, 1) == Bit(moder, 2 * pin + 1)
  {
    (moder >> (2 * pin)) & 3
  }

  // Bit algebra over arbitrary words. The lemmas about the firmware's transforms
  // instantiate these with its constants.

  lemma BitOr(x: bv32, y: bv32, i: BitPos)
    ensures Bit(x | y, i) == (Bit(x, i) || Bit(y, i))
  {
  }

  lemma BitAnd(x: bv32, y: bv32, i: BitPos)
    ensures Bit(x & y, i) == (Bit(x, i) && Bit(y, i))
  {
  }

  lemma BitNot(x: bv32, i: BitPos)
    ensures Bit(!x, i) == !Bit(x, i)
  {
  }

  lemma BitOrMasked(v: bv32, m: bv32, a: bv32, i: BitPos)
    ensures Bit(v | (m & a), i) == (Bit(v, i) || (Bit(m, i) && Bit(a, i)))
  {
    BitOr(v, m & a, i);
    BitAnd(m, a, i);
  }

  lemma BitAndNotMasked(v: bv32, m: bv32, a: bv32, i: BitPos)
    ensures Bit(v & !(m & a), i) == (Bit(v, i) && !(Bit(m, i) && Bit(a, i)))
  {
    BitAnd(v, !(m & a), i);
    BitNot(m & a, i);
    BitAnd(m, a, i);
  }

  lemma OrKeepsOutside(v: bv32, m: bv32, a: bv32)
    ensures (v | (m & a)) & !a == v & !a
  {
  }

  lemma OrInside(v: bv32, m: bv32, a: bv32)
    ensures (v | (m & a)) & a == (v | m) & a
  {
  }

  lemma AndNotKeepsOutside(v: bv32, m: bv32, a: bv32)
    ensures (v & !(m & a)) & !a == v & !a
  {
  }

  lemma AndNotInside(v: bv32, m: bv32, a: bv32)
    ensures (v & !(m & a)) & a == v & !m & a
  {
  }

  lemma OrTwice(v: bv32, x: bv32)
    ensures (v | x) | x == v | x
  {
  }

  lemma AndNotTwice(v: bv32, x: bv32)
    ensures (v & !x) & !x == v & !x
  {
  }

  lemma OrThenAndNot(v: bv32, x: bv32)
    ensures (v | x) & !x == v & !x
  {
  }

  lemma AndNotKeeps(v: bv32, x: bv32)
    ensures v & !x == v ==> v & x == 0
  {
  }

  lemma AndNotKept(v: bv32, x: bv32)
    ensures v & x == 0 ==> v & !x == v
  {
  }

  lemma AndNotSelf(v: bv32, a: bv32)
    ensures (v & !(a & a)) & a == 0
  {
  }

  lemma AndNotSelfOutside(v: bv32, a: bv32)
    ensures (v & !(a & a)) & !a == v & !a
  {
  }

  // The bits of the firmware's constants.

  /** GPIODEN is bit 3 alone. */
  lemma GpiodenBits(i: BitPos)
    ensures Bit(RCC_AHB1ENR_GPIODEN, i) <==> i == 3
  {
  }

  /** ALL_LEDS is exactly the set of LED pins. */
  lemma AllLedsBits(i: BitPos)
    ensures Bit(ALL_LEDS, i) <==> IsLedPin(i)
  {
  }

  /** MODE_BITS is exactly bits 24, 26, 28 and 30. */
  lemma ModeBitsBits(i: BitPos)
    ensures Bit(MODE_BITS, i) <==> 24 <= i && i % 2 == 0
  {
  }

  /** The new AHB1ENR value written by `enable_gpiod_clock`. */
  function EnableGpiod(val: bv32): bv32
  {
    val | RCC_AHB1ENR_GPIODEN
  }

  /** The new MODER value written by `configure_led_pins`. */
  function SetOutputMode(val: bv32): bv32
  {
    val | MODE_BITS
  }

  /** The new ODR value written by `leds_on(mask)`. */
  function LedsOnWord(val: bv32, mask: bv32): bv32
  {
    val | (mask & ALL_LEDS)
  }

  /** The new ODR value written by `leds_off(mask)`; `all_leds_off` is `leds_off(ALL_LEDS)`. */
  function LedsOffWord(val: bv32, mask: bv32): bv32
  {
    val & !(mask & ALL_LEDS)
  }

  /** Enabling the GPIOD clock sets bit 3 and keeps every other bit. */
  lemma EnableGpiodBits(val: bv32, i: BitPos)
    ensures Bit(EnableGpiod(val), i) == (i == 3 || Bit(val, i))
  {
    calc {
      Bit(EnableGpiod(val), i);
      Bit(val | RCC_AHB1ENR_GPIODEN, i);
      { BitOr(val, RCC_AHB1ENR_GPIODEN, i); }
      Bit(val, i) || Bit(RCC_AHB1ENR_GPIODEN, i);
      { GpiodenBits(i); }
      Bit(val, i) || i == 3;
    }
  }

  /** Configuring the LED pins sets bits 24, 26, 28 and 30 and keeps every other bit. */
  lemma SetOutputModeBits(val: bv32, i: BitPos)
    ensures Bit(SetOutputMode(val), i) == ((24 <= i && i % 2 == 0) || Bit(val, i))
  {
    calc {
      Bit(SetOutputMode(val), i);
      Bit(val | MODE_BITS, i);
      { BitOr(val, MODE_BITS, i); }
      Bit(val, i) || Bit(MODE_BITS, i);
      { ModeBitsBits(i); }
      Bit(val, i) || (24 <= i && i % 2 == 0);
    }
  }

  /**
   * leds_on sets the LED bits of the mask, ignores the bits of the mask outside
   * the LEDs, and keeps every other bit.
   */
  lemma LedsOnBits(val: bv32, mask: bv32, i: BitPos)
    ensures Bit(LedsOnWord(val, mask), i) == ((IsLedPin(i) && Bit(mask, i)) || Bit(val, i))
  {
    calc {
      Bit(LedsOnWord(val, mask), i);
      Bit(val | (mask & ALL_LEDS), i);
      { BitOrMasked(val, mask, ALL_LEDS, i); }
      Bit(val, i) || (Bit(mask, i) && Bit(ALL_LEDS, i));
      { AllLedsBits(i); }
      Bit(val, i) || (Bit(mask, i) && IsLedPin(i));
    }
  }

  /**
   * leds_off clears the LED bits of the mask, ignores the bits of the mask outside
   * the LEDs, and keeps every other bit.
   */
  lemma LedsOffBits(val: bv32, mask: bv32, i: BitPos)
    ensures Bit(LedsOffWord(val, mask), i) == (!(IsLedPin(i) && Bit(mask, i)) && Bit(val, i))
  {
    BitAndNotMasked(val, mask, ALL_LEDS, i);
    AllLedsBits(i);
  }

  /** all_leds_off clears the four LED bits and keeps every other bit. */
  lemma AllLedsOffBits(val: bv32, i: BitPos)
    ensures Bit(LedsOffWord(val, ALL_LEDS), i) == (!IsLedPin(i) && Bit(val, i))
  {
    LedsOffBits(val, ALL_LEDS, i);
    AllLedsBits(i);
  }

  /** leds_on changes no bit outside the LEDs. */
  lemma LedsOnKeepsOthers(val: bv32, mask: bv32)
    ensures LedsOnWord(val, mask) & !ALL_LEDS == val & !ALL_LEDS
  {
    calc {
      LedsOnWord(val, mask) & !ALL_LEDS;
      (val | (mask & ALL_LEDS)) & !ALL_LEDS;
      { OrKeepsOutside(val, mask, ALL_LEDS); }
      val & !ALL_LEDS;
    }
  }

  /** After leds_on, the LED bits are set exactly where `val` or `mask` had them. */
  lemma LedsOnLedBits(val: bv32, mask: bv32)
    ensures LedsOnWord(val, mask) & ALL_LEDS == (val | mask) & ALL_LEDS
  {
    calc {
      LedsOnWord(val, mask) & ALL_LEDS;
      (val | (mask & ALL_LEDS)) & ALL_LEDS;
      { OrInside(val, mask, ALL_LEDS); }
      (val | mask) & ALL_LEDS;
    }
  }

  /** leds_off changes no bit outside the LEDs. */
  lemma LedsOffKeepsOthers(val: bv32, mask: bv32)
    ensures LedsOffWord(val, mask) & !ALL_LEDS == val & !ALL_LEDS
  {
    calc {
      LedsOffWord(val, mask) & !ALL_LEDS;
      (val & !(mask & ALL_LEDS)) & !ALL_LEDS;
      { AndNotKeepsOutside(val, mask, ALL_LEDS); }
      val & !ALL_LEDS;
    }
  }

  /** After leds_off, the LED bits are set exactly where `val` had them and `mask` did not. */
  lemma LedsOffLedBits(val: bv32, mask: bv32)
    ensures LedsOffWord(val, mask) & ALL_LEDS == val & !mask & ALL_LEDS
  {
    calc {
      LedsOffWord(val, mask) & ALL_LEDS;
      (val & !(mask & ALL_LEDS)) & ALL_LEDS;
      { AndNotInside(val, mask, ALL_LEDS); }
      val & !mask & ALL_LEDS;
    }
  }

  /** No LED bit survives all_leds_off. */
  lemma AllLedsOffClearsLeds(val: bv32)
    ensures LedsOffWord(val, ALL_LEDS) & ALL_LEDS == 0
  {
    calc {
      LedsOffWord(val, ALL_LEDS) & ALL_LEDS;
      (val & !(ALL_LEDS & ALL_LEDS)) & ALL_LEDS;
      { AndNotSelf(val, ALL_LEDS); }
      0;
    }
  }

  lemma EnableGpiodIdempotent(val: bv32)
    ensures EnableGpiod(EnableGpiod(val)) == EnableGpiod(val)
  {
    calc {
      EnableGpiod(EnableGpiod(val));
      (val | RCC_AHB1ENR_GPIODEN) | RCC_AHB1ENR_GPIODEN;
      { OrTwice(val, RCC_AHB1ENR_GPIODEN); }
      EnableGpiod(val);
    }
  }

  lemma SetOutputModeIdempotent(val: bv32)
    ensures SetOutputMode(SetOutputMode(val)) == SetOutputMode(val)
  {
    calc {
      SetOutputMode(SetOutputMode(val));
      (val | MODE_BITS) | MODE_BITS;
      { OrTwice(val, MODE_BITS); }
      SetOutputMode(val);
    }
  }

  lemma LedsOnIdempotent(val: bv32, mask: bv32)
    ensures LedsOnWord(LedsOnWord(val, mask), mask) == LedsOnWord(val, mask)
  {
    calc {
      LedsOnWord(LedsOnWord(val, mask), mask);
      (val | (mask & ALL_LEDS)) | (mask & ALL_LEDS);
      { OrTwice(val, mask & ALL_LEDS); }
      LedsOnWord(val, mask);
    }
  }

  /** Also covers all_leds_off, which is leds_off(ALL_LEDS). */
  lemma LedsOffIdempotent(val: bv32, mask: bv32)
    ensures LedsOffWord(LedsOffWord(val, mask), mask) == LedsOffWord(val, mask)
  {
    calc {
      LedsOffWord(LedsOffWord(val, mask), mask);
      (val & !(mask & ALL_LEDS)) & !(mask & ALL_LEDS);
      { AndNotTwice(val, mask & ALL_LEDS); }
      LedsOffWord(val, mask);
    }
  }

  /**
   * Switching LEDs on and then off by the same mask leaves the prior value
   * with those LED bits cleared.
   */
  lemma LedsOffAfterOn(val: bv32, mask: bv32)
    ensures LedsOffWord(LedsOnWord(val, mask), mask) == LedsOffWord(val, mask)
  {
    calc {
      LedsOffWord(LedsOnWord(val, mask), mask);
      (val | (mask & ALL_LEDS)) & !(mask & ALL_LEDS);
      { OrThenAndNot(val, mask & ALL_LEDS); }
      LedsOffWord(val, mask);
    }
  }

  /** Hence leds_on followed by leds_off restores the prior value exactly when those LED bits were clear. */
  lemma LedsOnOffRestores(val: bv32, mask: bv32)
    ensures LedsOffWord(LedsOnWord(val, mask), mask) == val <==> val & (mask & ALL_LEDS) == 0
  {
    LedsOffAfterOn(val, mask);
    assert LedsOffWord(val, mask) == val & !(mask & ALL_LEDS);
    AndNotKeeps(val, mask & ALL_LEDS);
    AndNotKept(val, mask & ALL_LEDS);
  }

  /**
   * After SetOutputMode, the mode field of each LED pin holds the output
   * encoding exactly when the upper bit of that field was already clear:
   * the transform sets the low bit and never clears the high one. The mode
   * fields of pins 0 to 11 are unchanged.
   */
  lemma SetOutputModeFields(val: bv32, pin: BitPos)
    requires pin < 16
    ensures IsLedPin(pin) ==> (ModeField(SetOutputMode(val), pin) == MODE_OUTPUT <==> !Bit(val, 2 * pin + 1))
    ensures !IsLedPin(pin) ==> ModeField(SetOutputMode(val), pin) == ModeField(val, pin)
  {
    SetOutputModeBits(val, 2 * pin);
    SetOutputModeBits(val, 2 * pin + 1);
  }
}
