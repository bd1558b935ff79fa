/**
 * The three memory-mapped registers the firmware touches, as the fields of one
 * object, with the raw register accessors and the five helpers built on them.
 *
 * Register contents are plain state here: a read returns the last value
 * written and nothing else changes them (see README, "Left out").
 */
module Peripherals {
  import opened RegisterMap
  import opened LedBits

  class RegisterFile {
    /** RCC AHB1 peripheral clock-enable register, at RCC_BASE + 0x30. */
    var ahb1enr: bv32
    /** GPIOD port mode register, at GPIOD_BASE + 0x00. */
    var moder: bv32
    /** GPIOD output data register, at GPIOD_BASE + 0x14. */
    var odr: bv32
    /** The registers written so far, oldest first: the order of the firmware's writes. */
    ghost var writes: seq<Reg>

    /** The register file as found at reset, with whatever contents the hardware holds. */
    constructor (ahb1enr0: bv32, moder0: bv32, odr0: bv32)
      ensures ahb1enr == ahb1enr0 && moder == moder0 && odr == odr0
      ensures writes == []
    {
      ahb1enr, moder, odr := ahb1enr0, moder0, odr0;
      writes := [];
    }

    /** The current contents of register `r`. */
    function Get(r: Reg): bv32
      reads this
    {
      match r
      case Ahb1enr => ahb1enr
      case Moder => moder
      case Odr => odr
    }

    /** `read_reg(base, offset)`: the contents of the register at `base + offset`. */
    method ReadReg(base: u32, offset: u32) returns (value: bv32)
      requires Mapped(base, offset)
      ensures value == Get(Target(base, offset))
    {
      match Target(base, offset) {
        case Ahb1enr => value := ahb1enr;
        case Moder => value := moder;
        case Odr => value := odr;
      }
    }

    /** `write_reg(base, offset, value)`: the register at `base + offset` now holds `value`; the others are unchanged. */
    method WriteReg(base: u32, offset: u32, value: bv32)
      requires Mapped(base, offset)
      modifies this
      ensures Get(Target(base, offset)) == value
      ensures forall r: Reg :: r != Target(base, offset) ==> Get(r) == old(Get(r))
      ensures writes == old(writes) + [Target(base, offset)]
    {
      match Target(base, offset) {
        case Ahb1enr => ahb1enr := value;
        case Moder => moder := value;
        case Odr => odr := value;
      }
      writes := writes + [Target(base, offset)];
    }

    /**
     * `modify_reg(base, offset, f)`: read the register at `base + offset`,
     * apply `f`, and write the result back. The register ends up holding `f`
     * of its old contents; the others are unchanged; one write is recorded.
     */
    method ModifyReg(base: u32, offset: u32, f: bv32 -> bv32)
      requires Mapped(base, offset)
      modifies this
      ensures Get(Target(base, offset)) == f(old(Get(Target(base, offset))))
      ensures forall r: Reg :: r != Target(base, offset) ==> Get(r) == old(Get(r))
      ensures writes == old(writes) + [Target(base, offset)]
    {
      var current := ReadReg(base, offset);
      var newValue := f(current);
      WriteReg(base, offset, newValue);
    }

    /** `enable_gpiod_clock`: AHB1ENR gets the GPIOD clock bit; MODER and ODR are unchanged. */
    method EnableGpiodClock()
      modifies this
      ensures ahb1enr == EnableGpiod(old(ahb1enr))
      ensures moder == old(moder) && odr == old(odr)
      ensures writes == old(writes) + [Ahb1enr]
    {
      LocationDecodes(Ahb1enr);
      ModifyReg(RCC_BASE, RCC_AHB1ENR_OFFSET, val => val | RCC_AHB1ENR_GPIODEN);
      assert Get(Moder) == old(Get(Moder)) && Get(Odr) == old(Get(Odr));
    }

    /** `configure_led_pins`: MODER gets the output-mode bits of pins 12 to 15; AHB1ENR and ODR are unchanged. */
    method ConfigureLedPins()
      modifies this
      ensures moder == SetOutputMode(old(moder))
      ensures ahb1enr == old(ahb1enr) && odr == old(odr)
      ensures writes == old(writes) + [Moder]
    {
      LocationDecodes(Moder);
      var modeBits: bv32 := (1 << 24) | (1 << 26) | (1 << 28) | (1 << 30);
      assert modeBits == MODE_BITS;
      ModifyReg(GPIOD_BASE, GPIO_MODER_OFFSET, val => val | modeBits);
      assert Get(Ahb1enr) == old(Get(Ahb1enr)) && Get(Odr) == old(Get(Odr));
    }

    /** `leds_on(ledMask)`: ODR gets the LED bits of `ledMask`; AHB1ENR and MODER are unchanged. */
    method LedsOn(ledMask: bv32)
      modifies this
      ensures odr == LedsOnWord(old(odr), ledMask)
      ensures ahb1enr == old(ahb1enr) && moder == old(moder)
      ensures writes == old(writes) + [Odr]
    {
      LocationDecodes(Odr);
      ModifyReg(GPIOD_BASE, GPIO_ODR_OFFSET, val => val | (ledMask & ALL_LEDS));
      assert Get(Ahb1enr) == old(Get(Ahb1enr)) && Get(Moder) == old(Get(Moder));
    }

    /** `leds_off(ledMask)`: ODR loses the LED bits of `ledMask`; AHB1ENR and MODER are unchanged. */
    method LedsOff(ledMask: bv32)
      modifies this
      ensures odr == LedsOffWord(old(odr), ledMask)
      ensures ahb1enr == old(ahb1enr) && moder == old(moder)
      ensures writes == old(writes) + [Odr]
    {
      LocationDecodes(Odr);
      ModifyReg(GPIOD_BASE, GPIO_ODR_OFFSET, val => val & !(ledMask & ALL_LEDS));
      assert Get(Ahb1enr) == old(Get(Ahb1enr)) && Get(Moder) == old(Get(Moder));
    }

    /** `all_leds_off`: `leds_off(ALL_LEDS)`. */
    method AllLedsOff()
      modifies this
      ensures odr == LedsOffWord(old(odr), ALL_LEDS)
      ensures ahb1enr == old(ahb1enr) && moder == old(moder)
      ensures writes == old(writes) + [Odr]
    {
      LedsOff(ALL_LEDS);
    }
  }
}
