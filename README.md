# Blinky on GPIO port D, modelled in Dafny

The firmware runs bare-metal on an STM32F4-class microcontroller. It drives
the four user LEDs on port D (green PD12, orange PD13, red PD14, blue PD15)
in a circle. First it sets the GPIOD clock-enable bit (bit 3) in the RCC AHB1ENR
register. Then it configures pins 12 to 15 as general-purpose outputs in
GPIOD MODER. After that it loops forever. Each pass switches all four LEDs off
in GPIOD ODR and switches on the LED at the current position of the sequence
green, orange, red, blue. It then advances the position modulo four and busy-waits.
Every register access goes through `read_reg`, `write_reg` or `modify_reg`
(read, apply a closure, write back), at the address `base + offset`.

The model has four modules:

- `RegisterMap` (`register_map.dfy`): the base addresses and offsets, and the
  32-bit address addition. An overflowing addition aborts, which is modelled as `None`.
  It also decodes `base + offset` into one of the three registers the firmware uses.
- `LedBits` (`led_bits.dfy`): the bit constants and the four pure value transforms
  the helper closures compute. Lemmas state their effect bit by bit and word by word,
  and cover idempotence, the on/off interaction and the resulting mode fields.
- `Peripherals` (`peripherals.dfy`): class `RegisterFile`, whose fields are the
  three registers. It has the raw accessors and the five helpers as methods that update the fields.
  A ghost `writes` field records which registers were written, in program order.
- `Blinky` (`blinky.dfy`): the main loop. `Step` is one pass and `Run` is the first
  `n` passes, both as functions on a `LoopState`. The lemmas state the properties of
  the loop. `LoopIteration` and `RunFirmware` are imperative methods on the register
  file, proved equal to `Step` and `Run`.

## Model

| member | source | states |
|---|---|---|
| RegisterMap.EffectiveAddress | src/main.rs:25 | `base + offset` on `u32` yields an address exactly when the sum fits in 32 bits, and the address is then the sum; otherwise the program aborts (`None`) |
| RegisterMap.AddressOf | src/main.rs:8-13 | each register's address is its base plus its offset: AHB1ENR = RCC_BASE + 0x30, MODER = GPIOD_BASE + 0x00, ODR = GPIOD_BASE + 0x14 |
| RegisterMap.RegisterAt | src/main.rs:8-13 | an address decodes to a register only if that register lives there, and to none only if no modelled register does |
| RegisterMap.Target | src/main.rs:25 | a mapped `base + offset` pair names the register whose address is that sum |
| RegisterMap.AddressesDistinct | src/main.rs:8-13 | the three registers have pairwise distinct addresses |
| RegisterMap.LocationDecodes | src/main.rs:8-13 | each register's own base and offset do not overflow and designate that register and no other |
| LedBits.ModeField | src/main.rs:57-58 | the two-bit mode field of a pin is bits 2·pin and 2·pin+1 of MODER |
| LedBits.GpiodenBits | src/main.rs:15 | RCC_AHB1ENR_GPIODEN has bit 3 set and no other |
| LedBits.AllLedsBits | src/main.rs:17-21 | ALL_LEDS has exactly bits 12 to 15 set |
| LedBits.ModeBitsBits | src/main.rs:59 | the mode constant has exactly bits 24, 26, 28 and 30 set |
| LedBits.EnableGpiodBits | src/main.rs:46-52 | enabling the GPIOD clock sets bit 3 of AHB1ENR and leaves every other bit as it was |
| LedBits.SetOutputModeBits | src/main.rs:55-62 | configuring the pins sets bits 24, 26, 28 and 30 of MODER and leaves every other bit as it was |
| LedBits.SetOutputModeFields | src/main.rs:55-62 | afterwards a pin 12–15 is in output mode (01) exactly when the upper bit of its field was already 0; the fields of pins 0–11 are unchanged |
| LedBits.LedsOnBits | src/main.rs:65-71 | `leds_on(mask)` sets bit i exactly when i is an LED pin and set in `mask`, and keeps every other bit |
| LedBits.LedsOffBits | src/main.rs:74-80 | `leds_off(mask)` clears bit i exactly when i is an LED pin and set in `mask`, and keeps every other bit |
| LedBits.AllLedsOffBits | src/main.rs:83-85 | `all_leds_off` clears bits 12 to 15 and keeps every other bit |
| LedBits.LedsOnKeepsOthers | src/main.rs:65-71 | `leds_on` changes no bit of ODR outside the LEDs, whatever the mask |
| LedBits.LedsOnLedBits | src/main.rs:65-71 | after `leds_on(mask)` the LED bits are those that were set or are in `mask` |
| LedBits.LedsOffKeepsOthers | src/main.rs:74-80 | `leds_off` (and so `all_leds_off`) changes no bit of ODR outside the LEDs, whatever the mask |
| LedBits.LedsOffLedBits | src/main.rs:74-80 | after `leds_off(mask)` the LED bits are those that were set and are not in `mask` |
| LedBits.AllLedsOffClearsLeds | src/main.rs:83-85 | after `all_leds_off` no LED bit is set |
| LedBits.EnableGpiodIdempotent | src/main.rs:46-52 | enabling the clock twice gives the same AHB1ENR as enabling it once |
| LedBits.SetOutputModeIdempotent | src/main.rs:55-62 | configuring the pins twice gives the same MODER as configuring them once |
| LedBits.LedsOnIdempotent | src/main.rs:65-71 | `leds_on(mask)` twice gives the same ODR as once |
| LedBits.LedsOffIdempotent | src/main.rs:74-85 | `leds_off(mask)` twice, and so `all_leds_off` twice, gives the same ODR as once |
| LedBits.LedsOffAfterOn | src/main.rs:65-80 | `leds_on(mask)` then `leds_off(mask)` gives the same ODR as `leds_off(mask)` alone |
| LedBits.LedsOnOffRestores | src/main.rs:65-80 | `leds_on(mask)` then `leds_off(mask)` restores the prior ODR exactly when none of the masked LED bits was set before |
| Peripherals.RegisterFile.ReadReg | src/main.rs:24-27 | reading at a mapped `base + offset` returns the current contents of the register there |
| Peripherals.RegisterFile.WriteReg | src/main.rs:30-33 | writing at a mapped `base + offset` stores the value in that register only and records one write to it |
| Peripherals.RegisterFile.ModifyReg | src/main.rs:36-43 | the target register ends up holding `f` of its previous contents, the others are unchanged, and exactly one write is recorded |
| Peripherals.RegisterFile.EnableGpiodClock | src/main.rs:46-52 | AHB1ENR becomes `EnableGpiod` of its old value; MODER and ODR are unchanged; one AHB1ENR write |
| Peripherals.RegisterFile.ConfigureLedPins | src/main.rs:55-62 | MODER becomes `SetOutputMode` of its old value; AHB1ENR and ODR are unchanged; one MODER write |
| Peripherals.RegisterFile.LedsOn | src/main.rs:65-71 | ODR becomes `LedsOnWord` of its old value and the mask; AHB1ENR and MODER are unchanged; one ODR write |
| Peripherals.RegisterFile.LedsOff | src/main.rs:74-80 | ODR becomes `LedsOffWord` of its old value and the mask; AHB1ENR and MODER are unchanged; one ODR write |
| Peripherals.RegisterFile.AllLedsOff | src/main.rs:83-85 | ODR becomes `LedsOffWord(old ODR, ALL_LEDS)`; AHB1ENR and MODER are unchanged; one ODR write |
| Blinky.NextIndex | src/main.rs:112 | the next position stays within the four-entry sequence: one further on, or back to 0 after the last entry |
| Blinky.Step | src/main.rs:104-112 | one pass leaves the position within the sequence |
| Blinky.Run | src/main.rs:102-112 | after `n` passes from position `p` the position is `(p + n) mod 4` |
| Blinky.SequenceBits | src/main.rs:101 | entry `i` of the LED sequence is the single bit of pin 12 + i |
| Blinky.SequenceWithinLeds | src/main.rs:101 | every entry of the sequence lies within ALL_LEDS, so `leds_on` never drops it |
| Blinky.StepOdrLeds | src/main.rs:105-109 | after one pass at position `i` the LED bits of ODR are exactly `led_sequence[i]` |
| Blinky.StepOdrKeepsOthers | src/main.rs:105-109 | one pass changes no bit of ODR outside the LEDs |
| Blinky.StepLightsOneLed | src/main.rs:105-109 | after one pass at position `i` exactly one LED is lit, the one on pin 12 + i |
| Blinky.RunLeds | src/main.rs:104-112 | after `n ≥ 1` passes the LED bits of ODR are the entry of the latest pass, `led_sequence[(p + n − 1) mod 4]` |
| Blinky.RunLightsOneLed | src/main.rs:104-112 | after `n ≥ 1` passes exactly one LED is lit, the one of the latest pass |
| Blinky.RunKeepsOthers | src/main.rs:104-112 | no number of passes changes a bit of ODR outside the LEDs |
| Blinky.RunPeriodicLeds | src/main.rs:104-112 | four further passes leave the LED bits of ODR as they were |
| Blinky.RunPeriodicOthers | src/main.rs:104-112 | four further passes leave the other bits of ODR as they were |
| Blinky.RunPeriodic | src/main.rs:104-112 | after the first pass, the whole loop state (ODR and position) repeats with period four |
| Blinky.IndexCycle | src/main.rs:101-112 | from position 0 the positions of the first eight passes are 0, 1, 2, 3, 0, 1, 2, 3 |
| Blinky.FirstRounds | src/main.rs:101-112 | from position 0, only green is lit after one pass, only blue after four, and the state after five equals the state after one |
| Blinky.LoopIteration | src/main.rs:105-112 | one pass of the loop body on the registers gives the ODR value and position of `Step`, leaves AHB1ENR and MODER alone, and writes ODR twice |
| Blinky.RunFirmware | src/main.rs:95-112 | after the set-up and `steps` passes, AHB1ENR and MODER are configured and ODR and the position are those of `Run` from position 0; the writes are AHB1ENR, then MODER, then only ODR, so the clock is on before the pins are configured |

## Left out

- Volatile access and the hardware's own behaviour are not modelled. A register holds what was last written to it. No peripheral, clock or pin changes it on its own. The model says nothing about what a write makes the hardware do.
- `delay` and its `nop` loop (src/main.rs:88-92) are left out, because they change no modelled state. The same goes for the call at src/main.rs:115.
- The infinite `loop` is modelled by its first `n` passes (`Run`, `RunFirmware`). The properties of the endless loop follow for every finite prefix.
- The `#[entry]` attribute, `#![no_std]`/`#![no_main]` and the `panic_halt` handler are left out. An arithmetic overflow that panics and halts is modelled as `None` in `EffectiveAddress`.
- Peripherals.RegisterFile.ReadReg, WriteReg and ModifyReg accept only addresses that land on one of the three modelled registers (`Mapped`). In the source they are `unsafe` and accept any address, and an access anywhere else is outside what the firmware defines. Memory outside those three registers is not part of this model.
- RegisterMap.EffectiveAddress models the overflow check of a debug build. A release build would wrap the sum modulo 2^32, and that variant is not modelled. For the firmware's own constants the sum never overflows either way (`LocationDecodes`).
- `current_led` is a `usize` in the source and a `nat` here. It never exceeds 3, so the width does not matter.

Notes on the source:

- Switching some LEDs on and then the same LEDs off does not always return ODR to its previous value. It does so only when none of those LED bits was set beforehand (`LedBits.LedsOnOffRestores`). In general the result is the previous value with those LED bits cleared (`LedBits.LedsOffAfterOn`).
- `configure_led_pins` only sets the lower bit of each mode field and never clears the upper one. Its comment relies on the upper bits being 0 already, which holds at reset. `LedBits.SetOutputModeFields` states that a pin ends up in output mode exactly when that upper bit was 0.
