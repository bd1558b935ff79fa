/**
 * The memory map the firmware relies on: the two peripheral base addresses,
 * the byte offsets of the three registers it touches, and the decoding of a
 * `base + offset` pair into one of those registers.
 */
module RegisterMap {

  datatype Option<T> = None | Some(value: T)

  /** An unsigned 32-bit machine integer, the type of every address and offset. */
  newtype u32 = x: int | 0 <= x < 0x1_0000_0000

  /** Base address of the reset and clock control (RCC) block. */
  const RCC_BASE: u32 := 0x4002_3800
  /** Base address of GPIO port D. */
  const GPIOD_BASE: u32 := 0x4002_0C00

  const RCC_AHB1ENR_OFFSET: u32 := 0x30
  const GPIO_MODER_OFFSET: u32 := 0x00
  const GPIO_ODR_OFFSET: u32 := 0x14

  /** The three registers of the model: the AHB1 clock-enable register, and GPIOD's mode and output registers. */
  datatype Reg = Ahb1enr | Moder | Odr

  /**
   * The address `base + offset` as computed on a `u32`. An addition that does not
   * fit in 32 bits aborts the program (the overflow check of a debug build,
   * followed by the halting panic handler); `None` stands for that abort.
   */
  function EffectiveAddress(base: u32, offset: u32): (r: Option<u32>)
    ensures r.Some? <==> base as int + offset as int < 0x1_0000_0000
    ensures r.Some? ==> r.value as int == base as int + offset as int
  {
    var sum := base as int + offset as int;
    if sum < 0x1_0000_0000 then Some(sum as u32) else None
  }

  /** The base and offset through which the firmware names each register. */
  function Location(r: Reg): (u32, u32)
  {
    match r
    case Ahb1enr => (RCC_BASE, RCC_AHB1ENR_OFFSET)
    case Moder => (GPIOD_BASE, GPIO_MODER_OFFSET)
    case Odr => (GPIOD_BASE, GPIO_ODR_OFFSET)
  }

  /** The bus address of each register: its base plus its offset, without wrap-around. */
  function AddressOf(r: Reg): (a: u32)
    ensures a as int == Location(r).0 as int + Location(r).1 as int
  {
    match r
    case Ahb1enr => 0x4002_3830
    case Moder => 0x4002_0C00
    case Odr => 0x4002_0C14
  }

  /** Which modelled register, if any, lives at `addr`. */
  function RegisterAt(addr: u32): (r: Option<Reg>)
    ensures r.Some? ==> AddressOf(r.value) == addr
    ensures r.None? ==> forall q: Reg :: AddressOf(q) != addr
  {
    if addr == AddressOf(Ahb1enr) then Some(Ahb1enr)
    else if addr == AddressOf(Moder) then Some(Moder)
    else if addr == AddressOf(Odr) then Some(Odr)
    else None
  }

  /** `base + offset` does not overflow and hits one of the modelled registers. */
  predicate Mapped(base: u32, offset: u32)
  {
    var a := EffectiveAddress(base, offset);
    a.Some? && RegisterAt(a.value).Some?
  }

  /** The register that `base + offset` designates. */
  function Target(base: u32, offset: u32): (r: Reg)
    requires Mapped(base, offset)
    ensures EffectiveAddress(base, offset) == Some(AddressOf(r))
  {
    RegisterAt(EffectiveAddress(base, offset).value).value
  }

  /** The three registers sit at three different addresses. */
  lemma AddressesDistinct(r: Reg, q: Reg)
    ensures AddressOf(r) == AddressOf(q) <==> r == q
  {
  }

  /** Each register's own base and offset neither overflow nor reach another register. */
  lemma LocationDecodes(r: Reg)
    ensures Mapped(Location(r).0, Location(r).1)
    ensures Target(Location(r).0, Location(r).1) == r
  {
    AddressesDistinct(r, Target(Location(r).0, Location(r).1));
  }
}
