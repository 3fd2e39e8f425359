/**
  The hit and event records of include/TEventData.hpp, and the fixed-width
  integer conversions the program relies on.
 */
module EventData {

  /** `uint8_t`, `uint16_t`, `uint32_t` and `int32_t` values. */
  type u8 = x: int | 0 <= x < 0x100
  type u16 = x: int | 0 <= x < 0x1_0000
  type u32 = x: int | 0 <= x < 0x1_0000_0000
  type i32 = x: int | -0x8000_0000 <= x < 0x8000_0000

  /** Conversion of any integer to `uint8_t`: C++ reduces modulo 2^8. */
  function ToU8(x: int): (r: u8)
    ensures (x - r) % 0x100 == 0
    ensures 0 <= x < 0x100 ==> r == x
  {
    x % 0x100
  }

  /** Conversion of any integer to `uint32_t`: reduction modulo 2^32. */
  function ToU32(x: int): (r: u32)
    ensures (x - r) % 0x1_0000_0000 == 0
    ensures 0 <= x < 0x1_0000_0000 ==> r == x
  {
    x % 0x1_0000_0000
  }

  /** Conversion of any integer to `int32_t`: two's complement wrap-around. */
  function ToI32(x: int): (r: i32)
    ensures (x - r) % 0x1_0000_0000 == 0
    ensures -0x8000_0000 <= x < 0x8000_0000 ==> r == x
  {
    var u := x % 0x1_0000_0000;
    if u < 0x8000_0000 then u else u - 0x1_0000_0000
  }

  /**
    One detector hit. The timestamp is in nanoseconds after unit conversion
    and the channel's time offset; it is an integer here (a `double` in the
    program), because the model only compares, adds and subtracts it.
   */
  datatype Hit = Hit(mod: u8, channel: u8, timestamp: int, energy: u16, energyShort: u16)

  /** One built event; `hitData[0]` is the trigger hit, rebased to time 0. */
  datatype Event = Event(
    isFissionEvent: bool,
    triggerID: u8,
    siFrontMultiplicity: u8,
    siBackMultiplicity: u8,
    siMultiplicity: u8,
    gammaMultiplicity: u8,
    neutronMultiplicity: u8,
    hitData: seq<Hit>)

  /** The five-argument `THitData` constructor. */
  function MakeHit(mod: u8, channel: u8, timestamp: int, energy: u16, energyShort: u16): (h: Hit)
    ensures h.mod == mod && h.channel == channel && h.timestamp == timestamp
    ensures h.energy == energy && h.energyShort == energyShort
  {
    Hit(mod, channel, timestamp, energy, energyShort)
  }

  /** The default `TEventData` constructor. */
  function DefaultEvent(): (e: Event)
    ensures !e.isFissionEvent && e.triggerID == 0
    ensures e.siFrontMultiplicity == 0 && e.siBackMultiplicity == 0 && e.siMultiplicity == 0
    ensures e.gammaMultiplicity == 0 && e.neutronMultiplicity == 0
    ensures |e.hitData| == 0
  {
    Event(false, 0, 0, 0, 0, 0, 0, [])
  }

  /** A hit with its timestamp expressed relative to `origin`. */
  function Rebase(h: Hit, origin: int): (r: Hit)
    ensures r.timestamp + origin == h.timestamp
    ensures r.(timestamp := h.timestamp) == h
  {
    h.(timestamp := h.timestamp - origin)
  }
}
