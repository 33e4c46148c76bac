/** The two cells the tasks share: the selector `LED` and the blink period
    `IDLE_TIME`. Locking, `RefCell` borrowing and memory orderings are not
    modelled; each cell is a plain field. */
module Shared {
  import opened Selector

  /** Rust's `u16`: the width of an ADC sample and of `AtomicU16`. */
  newtype U16 = x: int | 0 <= x < 0x1_0000

  /** Rust's `u64`: the argument type of `Timer::after_millis`. */
  newtype U64 = x: int | 0 <= x < 0x1_0000_0000_0000_0000

  /** The static `LED` cell; it holds Green when the firmware starts. */
  class LedCell {
    var led: LedType

    constructor ()
      ensures led == Green
    {
      led := Green;
    }
  }

  /** `set_led`: replace the cell's contents with `t`. */
  method SetLed(cell: LedCell, t: LedType)
    modifies cell
    ensures cell.led == t
  {
    cell.led := t;
  }

  /** The static `IDLE_TIME` cell; it holds 0 when the firmware starts. */
  class IdleTime {
    var raw: U16

    constructor ()
      ensures raw == 0
    {
      raw := 0;
    }

    /** `IDLE_TIME.store`: the sample is kept unchanged, with no scaling or clamping. */
    method Store(v: U16)
      modifies this
      ensures raw == v
    {
      raw := v;
    }

    /** `IDLE_TIME.load`: yields the last stored sample and changes nothing. */
    method Load() returns (v: U16)
      ensures v == raw
    {
      v := raw;
    }
  }

  /** The `as u64` cast of a loaded sample: a widening, so the number is
      preserved and stays below 2^16. */
  function Widen(v: U16): (r: U64)
    ensures r as int == v as int
    ensures r <= 0xFFFF
  {
    v as int as U64
  }
}
