/** The body of `led_task`: one pass drives the two LED pins from the
    selector, then waits for the period held in `IDLE_TIME`. */
module Driver {
  import opened Selector
  import opened Shared

  /** Output levels of the green and blue pins; `true` is `Level::High`. */
  datatype Pins = Pins(green: bool, blue: bool)

  /** The levels the pins are created with: green High, blue Low. */
  const Initial := Pins(true, false)

  /** The level of the pin that belongs to selector `t`. */
  function LevelOf(p: Pins, t: LedType): bool
  {
    match t
    case Green => p.green
    case Blue => p.blue
  }

  predicate NotBothHigh(p: Pins)
  {
    !(p.green && p.blue)
  }

  /** One pass of the driver loop under selector `sel`: the selected LED is
      inverted, the other one is forced Low. */
  function Drive(sel: LedType, p: Pins): (r: Pins)
    ensures LevelOf(r, sel) == !LevelOf(p, sel)
    ensures !LevelOf(r, Toggled(sel))
    ensures NotBothHigh(r)
  {
    match sel
    case Green => Pins(!p.green, false)
    case Blue => Pins(false, !p.blue)
  }

  /** When the selector has just switched away from `prev`, the pass turns
      the previously selected LED off, whatever its level was. */
  lemma SwitchTurnsPreviousOff(prev: LedType, sel: LedType, p: Pins)
    requires sel != prev
    ensures !LevelOf(Drive(sel, p), prev)
  {
    assert prev == Toggled(sel);
  }

  /** The pins after one pass per selector read in `sels`, oldest first:
      the driver loop iterated. No pass leaves the pins unchanged, and after
      the last pass only the LED it selected can be High. */
  function Run(p: Pins, sels: seq<LedType>): (r: Pins)
    ensures sels == [] ==> r == p
    ensures sels != [] ==> NotBothHigh(r) && !LevelOf(r, Toggled(sels[|sels| - 1]))
  {
    if sels == [] then p else Drive(sels[|sels| - 1], Run(p, sels[..|sels| - 1]))
  }

  /** From the start-up levels, no sequence of passes under any sequence of
      selectors ever has both LEDs High, and after at least one pass the LED
      not selected by the last pass is Low. */
  lemma {:induction false} RunNeverBothHigh(sels: seq<LedType>)
    ensures NotBothHigh(Run(Initial, sels))
    ensures sels != [] ==> !LevelOf(Run(Initial, sels), Toggled(sels[|sels| - 1]))
  {
    if sels != [] {
      var last := sels[|sels| - 1];
      assert Run(Initial, sels) == Drive(last, Run(Initial, sels[..|sels| - 1]));
    }
  }

  /** `n` passes under a selector that does not change. */
  function Repeat(sel: LedType, n: nat): (s: seq<LedType>)
    ensures |s| == n
    ensures forall i :: 0 <= i < n ==> s[i] == sel
  {
    seq(n, _ => sel)
  }

  /** Under a constant selector the selected LED blinks: after `n` passes
      its level is the start level inverted `n` times, and after every pass
      the other LED is Low. */
  lemma {:induction false} SteadySelectorBlinks(sel: LedType, p: Pins, n: nat)
    ensures LevelOf(Run(p, Repeat(sel, n)), sel) == (LevelOf(p, sel) != (n % 2 == 1))
    ensures n > 0 ==> !LevelOf(Run(p, Repeat(sel, n)), Toggled(sel))
  {
    if n > 0 {
      var s := Repeat(sel, n);
      assert s[..n - 1] == Repeat(sel, n - 1);
      SteadySelectorBlinks(sel, p, n - 1);
    }
  }

  /** The pins owned by `led_task`. */
  class LedTask {
    var green: bool
    var blue: bool

    function PinsNow(): Pins
      reads this
    {
      Pins(green, blue)
    }

    constructor ()
      ensures PinsNow() == Initial
    {
      green, blue := true, false;
    }

    /** One iteration of the `led_task` loop: read the selector cell, drive
        the pins, then read `IDLE_TIME` and return the wait in milliseconds.
        Neither shared cell is written. */
    method Iterate(cell: LedCell, idle: IdleTime) returns (delayMs: U64)
      modifies this
      ensures PinsNow() == Drive(cell.led, old(PinsNow()))
      ensures delayMs as int == idle.raw as int
    {
      match cell.led {
        case Green =>
          blue := false;
          green := !green;
        case Blue =>
          green := false;
          blue := !blue;
      }
      var raw := idle.Load();
      delayMs := Widen(raw);
    }
  }
}
