/** The whole firmware after start-up: the button loop of `main`,
    `led_task` and `potentiometer_task`, sharing `LED` and `IDLE_TIME`.
    The executor is not modelled; instead each moment at which one of the
    tasks resumes is an event, and a run is any finite sequence of events,
    so every interleaving the scheduler could produce is covered. */
module Board {
  import opened Selector
  import opened Shared
  import opened Driver
  import opened Control

  /** A task resumes: the button loop on an edge, the sampler with a
      finished ADC conversion, or the driver when its timer expires. */
  datatype Event = ButtonEdge(edge: Edge) | AdcReading(sample: U16) | DriverWake

  /** What the resumed task waits for next: an edge, or a timer of the
      given number of milliseconds. */
  datatype Wait = NextEdge | Timer(ms: U64)

  /** The sampler's fixed polling period in milliseconds. */
  const SamplePeriodMs: U64 := 100

  /** Everything the three tasks keep: the button loop's state, the `LED`
      and `IDLE_TIME` cells and the two pin levels. */
  datatype System = System(control: Machine, led: LedType, idle: U16, pins: Pins)

  /** The state once `main` reaches its loop. */
  const Boot := System(Start, Green, 0, Initial)

  /** One event. Only the button loop writes `LED`, only the sampler
      writes `IDLE_TIME` and only the driver touches the pins. */
  function Step(s: System, ev: Event): (r: System)
    ensures !ev.ButtonEdge? ==> r.control == s.control && r.led == s.led
    ensures !ev.AdcReading? ==> r.idle == s.idle
    ensures !ev.DriverWake? ==> r.pins == s.pins
    ensures ev.ButtonEdge? ==> r.control == Next(s.control, ev.edge)
    ensures ev.AdcReading? ==> r.idle == ev.sample
    ensures ev.DriverWake? ==> r.pins == Drive(s.led, s.pins)
    ensures ev.ButtonEdge? ==>
      r.led == if s.control.phase == WaitingForPress && ev.edge == Rising then r.control.led else s.led
  {
    match ev
    case ButtonEdge(e) =>
      var pressed := s.control.phase == WaitingForPress && e == Rising;
      var m := Next(s.control, e);
      s.(control := m, led := if pressed then m.led else s.led)
    case AdcReading(v) => s.(idle := v)
    case DriverWake => s.(pins := Drive(s.led, s.pins))
  }

  /** What the task that handled `ev` waits for, in the state `s` after it:
      the button loop its next edge, the sampler its fixed period, the
      driver the stored idle time in milliseconds. */
  function WaitAfter(s: System, ev: Event): (w: Wait)
    ensures w.NextEdge? <==> ev.ButtonEdge?
    ensures ev.AdcReading? ==> w == Timer(100)
    ensures ev.DriverWake? ==> w.Timer? && w.ms as int == s.idle as int && w.ms <= 0xFFFF
  {
    match ev
    case ButtonEdge(_) => NextEdge
    case AdcReading(_) => Timer(SamplePeriodMs)
    case DriverWake => Timer(Widen(s.idle))
  }

  /** The state after the events in `trace`, oldest first: one
      interleaving of the three loops. Each part of the state changes only
      when its own task runs. */
  function Replay(s: System, trace: seq<Event>): (r: System)
    ensures (forall i :: 0 <= i < |trace| ==> !trace[i].ButtonEdge?) ==> r.control == s.control && r.led == s.led
    ensures (forall i :: 0 <= i < |trace| ==> !trace[i].AdcReading?) ==> r.idle == s.idle
    ensures (forall i :: 0 <= i < |trace| ==> !trace[i].DriverWake?) ==> r.pins == s.pins
  {
    if trace == [] then s else Step(Replay(s, trace[..|trace| - 1]), trace[|trace| - 1])
  }

  /** The button edges of a trace, in order. */
  function Edges(trace: seq<Event>): seq<Edge>
  {
    if trace == [] then []
    else
      var last := trace[|trace| - 1];
      Edges(trace[..|trace| - 1]) + (if last.ButtonEdge? then [last.edge] else [])
  }

  /** The last ADC sample of a trace, or the initial 0 if there is none. */
  function LastSample(trace: seq<Event>): U16
  {
    if trace == [] then 0
    else if trace[|trace| - 1].AdcReading? then trace[|trace| - 1].sample
    else LastSample(trace[..|trace| - 1])
  }

  /** The shared cell agrees with the button loop's local selector, and the
      two LEDs are never both High. */
  predicate Inv(s: System)
  {
    s.led == s.control.led && NotBothHigh(s.pins)
  }

  lemma StepKeepsInv(s: System, ev: Event)
    requires Inv(s)
    ensures Inv(Step(s, ev))
  {
    if ev.ButtonEdge? {
      assert Next(s.control, ev.edge).led != s.control.led
        <==> s.control.phase == WaitingForPress && ev.edge == Rising;
    }
  }

  /** Any interleaving from start-up: the invariant holds, the button loop
      has seen exactly the trace's edges, and `IDLE_TIME` holds the last
      sample unchanged. */
  lemma {:induction false} ReplayFromBoot(trace: seq<Event>)
    ensures Inv(Replay(Boot, trace))
    ensures Replay(Boot, trace).control == Feed(Start, Edges(trace))
    ensures Replay(Boot, trace).idle == LastSample(trace)
  {
    if trace != [] {
      var init := trace[..|trace| - 1];
      ReplayFromBoot(init);
      StepKeepsInv(Replay(Boot, init), trace[|trace| - 1]);
      if trace[|trace| - 1].ButtonEdge? {
        var es := Edges(init) + [trace[|trace| - 1].edge];
        assert Edges(trace) == es;
        assert es[..|es| - 1] == Edges(init);
      } else {
        assert Edges(trace) == Edges(init);
      }
    }
  }

  /** The shared selector is Green exactly after an even number of
      presses, whatever the other tasks did in between. */
  lemma SharedSelectorParity(trace: seq<Event>)
    ensures Replay(Boot, trace).led == Green <==> Presses(Start, Edges(trace)) % 2 == 0
  {
    ReplayFromBoot(trace);
    GreenIffEvenPresses(Edges(trace));
  }

  /** A driver pass leaves the LED that `LED` does not select Low, and the
      wait that follows it is the last stored sample as a number of
      milliseconds, so at most 65535. */
  lemma DriverWakeFromBoot(trace: seq<Event>)
    ensures
      var s := Replay(Boot, trace + [DriverWake]);
      !LevelOf(s.pins, Toggled(s.led)) && NotBothHigh(s.pins)
      && WaitAfter(s, DriverWake) == Timer(Widen(LastSample(trace)))
      && WaitAfter(s, DriverWake).ms <= 0xFFFF
  {
    var t := trace + [DriverWake];
    assert t[..|t| - 1] == trace;
    ReplayFromBoot(trace);
  }

  /** The firmware's objects: the two shared cells, the driver's pins and
      the button loop. */
  class Board {
    const cell: LedCell
    const idle: IdleTime
    const task: LedTask
    const button: ButtonLoop

    ghost predicate Valid()
      reads this, cell, button
    {
      button.cell == cell && button.Valid()
    }

    function Abstract(): System
      reads this, cell, idle, task, button
    {
      System(button.State(), cell.led, idle.raw, task.PinsNow())
    }

    constructor ()
      ensures Valid() && Abstract() == Boot
      ensures fresh(cell) && fresh(idle) && fresh(task) && fresh(button)
    {
      var c := new LedCell();
      cell := c;
      idle := new IdleTime();
      task := new LedTask();
      button := new ButtonLoop(c);
    }

    /** Resume the task that `ev` wakes, and return what it waits for next. */
    method Handle(ev: Event) returns (wait: Wait)
      requires Valid()
      modifies cell, idle, task, button
      ensures Valid()
      ensures Abstract() == Step(old(Abstract()), ev)
      ensures wait == WaitAfter(Abstract(), ev)
    {
      match ev {
        case ButtonEdge(e) =>
          button.OnEdge(e);
          wait := NextEdge;
        case AdcReading(v) =>
          idle.Store(v);
          wait := Timer(SamplePeriodMs);
        case DriverWake =>
          var ms := task.Iterate(cell, idle);
          wait := Timer(ms);
      }
    }

    /** Handle the events of `trace` in order. */
    method Run(trace: seq<Event>)
      requires Valid()
      modifies cell, idle, task, button
      ensures Valid()
      ensures Abstract() == Replay(old(Abstract()), trace)
    {
      for i := 0 to |trace|
        invariant Valid()
        invariant Abstract() == Replay(old(Abstract()), trace[..i])
      {
        assert trace[..i + 1][..i] == trace[..i];
        var _ := Handle(trace[i]);
      }
      assert trace[..|trace|] == trace;
    }
  }
}
