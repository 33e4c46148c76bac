/** The button loop at the end of `main`: wait for a rising edge, flip the
    local selector and publish it with `set_led`, wait for the falling edge,
    repeat. */
module Control {
  import opened Selector
  import opened Shared

  /** An edge reported by the button's EXTI line. */
  datatype Edge = Rising | Falling

  /** Where the loop is suspended. */
  datatype Phase = WaitingForPress | WaitingForRelease

  /** The loop's own state: its phase and its local `led_type`. */
  datatype Machine = Machine(phase: Phase, led: LedType)

  /** Entering the loop: waiting for a press, `led_type` Green. */
  const Start := Machine(WaitingForPress, Green)

  /** The loop's reaction to one edge. An edge other than the awaited one
      is not seen by `wait_for_rising_edge` / `wait_for_falling_edge` and
      changes nothing. */
  function Next(m: Machine, e: Edge): (r: Machine)
    ensures e == Falling ==> r.led == m.led
    ensures r.led != m.led <==> m.phase == WaitingForPress && e == Rising
    ensures r.led != m.led ==> r.led == Toggled(m.led) && r.phase == WaitingForRelease
    ensures r.phase != m.phase <==> (m.phase == WaitingForPress) == (e == Rising)
  {
    match (m.phase, e)
    case (WaitingForPress, Rising) => Machine(WaitingForRelease, Toggled(m.led))
    case (WaitingForRelease, Falling) => Machine(WaitingForPress, m.led)
    case _ => m
  }

  /** The state after the edges in `edges`, oldest first: the loop
      iterated. After a rising edge the loop always waits for a release and
      after a falling edge for a press; falling edges alone never change the
      selector. */
  function Feed(m: Machine, edges: seq<Edge>): (r: Machine)
    ensures edges == [] ==> r == m
    ensures edges != [] ==>
      r.phase == if edges[|edges| - 1] == Rising then WaitingForRelease else WaitingForPress
    ensures (forall i :: 0 <= i < |edges| ==> edges[i] == Falling) ==> r.led == m.led
  {
    if edges == [] then m else Next(Feed(m, edges[..|edges| - 1]), edges[|edges| - 1])
  }

  /** How many of `edges` are accepted as presses: rising edges that
      arrive while the loop waits for a press. */
  function Presses(m: Machine, edges: seq<Edge>): nat
  {
    if edges == [] then 0
    else
      var before := Feed(m, edges[..|edges| - 1]);
      Presses(m, edges[..|edges| - 1])
        + (if before.phase == WaitingForPress && edges[|edges| - 1] == Rising then 1 else 0)
  }

  function CountRising(edges: seq<Edge>): nat
  {
    if edges == [] then 0
    else CountRising(edges[..|edges| - 1]) + (if edges[|edges| - 1] == Rising then 1 else 0)
  }

  /** Exactly one flip per accepted press and none otherwise: the local
      selector after any edge sequence is the start selector flipped once
      per press. */
  lemma {:induction false} FeedFlipsOncePerPress(m: Machine, edges: seq<Edge>)
    ensures Feed(m, edges).led == ToggledTimes(m.led, Presses(m, edges))
  {
    if edges != [] {
      FeedFlipsOncePerPress(m, edges[..|edges| - 1]);
    }
  }

  /** From the start of the loop, the selector is Green after an even
      number of presses and Blue after an odd number. */
  lemma {:induction false} GreenIffEvenPresses(edges: seq<Edge>)
    ensures Feed(Start, edges).led == Green <==> Presses(Start, edges) % 2 == 0
    ensures Feed(Start, edges).led == Blue <==> Presses(Start, edges) % 2 == 1
  {
    FeedFlipsOncePerPress(Start, edges);
    GreenAfterEvenFlips(Presses(Start, edges));
  }

  /** Presses never outnumber rising edges. */
  lemma {:induction false} PressesAtMostRising(m: Machine, edges: seq<Edge>)
    ensures Presses(m, edges) <= CountRising(edges)
  {
    if edges != [] {
      PressesAtMostRising(m, edges[..|edges| - 1]);
    }
  }

  /** Edges as a real button produces them from rest: rising, falling,
      rising, … */
  predicate Alternating(edges: seq<Edge>)
  {
    forall i :: 0 <= i < |edges| ==> edges[i] == if i % 2 == 0 then Rising else Falling
  }

  /** On alternating edges every rising edge is a press, and the loop
      waits for a press exactly after an even number of edges. */
  lemma {:induction false} AlternatingEdgesAllCount(edges: seq<Edge>)
    requires Alternating(edges)
    ensures Presses(Start, edges) == CountRising(edges) == (|edges| + 1) / 2
    ensures Feed(Start, edges).phase == if |edges| % 2 == 0 then WaitingForPress else WaitingForRelease
  {
    if edges != [] {
      var init := edges[..|edges| - 1];
      assert Alternating(init) by {
        forall i | 0 <= i < |init|
          ensures init[i] == if i % 2 == 0 then Rising else Falling
        {
          assert init[i] == edges[i];
        }
      }
      AlternatingEdgesAllCount(init);
    }
  }

  /** The main loop's locals, with the shared selector cell it writes. */
  class ButtonLoop {
    var phase: Phase
    var ledType: LedType
    const cell: LedCell

    function State(): Machine
      reads this
    {
      Machine(phase, ledType)
    }

    /** The shared cell always holds the loop's local `led_type`. */
    ghost predicate Valid()
      reads this, cell
    {
      cell.led == ledType
    }

    constructor (cell: LedCell)
      requires cell.led == Green
      ensures this.cell == cell
      ensures State() == Start && Valid()
    {
      this.cell := cell;
      phase, ledType := WaitingForPress, Green;
    }

    /** One edge seen by the loop: a press flips `led_type` and publishes it
        with `set_led`; a release returns to waiting for a press. */
    method OnEdge(e: Edge)
      requires Valid()
      modifies this, cell
      ensures Valid()
      ensures State() == Next(old(State()), e)
    {
      match phase {
        case WaitingForPress =>
          if e == Rising {
            ledType := Toggled(ledType);
            SetLed(cell, ledType);
            phase := WaitingForRelease;
          }
        case WaitingForRelease =>
          if e == Falling {
            phase := WaitingForPress;
          }
      }
    }

    /** The loop run over a finite sequence of edges. */
    method Run(edges: seq<Edge>)
      requires Valid()
      modifies this, cell
      ensures Valid()
      ensures State() == Feed(old(State()), edges)
    {
      for i := 0 to |edges|
        invariant Valid()
        invariant State() == Feed(old(State()), edges[..i])
      {
        assert edges[..i + 1][..i] == edges[..i];
        OnEdge(edges[i]);
      }
      assert edges[..|edges|] == edges;
    }
  }
}
