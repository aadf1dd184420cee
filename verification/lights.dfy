/** What the Blinker series of traffic lights share: the on/off phase and the one-second blink timer. */
module Lights {

  /** TimeSpan values are modelled as whole ticks of 100 ns. */
  const TicksPerSecond: int := 10_000_000

  /** `s_threshold = TimeSpan.FromSeconds(1)`: how long a light stays in one phase. */
  const Threshold: int := TicksPerSecond

  /** The `States { Off, On }` enum every light declares. */
  datatype Phase = Off | On {

    /** The other phase. */
    function Toggle(): (p: Phase)
      ensures p != this
    {
      match this
      case Off => On
      case On => Off
    }

    /** The enum member's name, as `Console.WriteLine(m_current)` prints it. */
    function Name(): string
    {
      match this
      case Off => "Off"
      case On => "On"
    }
  }

  /** The result of `m_time += delta` followed by the `m_time > s_threshold` test. */
  datatype Tick = Tick(fired: bool, time: int)

  /** Accumulate `delta` into a light's `m_time`; when the sum strictly exceeds the threshold the timer
      fires and `m_time` is reset to zero. */
  function Advance(time: int, delta: int): (r: Tick)
    ensures r.time <= Threshold
    ensures r.fired <==> time + delta > Threshold
    ensures !r.fired ==> r.time == time + delta
    ensures r.fired ==> r.time == 0
  {
    var accumulated := time + delta;
    if accumulated > Threshold then Tick(true, 0) else Tick(false, accumulated)
  }
}
