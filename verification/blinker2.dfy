/** Blinker2.cs: the two-state light now blinks on a timer, flipping once more than a second has accumulated. */
module Blinker2 {
  import opened Wrappers
  import opened Lights
  import Blinker

  /** `TrafficLight`: the phase `m_current` and the time `m_time` (in ticks) spent in it. */
  datatype TrafficLight = TrafficLight(current: Phase, time: int)

  /** A light after one `Process(delta)` call and the line it printed, if any. */
  datatype Step = Step(light: TrafficLight, line: Option<string>)

  /** `m_current = States.Off`, `m_time = TimeSpan.Zero`. */
  function Init(): (l: TrafficLight)
    ensures l.current == Off && l.time == 0
  {
    TrafficLight(Off, 0)
  }

  /** `Process(delta)`: in either phase, add `delta` to the timer; when it exceeds the threshold, reset it,
      flip the phase and print the phase just entered. */
  function Process(l: TrafficLight, delta: int): (r: Step)
    ensures r.light.time <= Threshold
    ensures r.light.current != l.current <==> l.time + delta > Threshold
    ensures r.light.current != l.current ==> r.light.time == 0
    ensures r.light.current == l.current ==> r.light.time == l.time + delta
    ensures r.line.Some? <==> r.light.current != l.current
    ensures r.line.Some? ==> r.line.value == r.light.current.Name()
  {
    var t := Advance(l.time, delta);
    match l.current
    case Off => if t.fired then Step(TrafficLight(On, t.time), Some(On.Name())) else Step(TrafficLight(Off, t.time), None)
    case On => if t.fired then Step(TrafficLight(Off, t.time), Some(Off.Name())) else Step(TrafficLight(On, t.time), None)
  }

  /** The total of a sequence of tick lengths. */
  function Sum(deltas: seq<int>): int
  {
    if deltas == [] then 0 else deltas[0] + Sum(deltas[1..])
  }

  /** Feed a sequence of ticks to a light: the final light and every line printed, in order. */
  function Run(l: TrafficLight, deltas: seq<int>): (r: (TrafficLight, seq<string>))
    decreases |deltas|
  {
    if deltas == [] then (l, []) else
      var s := Process(l, deltas[0]);
      var rest := Run(s.light, deltas[1..]);
      (rest.0, (if s.line.Some? then [s.line.value] else []) + rest.1)
  }

  /** Whenever the timed light flips, it does what Blinker.cs's untimed light does on every tick:
      same new phase, same printed line. */
  lemma FlipMatchesBlinker(l: TrafficLight, delta: int)
    requires Process(l, delta).line.Some?
    ensures Process(l, delta).light.current == Blinker.Process(Blinker.TrafficLight(l.current)).light.current
    ensures Process(l, delta).line == Some(Blinker.Process(Blinker.TrafficLight(l.current)).line)
  {
  }

  /** While the accumulated time stays at or below one second, the light holds its phase, prints
      nothing, and its timer is the running total of the ticks. */
  lemma {:induction false} HoldsUntilThreshold(l: TrafficLight, deltas: seq<int>)
    requires forall i :: 0 <= i < |deltas| ==> deltas[i] >= 0
    requires l.time + Sum(deltas) <= Threshold
    ensures Run(l, deltas) == (TrafficLight(l.current, l.time + Sum(deltas)), [])
    decreases |deltas|
  {
    if deltas != [] {
      assert Sum(deltas) == deltas[0] + Sum(deltas[1..]);
      assert Sum(deltas[1..]) >= 0 by { SumNonNegative(deltas[1..]); }
      var s := Process(l, deltas[0]);
      assert s.light == TrafficLight(l.current, l.time + deltas[0]);
      assert s.line.None?;
      HoldsUntilThreshold(s.light, deltas[1..]);
      assert Run(l, deltas) == (Run(s.light, deltas[1..]).0, [] + Run(s.light, deltas[1..]).1);
      assert Run(s.light, deltas[1..]).1 == [];
      assert Run(s.light, deltas[1..]).0 == TrafficLight(l.current, l.time + deltas[0] + Sum(deltas[1..]));
      assert Run(l, deltas).1 == [];
      assert Run(l, deltas).0 == TrafficLight(l.current, l.time + Sum(deltas));
    }
  }

  /** Non-negative ticks add up to a non-negative total. */
  lemma {:induction false} SumNonNegative(deltas: seq<int>)
    requires forall i :: 0 <= i < |deltas| ==> deltas[i] >= 0
    ensures Sum(deltas) >= 0
    decreases |deltas|
  {
    if deltas != [] {
      SumNonNegative(deltas[1..]);
    }
  }
}
