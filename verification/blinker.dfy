/** Blinker.cs: a two-state traffic light that flips on every tick and prints its new state. */
module Blinker {
  import opened Lights

  /** `TrafficLight`: its only state variable is `m_current`. */
  datatype TrafficLight = TrafficLight(current: Phase)

  /** A light after one `Process()` call and the line it wrote to the console. */
  datatype Step = Step(light: TrafficLight, line: string)

  /** `m_current = States.Off`. */
  function Init(): (l: TrafficLight)
    ensures l.current == Off
  {
    TrafficLight(Off)
  }

  /** `Process()`: the switch moves Off to On and On to Off and prints the state just entered. */
  function Process(l: TrafficLight): (r: Step)
    ensures r.light.current != l.current
    ensures r.line == r.light.current.Name()
  {
    match l.current
    case Off => Step(TrafficLight(On), On.Name())
    case On => Step(TrafficLight(Off), Off.Name())
  }

  /** The states a light passes through during `n` consecutive ticks. */
  function Run(l: TrafficLight, n: nat): (states: seq<Phase>)
    ensures |states| == n
    decreases n
  {
    if n == 0 then [] else
      var next := Process(l).light;
      [next.current] + Run(next, n - 1)
  }

  /** Two ticks bring a light back to where it started. */
  lemma ProcessTwiceRestores(l: TrafficLight)
    ensures Process(Process(l).light).light == l
  {
  }

  /** The phases alternate: the k-th tick (from 0) lands on the other phase when k is even,
      and on the starting phase when k is odd. */
  lemma {:induction false} RunAlternates(l: TrafficLight, n: nat)
    ensures forall k :: 0 <= k < n ==> Run(l, n)[k] == (if k % 2 == 0 then l.current.Toggle() else l.current)
    decreases n
  {
    if n > 0 {
      var next := Process(l).light;
      RunAlternates(next, n - 1);
      assert next.current == l.current.Toggle();
      forall k | 0 <= k < n
        ensures Run(l, n)[k] == (if k % 2 == 0 then l.current.Toggle() else l.current)
      {
        if k > 0 {
          assert Run(l, n)[k] == Run(next, n - 1)[k - 1];
        }
      }
    }
  }

  /** From the initial state, four ticks produce On, Off, On, Off. */
  lemma FourTicksFromInit()
    ensures Run(Init(), 4) == [On, Off, On, Off]
  {
    RunAlternates(Init(), 4);
  }
}
