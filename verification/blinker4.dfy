/** Blinker4.cs: the four states of Blinker3.cs factored into an on/off phase plus a maintenance flag. */
module Blinker4 {
  import opened Wrappers
  import opened Lights
  import Blinker3

  /** `TrafficLight`: `m_current`, `m_time` (in ticks) and `m_maintenance`. */
  datatype TrafficLight = TrafficLight(current: Phase, time: int, maintenance: bool)

  /** A light after one `Process(delta)` call and the line it printed, if any. */
  datatype Step = Step(light: TrafficLight, line: Option<string>)

  /** The inputs the Run loop sends: an arrow key toggling maintenance, or a tick. */
  datatype Input = MaintenanceInput(enable: bool) | Tick(delta: int)

  /** `m_current = States.Off`, `m_time = TimeSpan.Zero`, `m_maintenance` defaults to false. */
  function Init(): (l: TrafficLight)
    ensures l.current == Off && l.time == 0 && !l.maintenance
  {
    TrafficLight(Off, 0, false)
  }

  /** `MaintenanceMode(enable)`: both cases of the switch store `enable` and touch nothing else. */
  function MaintenanceMode(l: TrafficLight, enable: bool): (r: TrafficLight)
    ensures r.maintenance == enable
    ensures r.current == l.current && r.time == l.time
  {
    match l.current
    case Off => l.(maintenance := enable)
    case On => l.(maintenance := enable)
  }

  /** `Process(delta)`: accumulate time; past the threshold reset it and flip the phase. Leaving Off prints
      "Off"; leaving On prints "Red" in maintenance and "Yellow" otherwise. The flag is never changed. */
  function Process(l: TrafficLight, delta: int): (r: Step)
    ensures r.light.maintenance == l.maintenance
    ensures r.light.time <= Threshold
    ensures r.light.current != l.current <==> l.time + delta > Threshold
    ensures r.light.current != l.current ==> r.light.time == 0
    ensures r.light.current == l.current ==> r.light.time == l.time + delta
    ensures r.line.Some? <==> r.light.current != l.current
    ensures r.line.Some? && l.current == Off ==> r.line.value == "Off"
    ensures r.line.Some? && l.current == On ==> r.line.value == (if l.maintenance then "Red" else "Yellow")
  {
    var t := Advance(l.time, delta);
    match l.current
    case Off =>
      if t.fired then Step(l.(current := On, time := t.time), Some("Off")) else Step(l.(time := t.time), None)
    case On =>
      if t.fired then Step(l.(current := Off, time := t.time), Some(if l.maintenance then "Red" else "Yellow"))
      else Step(l.(time := t.time), None)
  }

  /** The Blinker3.cs light this light stands for: (Off, false) is Off, (On, false) is On, (Off, true) is
      MaintenanceOff and (On, true) is MaintenanceOn. */
  function Abstract(l: TrafficLight): (a: Blinker3.TrafficLight)
    ensures Blinker3.PhaseOf(a.current) == l.current
    ensures Blinker3.InMaintenance(a.current) == l.maintenance
    ensures a.time == l.time
  {
    Blinker3.TrafficLight(Blinker3.StateOf(l.current, l.maintenance), l.time)
  }

  /** The correspondence is one-to-one and onto: every Blinker3 light is the image of exactly one light. */
  lemma AbstractIsBijective(a: Blinker3.TrafficLight, l: TrafficLight, m: TrafficLight)
    ensures Abstract(TrafficLight(Blinker3.PhaseOf(a.current), a.time, Blinker3.InMaintenance(a.current))) == a
    ensures Abstract(l) == Abstract(m) ==> l == m
  {
    Blinker3.StateOfPhaseAndMode(a.current);
  }

  /** Both lights start in the same state. */
  lemma InitRefines()
    ensures Abstract(Init()) == Blinker3.Init()
  {
  }

  /** `MaintenanceMode` commutes with the correspondence. */
  lemma MaintenanceModeRefines(l: TrafficLight, enable: bool)
    ensures Abstract(MaintenanceMode(l, enable)) == Blinker3.MaintenanceMode(Abstract(l), enable)
  {
  }

  /** `Process` commutes with the correspondence and prints the same line. */
  lemma ProcessRefines(l: TrafficLight, delta: int)
    ensures Abstract(Process(l, delta).light) == Blinker3.Process(Abstract(l), delta).light
    ensures Process(l, delta).line == Blinker3.Process(Abstract(l), delta).line
  {
  }

  /** One input to either light: the new light and the line printed, if any. */
  function Apply(l: TrafficLight, input: Input): Step
  {
    match input
    case MaintenanceInput(enable) => Step(MaintenanceMode(l, enable), None)
    case Tick(delta) => Process(l, delta)
  }

  function Apply3(l: Blinker3.TrafficLight, input: Input): Blinker3.Step
  {
    match input
    case MaintenanceInput(enable) => Blinker3.Step(Blinker3.MaintenanceMode(l, enable), None)
    case Tick(delta) => Blinker3.Process(l, delta)
  }

  /** The lines a light prints over a sequence of inputs, and where it ends up. */
  function Run(l: TrafficLight, inputs: seq<Input>): (TrafficLight, seq<string>)
    decreases |inputs|
  {
    if inputs == [] then (l, []) else
      var s := Apply(l, inputs[0]);
      var rest := Run(s.light, inputs[1..]);
      (rest.0, (if s.line.Some? then [s.line.value] else []) + rest.1)
  }

  function Run3(l: Blinker3.TrafficLight, inputs: seq<Input>): (Blinker3.TrafficLight, seq<string>)
    decreases |inputs|
  {
    if inputs == [] then (l, []) else
      var s := Apply3(l, inputs[0]);
      var rest := Run3(s.light, inputs[1..]);
      (rest.0, (if s.line.Some? then [s.line.value] else []) + rest.1)
  }

  /** Blinker4.cs refines Blinker3.cs: on every input trace both print the same lines and end in
      corresponding states. */
  lemma {:induction false} RunRefines(l: TrafficLight, inputs: seq<Input>)
    ensures Run(l, inputs).1 == Run3(Abstract(l), inputs).1
    ensures Abstract(Run(l, inputs).0) == Run3(Abstract(l), inputs).0
    decreases |inputs|
  {
    if inputs != [] {
      var s := Apply(l, inputs[0]);
      match inputs[0] {
        case MaintenanceInput(enable) => MaintenanceModeRefines(l, enable);
        case Tick(delta) => ProcessRefines(l, delta);
      }
      assert Abstract(s.light) == Apply3(Abstract(l), inputs[0]).light;
      assert s.line == Apply3(Abstract(l), inputs[0]).line;
      RunRefines(s.light, inputs[1..]);
    }
  }
}
