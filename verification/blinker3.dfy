/** Blinker3.cs: maintenance mode folded into the state enum, giving four states. */
module Blinker3 {
  import opened Wrappers
  import Lights

  /** The four `States`: the normal phases and their maintenance twins. */
  datatype State = Off | On | MaintenanceOff | MaintenanceOn

  /** `TrafficLight`: `m_current` and `m_time` (in ticks). */
  datatype TrafficLight = TrafficLight(current: State, time: int)

  /** A light after one `Process(delta)` call and the line it printed, if any. */
  datatype Step = Step(light: TrafficLight, line: Option<string>)

  /** The on/off phase a state shows. */
  function PhaseOf(s: State): Lights.Phase
  {
    match s
    case Off => Lights.Off
    case MaintenanceOff => Lights.Off
    case On => Lights.On
    case MaintenanceOn => Lights.On
  }

  /** True for the two maintenance states. */
  predicate InMaintenance(s: State)
  {
    s == MaintenanceOff || s == MaintenanceOn
  }

  /** The state with a given phase in a given mode: the inverse of (PhaseOf, InMaintenance). */
  function StateOf(p: Lights.Phase, maintenance: bool): (s: State)
    ensures PhaseOf(s) == p && InMaintenance(s) == maintenance
  {
    match p
    case Off => if maintenance then MaintenanceOff else Off
    case On => if maintenance then MaintenanceOn else On
  }

  /** Every state is determined by its phase and its mode. */
  lemma StateOfPhaseAndMode(s: State)
    ensures StateOf(PhaseOf(s), InMaintenance(s)) == s
  {
  }

  /** `m_current = States.Off`, `m_time = TimeSpan.Zero`. */
  function Init(): (l: TrafficLight)
    ensures l.current == Off && l.time == 0
  {
    TrafficLight(Off, 0)
  }

  /** `MaintenanceMode(enable)`: enabling moves a normal state to its maintenance twin, disabling moves a
      maintenance state back; every other combination is left alone. The phase and timer are kept. */
  function MaintenanceMode(l: TrafficLight, enable: bool): (r: TrafficLight)
    ensures InMaintenance(r.current) == enable
    ensures PhaseOf(r.current) == PhaseOf(l.current)
    ensures r.time == l.time
    ensures InMaintenance(l.current) == enable ==> r == l
  {
    match l.current
    case Off => if enable then TrafficLight(MaintenanceOff, l.time) else l
    case On => if enable then TrafficLight(MaintenanceOn, l.time) else l
    case MaintenanceOff => if !enable then TrafficLight(Off, l.time) else l
    case MaintenanceOn => if !enable then TrafficLight(On, l.time) else l
  }

  /** Repeating a maintenance request changes nothing, and only the last of two requests matters. */
  lemma MaintenanceModeIdempotent(l: TrafficLight, first: bool, second: bool)
    ensures MaintenanceMode(MaintenanceMode(l, first), first) == MaintenanceMode(l, first)
    ensures MaintenanceMode(MaintenanceMode(l, first), second) == MaintenanceMode(l, second)
  {
  }

  /** `Process(delta)`: each state accumulates time and, past the threshold, resets the timer and moves to
      the other phase in the same mode, printing "Off" when leaving an off state, "Yellow" when leaving
      On and "Red" when leaving MaintenanceOn. */
  function Process(l: TrafficLight, delta: int): (r: Step)
    ensures InMaintenance(r.light.current) == InMaintenance(l.current)
    ensures r.light.time <= Lights.Threshold
    ensures r.light.current != l.current <==> l.time + delta > Lights.Threshold
    ensures r.light.current != l.current ==> PhaseOf(r.light.current) == PhaseOf(l.current).Toggle() && r.light.time == 0
    ensures r.light.current == l.current ==> r.light.time == l.time + delta
    ensures r.line.Some? <==> r.light.current != l.current
    ensures r.line.Some? && PhaseOf(l.current) == Lights.Off ==> r.line.value == "Off"
    ensures r.line.Some? && l.current == On ==> r.line.value == "Yellow"
    ensures r.line.Some? && l.current == MaintenanceOn ==> r.line.value == "Red"
  {
    var t := Lights.Advance(l.time, delta);
    match l.current
    case Off =>
      if t.fired then Step(TrafficLight(On, t.time), Some("Off")) else Step(TrafficLight(Off, t.time), None)
    case On =>
      if t.fired then Step(TrafficLight(Off, t.time), Some("Yellow")) else Step(TrafficLight(On, t.time), None)
    case MaintenanceOff =>
      if t.fired then Step(TrafficLight(MaintenanceOn, t.time), Some("Off")) else Step(TrafficLight(MaintenanceOff, t.time), None)
    case MaintenanceOn =>
      if t.fired then Step(TrafficLight(MaintenanceOff, t.time), Some("Red")) else Step(TrafficLight(MaintenanceOn, t.time), None)
  }
}
