/** Blinker5.cs: an intersection in Normal or Maintenance mode driving four timed lights, one per direction. */
module Blinker5 {
  import opened Wrappers
  import opened Lights

  /** `TrafficLight.Direction`. */
  datatype Direction = North | South | East | West {
    function Name(): string
    {
      match this
      case North => "North"
      case South => "South"
      case East => "East"
      case West => "West"
    }
  }

  /** `TrafficLight.Color`: the colour a light shows as it switches off. */
  datatype Color = Yellow | Red {
    function Name(): string
    {
      match this
      case Yellow => "Yellow"
      case Red => "Red"
    }
  }

  /** `TrafficIntersection.States`. */
  datatype Mode = Normal | Maintenance

  /** One light: its fixed direction and colour, its phase `m_current` and timer `m_time` (ticks). */
  datatype Light = Light(direction: Direction, color: Color, current: Phase, time: int)

  /** The intersection: its mode `m_current` and the array `m_lights`. */
  datatype Intersection = Intersection(current: Mode, lights: seq<Light>)

  /** One light after a tick, and the line it printed, if any. */
  datatype LightStep = LightStep(light: Light, line: Option<string>)

  /** The intersection after a tick, and every line its lights printed, in array order. */
  datatype Step = Step(intersection: Intersection, lines: seq<string>)

  /** The light configuration built by the constructor. */
  function Configuration(): (ls: seq<(Direction, Color)>)
    ensures |ls| == 4 && ls[0].0 == North && ls[1].0 == East && ls[2].0 == South && ls[3].0 == West
    ensures forall i, j :: 0 <= i < j < |ls| ==> ls[i].0 != ls[j].0
    ensures forall i :: 0 <= i < |ls| ==> (ls[i].1 == Yellow <==> ls[i].0 in {North, South})
  {
    [(North, Yellow), (East, Red), (South, Yellow), (West, Red)]
  }

  /** A new intersection: Normal mode, and each configured light Off with a zero timer. */
  function Init(): (x: Intersection)
    ensures x.current == Normal
    ensures |x.lights| == |Configuration()|
    ensures forall i :: 0 <= i < |x.lights| ==>
      x.lights[i] == Light(Configuration()[i].0, Configuration()[i].1, Off, 0)
  {
    Intersection(Normal, [Light(North, Yellow, Off, 0), Light(East, Red, Off, 0),
                          Light(South, Yellow, Off, 0), Light(West, Red, Off, 0)])
  }

  /** `IsMaintenance`. */
  predicate IsMaintenance(x: Intersection)
  {
    x.current == Maintenance
  }

  /** `MaintenanceMode(enable)`: the mode becomes Maintenance exactly when `enable` holds, whatever it was;
      no light is touched. */
  function MaintenanceMode(x: Intersection, enable: bool): (r: Intersection)
    ensures IsMaintenance(r) == enable
    ensures r.lights == x.lights
  {
    Intersection(if enable then Maintenance else Normal, x.lights)
  }

  /** The intersection's mode after a maintenance request does not depend on the mode before it. */
  lemma MaintenanceModeIdempotent(x: Intersection, first: bool, second: bool)
    ensures MaintenanceMode(MaintenanceMode(x, first), first) == MaintenanceMode(x, first)
    ensures MaintenanceMode(MaintenanceMode(x, first), second) == MaintenanceMode(x, second)
  {
  }

  /** `TrafficLight.Process(delta)`, reading the parent's threshold and maintenance flag: accumulate time;
      past the threshold reset it and flip. Leaving Off prints "<direction>: Off"; leaving On prints
      "<direction>: Red" in maintenance and "<direction>: <colour>" otherwise. */
  function LightProcess(l: Light, maintenance: bool, delta: int): (r: LightStep)
    ensures r.light.direction == l.direction && r.light.color == l.color
    ensures r.light.time <= Threshold
    ensures r.light.current != l.current <==> l.time + delta > Threshold
    ensures r.light.current != l.current ==> r.light.time == 0
    ensures r.light.current == l.current ==> r.light.time == l.time + delta
    ensures r.line.Some? <==> r.light.current != l.current
    ensures r.line.Some? && l.current == Off ==> r.line.value == l.direction.Name() + ": Off"
    ensures r.line.Some? && l.current == On ==>
      r.line.value == l.direction.Name() + ": " + (if maintenance then Red else l.color).Name()
  {
    var t := Advance(l.time, delta);
    match l.current
    case Off =>
      if t.fired then LightStep(l.(current := On, time := t.time), Some(l.direction.Name() + ": Off"))
      else LightStep(l.(time := t.time), None)
    case On =>
      if t.fired then
        var shown := if maintenance then Red.Name() else l.color.Name();
        LightStep(l.(current := Off, time := t.time), Some(l.direction.Name() + ": " + shown))
      else LightStep(l.(time := t.time), None)
  }

  /** The values of the present options, in order. */
  function Somes(opts: seq<Option<string>>): seq<string>
  {
    if opts == [] then [] else (if opts[0].Some? then [opts[0].value] else []) + Somes(opts[1..])
  }

  /** What each light prints on a tick, in array order. */
  function LinesOf(ls: seq<Light>, maintenance: bool, delta: int): seq<Option<string>>
  {
    seq(|ls|, i requires 0 <= i < |ls| => LightProcess(ls[i], maintenance, delta).line)
  }

  /** The lines of a non-empty array are the first light's line, then the rest's. */
  lemma LinesOfCons(ls: seq<Light>, maintenance: bool, delta: int)
    requires ls != []
    ensures Somes(LinesOf(ls, maintenance, delta)) ==
      (var l := LightProcess(ls[0], maintenance, delta).line; if l.Some? then [l.value] else []) +
      Somes(LinesOf(ls[1..], maintenance, delta))
  {
    var os := LinesOf(ls, maintenance, delta);
    assert os[1..] == LinesOf(ls[1..], maintenance, delta);
  }

  /** The `foreach` over `m_lights`: every light gets the same delta, in array order. */
  function ProcessLights(ls: seq<Light>, maintenance: bool, delta: int): (r: (seq<Light>, seq<string>))
    ensures |r.0| == |ls|
    ensures forall i :: 0 <= i < |ls| ==> r.0[i] == LightProcess(ls[i], maintenance, delta).light
    ensures r.1 == Somes(LinesOf(ls, maintenance, delta))
  {
    if ls == [] then ([], []) else
      var first := LightProcess(ls[0], maintenance, delta);
      var rest := ProcessLights(ls[1..], maintenance, delta);
      LinesOfCons(ls, maintenance, delta);
      ([first.light] + rest.0, (if first.line.Some? then [first.line.value] else []) + rest.1)
  }

  /** `Process(delta)`: forward the tick to all four lights; the intersection's own mode is unchanged. */
  function Process(x: Intersection, delta: int): (r: Step)
    ensures r.intersection.current == x.current
    ensures |r.intersection.lights| == |x.lights|
    ensures forall i :: 0 <= i < |x.lights| ==>
      r.intersection.lights[i] == LightProcess(x.lights[i], IsMaintenance(x), delta).light
    ensures r.lines == Somes(LinesOf(x.lights, IsMaintenance(x), delta))
  {
    var p := ProcessLights(x.lights, IsMaintenance(x), delta);
    Step(Intersection(x.current, p.0), p.1)
  }
}

/** The keyboard and clock inputs Blinker5.cs's Run loop feeds an intersection, and the resulting trace. */
module Blinker5Run {
  import opened Blinker5

  /** An arrow key (Down enables maintenance, Up disables it) or a tick of `delta` ticks. */
  datatype Command = MaintenanceCommand(enable: bool) | TickCommand(delta: int)

  /** Apply one command: the new intersection and the lines printed. */
  function Apply(x: Intersection, c: Command): Step
  {
    match c
    case MaintenanceCommand(enable) => Step(MaintenanceMode(x, enable), [])
    case TickCommand(delta) => Process(x, delta)
  }

  /** Apply a sequence of commands: the final intersection and all lines printed, in order. */
  function Run(x: Intersection, cs: seq<Command>): Step
    decreases |cs|
  {
    if cs == [] then Step(x, []) else
      var s := Apply(x, cs[0]);
      var rest := Run(s.intersection, cs[1..]);
      Step(rest.intersection, s.lines + rest.lines)
  }
}
