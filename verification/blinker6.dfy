/** Blinker6.cs, the light: Blinker5.cs's TrafficLight rewritten as a declarative state machine whose
    Process edge on each of Off and On declares the targets Off and On. */
module Blinker6Light {
  import opened Wrappers
  import Lights
  import opened Hsm
  import Blinker5

  /** The light's `State`: the root `Init` and its two leaves. */
  datatype State = Init | Off | On

  /** The light's `Inputs`. */
  datatype Input = ProcessInput

  /** The handler methods the topology binds. */
  datatype Handler = OnProcessOff | OnProcessOn

  /** `StateMachine`: `Init{Off, On}` starting at Off; both leaves declare `Process -> {Off, On}`. */
  function Topology(): StateDef<State, Input, Handler>
  {
    StateDef(State.Init, [
        Leaf(Off, None, None, [Edge(Input.ProcessInput, Handler.OnProcessOff, [To(Off), To(On)])]),
        Leaf(On, None, None, [Edge(Input.ProcessInput, Handler.OnProcessOn, [To(Off), To(On)])])
      ], Some(Off), None, None, [])
  }

  /** A light: fixed direction and colour, the current leaf of its machine and `m_time` (ticks). */
  datatype TrafficLight = TrafficLight(direction: Blinker5.Direction, color: Blinker5.Color, current: State, time: int)

  /** What a handler did: the new `m_time`, its `SetNext` request, and the line it printed. */
  datatype Reaction = Reaction(time: int, request: Option<Target<State>>, line: Option<string>)

  /** The machine's current state is always one of its leaves. */
  predicate Valid(l: TrafficLight)
  {
    l.current != State.Init
  }

  /** `OnProcessOff`: accumulate time; past the threshold reset it, request On and print "<direction>: Off". */
  function OnProcessOff(l: TrafficLight, delta: int): (r: Reaction)
    ensures r.request == None || r.request == Some(To(On))
    ensures r.request.Some? <==> l.time + delta > Lights.Threshold
    ensures r.time <= Lights.Threshold
    ensures r.request.Some? ==> r.time == 0 && r.line == Some(l.direction.Name() + ": Off")
    ensures r.request.None? ==> r.time == l.time + delta && r.line.None?
  {
    var t := Lights.Advance(l.time, delta);
    if t.fired then Reaction(t.time, Some(To(On)), Some(l.direction.Name() + ": Off"))
    else Reaction(t.time, None, None)
  }

  /** `OnProcessOn`: accumulate time; past the threshold reset it, request Off and print the direction with
      Red while the intersection is in maintenance, else with the light's own colour. */
  function OnProcessOn(l: TrafficLight, maintenance: bool, delta: int): (r: Reaction)
    ensures r.request == None || r.request == Some(To(Off))
    ensures r.request.Some? <==> l.time + delta > Lights.Threshold
    ensures r.time <= Lights.Threshold
    ensures r.request.Some? ==> r.time == 0
    ensures r.request.Some? ==>
      r.line == Some(l.direction.Name() + ": " + (if maintenance then Blinker5.Color.Red else l.color).Name())
    ensures r.request.None? ==> r.time == l.time + delta && r.line.None?
  {
    var t := Lights.Advance(l.time, delta);
    if t.fired then
      var shown := if maintenance then Blinker5.Color.Red.Name() else l.color.Name();
      Reaction(t.time, Some(To(Off)), Some(l.direction.Name() + ": " + shown))
    else Reaction(t.time, None, None)
  }

  /** Run the handler an edge names. */
  function Invoke(h: Handler, l: TrafficLight, maintenance: bool, delta: int): Reaction
  {
    match h
    case OnProcessOff => OnProcessOff(l, delta)
    case OnProcessOn => OnProcessOn(l, maintenance, delta)
  }

  /** `Process(delta)`: find the edge for Process at the current leaf, run its handler and move to the leaf
      it requests. An input no edge handles changes nothing. */
  function Process(l: TrafficLight, maintenance: bool, delta: int): (r: (TrafficLight, Option<string>))
    ensures r.0.direction == l.direction && r.0.color == l.color
    ensures !Valid(l) ==> r == (l, None)
    ensures Valid(l) ==> Valid(r.0) && r.0.time <= Lights.Threshold
    ensures Valid(l) ==> (r.0.current != l.current <==> l.time + delta > Lights.Threshold)
    ensures Valid(l) ==> (r.1.Some? <==> l.time + delta > Lights.Threshold)
    ensures Valid(l) && r.1.None? ==> r.0.time == l.time + delta
    ensures Valid(l) && r.1.Some? ==> r.0.time == 0
    ensures l.current == Off && r.1.Some? ==> r.1.value == l.direction.Name() + ": Off"
    ensures l.current == On && r.1.Some? ==>
      r.1.value == l.direction.Name() + ": " + (if maintenance then Blinker5.Color.Red else l.color).Name()
  {
    DispatchProcess();
    match Dispatch(Topology(), l.current, Input.ProcessInput)
    case None => (l, None)
    case Some(h) =>
      var re := Invoke(h.edge.handler, l, maintenance, delta);
      if re.request == Some(History) then (l, None)
      else (l.(current := Follow(l.current, re.request), time := re.time), re.line)
  }

  /** Each leaf handles Process with its own edge. */
  lemma DispatchProcess()
    ensures Dispatch(Topology(), Off, Input.ProcessInput) ==
      Some(Handling(Off, Edge(Input.ProcessInput, Handler.OnProcessOff, [To(Off), To(On)])))
    ensures Dispatch(Topology(), On, Input.ProcessInput) ==
      Some(Handling(On, Edge(Input.ProcessInput, Handler.OnProcessOn, [To(Off), To(On)])))
  {
  }

  /** The topology is well formed: unique ids, Off is a child of Init, targets exist. */
  lemma TopologyWellFormed()
    ensures WellFormed(Topology())
    ensures Ids(Topology()) == [State.Init, Off, On]
    ensures Topology().start == Some(Off)
  {
    var t := Topology();
    IdsOfTopology();
    UniqueIdsFromList(t, [State.Init, Off, On]);
    assert NodeWellFormed(Ids(t), t);
    assert NodeWellFormed(Ids(t), t.children[0]);
    assert NodeWellFormed(Ids(t), t.children[1]);
  }

  lemma IdsOfTopology()
    ensures Nodes(Topology()) == [Topology(), Topology().children[0], Topology().children[1]]
    ensures Ids(Topology()) == [State.Init, Off, On]
    ensures NoRepeats(Ids(Topology()))
  {
    var t := Topology();
    assert Nodes(t) == [t, t.children[0], t.children[1]];
  }

  /** Every request a light handler makes is one its edge declares: Off asks only for On, On only for Off. */
  lemma HandlersConform(l: TrafficLight, maintenance: bool, delta: int)
    requires Valid(l)
    ensures Dispatch(Topology(), l.current, Input.ProcessInput).Some?
    ensures var h := Dispatch(Topology(), l.current, Input.ProcessInput).value;
      h.owner == l.current && Permits(h.owner, h.edge, Invoke(h.edge.handler, l, maintenance, delta).request)
    ensures var h := Dispatch(Topology(), l.current, Input.ProcessInput).value;
      Invoke(h.edge.handler, l, maintenance, delta).request in {None, Some(To(if l.current == Off then On else Off))}
  {
    DispatchProcess();
  }

  /** The Blinker5.cs light this light stands for. */
  function Abstract(l: TrafficLight): (a: Blinker5.Light)
    ensures a.direction == l.direction && a.color == l.color && a.time == l.time
    ensures a.current == (if l.current == On then Lights.On else Lights.Off)
  {
    Blinker5.Light(l.direction, l.color, if l.current == On then Lights.On else Lights.Off, l.time)
  }

  /** A tick keeps the light on a leaf, and does exactly what Blinker5.cs's hand-written light does:
      same phase, same timer, same printed line. */
  lemma ProcessMatchesBlinker5(l: TrafficLight, maintenance: bool, delta: int)
    requires Valid(l)
    ensures Valid(Process(l, maintenance, delta).0)
    ensures Abstract(Process(l, maintenance, delta).0) == Blinker5.LightProcess(Abstract(l), maintenance, delta).light
    ensures Process(l, maintenance, delta).1 == Blinker5.LightProcess(Abstract(l), maintenance, delta).line
  {
    DispatchProcess();
  }
}

/** Blinker6.cs, the intersection: Blinker5.cs's TrafficIntersection as a declarative state machine. */
module Blinker6 {
  import opened Wrappers
  import opened Hsm
  import Blinker5
  import Blinker5Run
  import Blinker6Light

  /** The intersection's `State`. */
  datatype State = Init | Normal | Maintenance

  /** The intersection's `Inputs`. */
  datatype Input = MaintenanceModeInput | ProcessInput

  /** The handler methods the topology binds. */
  datatype Handler = OnMaintenanceMode | OnProcess

  /** `StateMachine`: `Init{Normal, Maintenance}` starting at Normal; Init declares
      `MaintenanceMode -> {Normal, Maintenance}` and `Process` with no targets. */
  function Topology(): StateDef<State, Input, Handler>
  {
    StateDef(Init, [Leaf(Normal, None, None, []), Leaf(Maintenance, None, None, [])], Some(Normal), None, None,
      [Edge(Input.MaintenanceModeInput, Handler.OnMaintenanceMode, [To(Normal), To(Maintenance)]),
       Edge(Input.ProcessInput, Handler.OnProcess, [])])
  }

  /** The intersection: the current leaf of its machine and its four lights. */
  datatype TrafficIntersection = TrafficIntersection(current: State, lights: seq<Blinker6Light.TrafficLight>)

  /** An intersection after one input, and the lines its lights printed. */
  datatype Step = Step(intersection: TrafficIntersection, lines: seq<string>)

  /** The machine is on a leaf and so is every light's. */
  predicate Valid(x: TrafficIntersection)
  {
    && x.current != Init
    && forall i :: 0 <= i < |x.lights| ==> Blinker6Light.Valid(x.lights[i])
  }

  /** The constructor: lights N Yellow, E Red, S Yellow, W Red, each at its start leaf Off with a zero
      timer; the intersection at its start leaf Normal. */
  function Create(): (x: TrafficIntersection)
    ensures Valid(x)
    ensures x.current == Topology().start.value
    ensures |x.lights| == |Blinker5.Configuration()|
    ensures forall i :: 0 <= i < |x.lights| ==>
      && (x.lights[i].direction, x.lights[i].color) == Blinker5.Configuration()[i]
      && x.lights[i].current == Blinker6Light.Topology().start.value
      && x.lights[i].time == 0
  {
    TrafficIntersection(Normal, [
      Blinker6Light.TrafficLight(Blinker5.North, Blinker5.Yellow, Blinker6Light.Off, 0),
      Blinker6Light.TrafficLight(Blinker5.East, Blinker5.Color.Red, Blinker6Light.Off, 0),
      Blinker6Light.TrafficLight(Blinker5.South, Blinker5.Yellow, Blinker6Light.Off, 0),
      Blinker6Light.TrafficLight(Blinker5.West, Blinker5.Color.Red, Blinker6Light.Off, 0)])
  }

  /** `IsMaintenance`: the current state is Maintenance. */
  predicate IsMaintenance(x: TrafficIntersection)
  {
    x.current == Maintenance
  }

  /** `OnMaintenanceMode`: request Maintenance when enabling and Normal otherwise. */
  function OnMaintenanceMode(enable: bool): (request: Option<Target<State>>)
    ensures request.Some? && request.value.To?
    ensures request.value.state == Maintenance <==> enable
    ensures request.value.state in {Normal, Maintenance}
  {
    Some(To(if enable then Maintenance else Normal))
  }

  /** The `foreach` in `OnProcess`: the same delta to every light, in array order. */
  function ProcessLights(ls: seq<Blinker6Light.TrafficLight>, maintenance: bool, delta: int)
    : (r: (seq<Blinker6Light.TrafficLight>, seq<string>))
    ensures |r.0| == |ls|
    ensures forall i :: 0 <= i < |ls| ==> r.0[i] == Blinker6Light.Process(ls[i], maintenance, delta).0
  {
    if ls == [] then ([], []) else
      var first := Blinker6Light.Process(ls[0], maintenance, delta);
      var rest := ProcessLights(ls[1..], maintenance, delta);
      ([first.0] + rest.0, (if first.1.Some? then [first.1.value] else []) + rest.1)
  }

  /** `OnProcess`: forward the tick to the lights; it never calls `SetNext`. */
  function OnProcess(x: TrafficIntersection, delta: int): (r: (seq<Blinker6Light.TrafficLight>, Option<Target<State>>, seq<string>))
    ensures r.1.None?
    ensures |r.0| == |x.lights|
    ensures forall i :: 0 <= i < |x.lights| ==> r.0[i] == Blinker6Light.Process(x.lights[i], IsMaintenance(x), delta).0
  {
    var p := ProcessLights(x.lights, IsMaintenance(x), delta);
    (p.0, None, p.1)
  }

  /** `MaintenanceMode(enable)`: dispatched to Init's edge; follow the handler's request. */
  function MaintenanceMode(x: TrafficIntersection, enable: bool): (r: TrafficIntersection)
    ensures r.current != Init
    ensures IsMaintenance(r) <==> enable
    ensures r.lights == x.lights
  {
    DispatchEverywhere(x.current);
    match Dispatch(Topology(), x.current, Input.MaintenanceModeInput)
    case None => x
    case Some(_) => x.(current := Follow(x.current, OnMaintenanceMode(enable)))
  }

  /** `Process(delta)`: dispatched to Init's edge; the handler drives the lights and requests nothing. */
  function Process(x: TrafficIntersection, delta: int): (r: Step)
    ensures r.intersection.current == x.current
    ensures |r.intersection.lights| == |x.lights|
    ensures forall i :: 0 <= i < |x.lights| ==>
      r.intersection.lights[i] == Blinker6Light.Process(x.lights[i], IsMaintenance(x), delta).0
  {
    DispatchEverywhere(x.current);
    match Dispatch(Topology(), x.current, Input.ProcessInput)
    case None => Step(x, [])
    case Some(_) =>
      var r := OnProcess(x, delta);
      Step(TrafficIntersection(x.current, r.0), r.2)
  }

  /** Both inputs are handled by the edges Init declares, whichever leaf is current. */
  lemma DispatchFromLeaves(s: State)
    requires s != Init
    ensures Dispatch(Topology(), s, Input.MaintenanceModeInput) ==
      Some(Handling(Init, Edge(Input.MaintenanceModeInput, Handler.OnMaintenanceMode, [To(Normal), To(Maintenance)])))
    ensures Dispatch(Topology(), s, Input.ProcessInput) == Some(Handling(Init, Edge(Input.ProcessInput, Handler.OnProcess, [])))
  {
  }

  /** Init's own edges handle both inputs from every state, Init itself included. */
  lemma DispatchEverywhere(s: State)
    ensures Dispatch(Topology(), s, Input.MaintenanceModeInput) ==
      Some(Handling(Init, Edge(Input.MaintenanceModeInput, Handler.OnMaintenanceMode, [To(Normal), To(Maintenance)])))
    ensures Dispatch(Topology(), s, Input.ProcessInput) == Some(Handling(Init, Edge(Input.ProcessInput, Handler.OnProcess, [])))
  {
    if s != Init {
      DispatchFromLeaves(s);
    }
  }

  /** The topology is well formed. */
  lemma TopologyWellFormed()
    ensures WellFormed(Topology())
    ensures Ids(Topology()) == [Init, Normal, Maintenance]
    ensures Topology().start == Some(Normal)
  {
    var t := Topology();
    IdsOfTopology();
    UniqueIdsFromList(t, [Init, Normal, Maintenance]);
    assert NodeWellFormed(Ids(t), t);
    assert NodeWellFormed(Ids(t), t.children[0]);
    assert NodeWellFormed(Ids(t), t.children[1]);
  }

  lemma IdsOfTopology()
    ensures Nodes(Topology()) == [Topology(), Topology().children[0], Topology().children[1]]
    ensures Ids(Topology()) == [Init, Normal, Maintenance]
    ensures NoRepeats(Ids(Topology()))
  {
    var t := Topology();
    assert Nodes(t) == [t, t.children[0], t.children[1]];
  }

  /** Both handlers conform to their edges: `OnMaintenanceMode` always names a declared target and
      `OnProcess` never calls `SetNext`. */
  lemma HandlersConform(x: TrafficIntersection, enable: bool, delta: int)
    requires Valid(x)
    ensures var h := Dispatch(Topology(), x.current, Input.MaintenanceModeInput).value;
      h.edge.handler == Handler.OnMaintenanceMode && Permits(h.owner, h.edge, OnMaintenanceMode(enable))
    ensures var h := Dispatch(Topology(), x.current, Input.ProcessInput).value;
      h.edge.handler == Handler.OnProcess && h.edge.targets == [] && Permits(h.owner, h.edge, OnProcess(x, delta).1)
  {
    DispatchFromLeaves(x.current);
  }

  /** After a maintenance request the intersection is in maintenance exactly when `enable` was set. */
  lemma MaintenanceModeSetsMode(x: TrafficIntersection, enable: bool)
    requires Valid(x)
    ensures Valid(MaintenanceMode(x, enable))
    ensures IsMaintenance(MaintenanceMode(x, enable)) == enable
    ensures MaintenanceMode(x, enable).lights == x.lights
  {
    DispatchFromLeaves(x.current);
  }

  /** The Blinker5.cs lights these lights stand for, in the same order. */
  function AbstractLights(ls: seq<Blinker6Light.TrafficLight>): (r: seq<Blinker5.Light>)
    ensures |r| == |ls|
    ensures forall i :: 0 <= i < |ls| ==> r[i] == Blinker6Light.Abstract(ls[i])
  {
    seq(|ls|, i requires 0 <= i < |ls| => Blinker6Light.Abstract(ls[i]))
  }

  /** The Blinker5.cs intersection this one stands for. */
  function Abstract(x: TrafficIntersection): (a: Blinker5.Intersection)
    ensures a.current == (if x.current == Maintenance then Blinker5.Maintenance else Blinker5.Normal)
    ensures |a.lights| == |x.lights|
    ensures forall i :: 0 <= i < |x.lights| ==> a.lights[i] == Blinker6Light.Abstract(x.lights[i])
  {
    Blinker5.Intersection(if x.current == Maintenance then Blinker5.Maintenance else Blinker5.Normal,
      AbstractLights(x.lights))
  }

  /** The declarative intersection starts where the hand-written one does. */
  lemma CreateMatchesBlinker5()
    ensures Abstract(Create()) == Blinker5.Init()
  {
    var a := Abstract(Create());
    assert a.lights == Blinker5.Init().lights;
  }

  /** Driving the lights one after another prints what Blinker5.cs's lights print. */
  lemma {:induction false} ProcessLightsMatch(ls: seq<Blinker6Light.TrafficLight>, maintenance: bool, delta: int)
    requires forall i :: 0 <= i < |ls| ==> Blinker6Light.Valid(ls[i])
    ensures ProcessLights(ls, maintenance, delta).1 ==
      Blinker5.ProcessLights(AbstractLights(ls), maintenance, delta).1
    decreases |ls|
  {
    if ls != [] {
      Blinker6Light.ProcessMatchesBlinker5(ls[0], maintenance, delta);
      ProcessLightsMatch(ls[1..], maintenance, delta);
      assert AbstractLights(ls)[1..] == AbstractLights(ls[1..]);
    }
  }

  /** One tick keeps every light on a leaf and moves it as Blinker5.cs moves the corresponding light. */
  lemma ProcessLightsMatchBlinker5(x: TrafficIntersection, delta: int)
    requires Valid(x)
    ensures Valid(Process(x, delta).intersection)
    ensures Abstract(Process(x, delta).intersection) == Blinker5.Process(Abstract(x), delta).intersection
  {
    DispatchFromLeaves(x.current);
    var y := Process(x, delta).intersection;
    var a := Abstract(x);
    forall i | 0 <= i < |x.lights|
      ensures Blinker6Light.Valid(y.lights[i])
      ensures Blinker6Light.Abstract(y.lights[i]) == Blinker5.LightProcess(a.lights[i], Blinker5.IsMaintenance(a), delta).light
    {
      Blinker6Light.ProcessMatchesBlinker5(x.lights[i], IsMaintenance(x), delta);
    }
    assert Abstract(y).lights == Blinker5.Process(a, delta).intersection.lights;
  }

  /** One tick prints the lines Blinker5.cs prints. */
  lemma ProcessLinesMatchBlinker5(x: TrafficIntersection, delta: int)
    requires Valid(x)
    ensures Process(x, delta).lines == Blinker5.Process(Abstract(x), delta).lines
  {
    DispatchFromLeaves(x.current);
    var m := IsMaintenance(x);
    assert Process(x, delta).lines == ProcessLights(x.lights, m, delta).1;
    assert Blinker5.IsMaintenance(Abstract(x)) == m;
    ProcessLightsMatch(x.lights, m, delta);
  }

  /** One maintenance request: same mode change as Blinker5.cs. */
  lemma MaintenanceModeMatchesBlinker5(x: TrafficIntersection, enable: bool)
    requires Valid(x)
    ensures Abstract(MaintenanceMode(x, enable)) == Blinker5.MaintenanceMode(Abstract(x), enable)
  {
    MaintenanceModeSetsMode(x, enable);
  }

  function Apply(x: TrafficIntersection, c: Blinker5Run.Command): Step
  {
    match c
    case MaintenanceCommand(enable) => Step(MaintenanceMode(x, enable), [])
    case TickCommand(delta) => Process(x, delta)
  }

  function Run(x: TrafficIntersection, cs: seq<Blinker5Run.Command>): Step
    decreases |cs|
  {
    if cs == [] then Step(x, []) else
      var s := Apply(x, cs[0]);
      var rest := Run(s.intersection, cs[1..]);
      Step(rest.intersection, s.lines + rest.lines)
  }

  /** Blinker6.cs behaves like Blinker5.cs: from corresponding states, every trace of maintenance keys and
      ticks prints the same lines and ends in corresponding states. */
  lemma {:induction false} RunMatchesBlinker5(x: TrafficIntersection, cs: seq<Blinker5Run.Command>)
    requires Valid(x)
    ensures Run(x, cs).lines == Blinker5Run.Run(Abstract(x), cs).lines
    ensures Abstract(Run(x, cs).intersection) == Blinker5Run.Run(Abstract(x), cs).intersection
    decreases |cs|
  {
    if cs != [] {
      match cs[0] {
        case MaintenanceCommand(enable) =>
          MaintenanceModeSetsMode(x, enable);
          MaintenanceModeMatchesBlinker5(x, enable);
        case TickCommand(delta) =>
          ProcessLightsMatchBlinker5(x, delta);
          ProcessLinesMatchBlinker5(x, delta);
      }
      RunMatchesBlinker5(Apply(x, cs[0]).intersection, cs[1..]);
    }
  }
}
