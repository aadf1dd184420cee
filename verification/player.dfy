/** Player.cs: the player character, driven by a declarative state machine `Init{Alive{Stunned, Normal},
    Dead}`. Keys reach the machine through `HandleInput`. Whether an enemy is in sight when the player
    attacks, and the stun limiter's `TryTake` answer, are inputs. */
module Player {
  import opened Wrappers
  import opened Numeric
  import opened Hsm
  import opened Character

  /** `State`. */
  datatype State = Init | Alive | Stunned | Normal | Dead

  /** `Inputs`: the three `[HsmInput]` methods. */
  datatype Input = ProcessInput | TakeDamageInput | OnInputInput

  /** The handler and hook methods the topology binds. */
  datatype Handler =
    | AliveTakeDamage
    | StunnedOnEnter | StunnedOnExit | StunnedProcess
    | NormalProcess | NormalOnInput
    | DeadOnEnter

  function StunnedDef(): StateDef<State, Input, Handler>
  {
    Leaf(Stunned, Some(Handler.StunnedOnEnter), Some(Handler.StunnedOnExit),
      [Edge(ProcessInput, Handler.StunnedProcess, [Self, History])])
  }

  function NormalDef(): StateDef<State, Input, Handler>
  {
    Leaf(Normal, None, None, [
      Edge(ProcessInput, Handler.NormalProcess, []),
      Edge(OnInputInput, Handler.NormalOnInput, [])])
  }

  function AliveDef(): StateDef<State, Input, Handler>
  {
    StateDef(Alive, [StunnedDef(), NormalDef()], Some(Normal), None, None,
      [Edge(TakeDamageInput, Handler.AliveTakeDamage, [To(Dead), To(Stunned)])])
  }

  function DeadDef(): StateDef<State, Input, Handler>
  {
    Leaf(Dead, Some(Handler.DeadOnEnter), None, [])
  }

  /** `StateMachine`: `Init{Alive{Stunned, Normal}, Dead}`; Alive starts at Normal, Init at Alive. */
  function Topology(): StateDef<State, Input, Handler>
  {
    StateDef(Init, [AliveDef(), DeadDef()], Some(Alive), None, None, [])
  }

  /** The width of the board a normal player moves on. */
  const BoardSize := 100

  /** An event: a tick (with the stun limiter's answer), damage, or a key (with whether the ray trace
      finds an enemy in sight). */
  datatype Event = Process(delta: int, fired: bool) | TakeDamage(damage: int) | OnInput(key: Key, enemyInSight: bool)

  /** What a handler or hook did: the player afterwards, its `SetNext` request, the damage it dealt to
      the closest enemy in sight, and whether it told the scene to terminate. */
  datatype Reaction = Reaction(player: Character, request: Option<Target<State>>, dealt: int, terminate: bool)

  /** The constructor: token '*', position 20, at rest, sight 20, health 30, damage 5, speed 5. */
  function Create(): (p: Character)
    ensures p.token == '*' && p.position == 20 && p.velocity == 0 && p.facing == 1
    ensures p.health == 30 && p.damage == 5 && p.movementSpeed == 5 && p.sightDistance == 20
  {
    WithVelocity(Character('*', 20, 1, 5, 0, 20, 30, 5), 0)
  }

  function Stay(p: Character, request: Option<Target<State>>): Reaction
  {
    Reaction(p, request, 0, false)
  }

  /** `HandleInput`: the arrows and the space bar go to the machine and are Handled, Q asks to terminate,
      anything else is not handled. */
  function HandleInput(key: Key): (r: (InputOutcome, bool))
    ensures r.1 <==> key in {LeftArrow, RightArrow, Spacebar}
    ensures r.0 == Handled <==> r.1
    ensures r.0 == Terminate <==> key == Q
    ensures r.0 == NotHandled <==> key.OtherKey?
  {
    match key
    case LeftArrow => (Handled, true)
    case RightArrow => (Handled, true)
    case Spacebar => (Handled, true)
    case Q => (Terminate, false)
    case OtherKey(_) => (NotHandled, false)
  }

  /** `AliveTakeDamage`: health drops but not below zero; at zero the token becomes '&' and Dead is
      requested, otherwise Stunned is. */
  function AliveTakeDamageOn(p: Character, damage: int): (r: Reaction)
    ensures r.player.health == Max(0, p.health - damage) && r.player.health >= 0
    ensures r.request == Some(To(Dead)) <==> r.player.health == 0
    ensures r.request == Some(To(Dead)) || r.request == Some(To(Stunned))
    ensures r.request == Some(To(Dead)) ==> r.player.token == '&'
    ensures r.request == Some(To(Stunned)) ==> r.player.token == p.token
    ensures r.player.(health := p.health, token := p.token) == p && r.dealt == 0 && !r.terminate
  {
    var health := Max(0, p.health - damage);
    var p1 := p.(health := health);
    if health <= 0 then Stay(p1.(token := '&'), Some(To(Dead))) else Stay(p1, Some(To(Stunned)))
  }

  /** `StunnedOnEnter` shows '@', `StunnedOnExit` restores '*'. */
  function StunnedTokenHook(p: Character, entering: bool): (r: Reaction)
    ensures r.player.token == (if entering then '@' else '*')
    ensures r.player.(token := p.token) == p && r.request.None? && r.dealt == 0 && !r.terminate
  {
    Stay(p.(token := if entering then '@' else '*'), None)
  }

  /** `StunnedProcess`: when the stun time is up return to the previous state, otherwise stay Stunned. */
  function StunnedProcessOn(p: Character, fired: bool): (r: Reaction)
    ensures r.request == if fired then Some(History) else Some(To(Stunned))
    ensures r.player == p && r.dealt == 0 && !r.terminate
  {
    if fired then Stay(p, Some(History)) else Stay(p, Some(To(Stunned)))
  }

  /** `NormalProcess`: move by `delta * Velocity` and stay on the board. */
  function NormalProcessOn(p: Character, delta: int): (r: Reaction)
    ensures 0 <= r.player.position <= BoardSize
    ensures 0 <= p.position + delta * p.velocity <= BoardSize ==> r.player.position == p.position + delta * p.velocity
    ensures r.player.position == Clamp(p.position + delta * p.velocity, 0, BoardSize)
    ensures r.player.(position := p.position) == p
    ensures r.request.None? && r.dealt == 0 && !r.terminate
  {
    Stay(p.(position := Min(Max(p.position + delta * p.velocity, 0), BoardSize)), None)
  }

  /** `NormalOnInput`: Left slows down (or speeds up leftwards) by `MovementSpeed` down to
      `-MovementSpeed`, Right likewise up to `MovementSpeed`, Space attacks the closest enemy in sight. */
  function NormalOnInputOn(p: Character, key: Key, enemyInSight: bool): (r: Reaction)
    ensures -p.movementSpeed <= p.velocity <= p.movementSpeed ==>
      -p.movementSpeed <= r.player.velocity <= p.movementSpeed
    ensures key == LeftArrow ==> r.player.velocity == Max(-p.movementSpeed, p.velocity - p.movementSpeed)
    ensures key == RightArrow ==> r.player.velocity == Min(p.movementSpeed, p.velocity + p.movementSpeed)
    ensures key in {LeftArrow, RightArrow} ==> r.player == WithVelocity(p, r.player.velocity)
    ensures key !in {LeftArrow, RightArrow} ==> r.player == p
    ensures r.dealt == (if key == Spacebar && enemyInSight then p.damage else 0)
    ensures r.request.None? && !r.terminate
  {
    match key
    case LeftArrow => Stay(WithVelocity(p, Max(-p.movementSpeed, p.velocity - p.movementSpeed)), None)
    case RightArrow => Stay(WithVelocity(p, Min(p.movementSpeed, p.velocity + p.movementSpeed)), None)
    case Spacebar => Reaction(p, None, if enemyInSight then p.damage else 0, false)
    case _ => Stay(p, None)
  }

  /** `DeadOnEnter`: a dead player ends the game. */
  function DeadOnEnterOn(p: Character): (r: Reaction)
    ensures r.terminate && r.player == p && r.request.None? && r.dealt == 0
  {
    Reaction(p, None, 0, true)
  }

  /** Run a handler or hook on an event (hooks ignore it). */
  function Invoke(h: Handler, p: Character, ev: Event): Reaction
  {
    match h
    case AliveTakeDamage => AliveTakeDamageOn(p, if ev.TakeDamage? then ev.damage else 0)
    case StunnedOnEnter => StunnedTokenHook(p, true)
    case StunnedOnExit => StunnedTokenHook(p, false)
    case StunnedProcess => StunnedProcessOn(p, ev.Process? && ev.fired)
    case NormalProcess => NormalProcessOn(p, if ev.Process? then ev.delta else 0)
    case NormalOnInput =>
      if ev.OnInput? then NormalOnInputOn(p, ev.key, ev.enemyInSight) else Stay(p, None)
    case DeadOnEnter => DeadOnEnterOn(p)
  }

  function Kind(ev: Event): Input
  {
    match ev
    case Process(_, _) => ProcessInput
    case TakeDamage(_) => TakeDamageInput
    case OnInput(_, _) => OnInputInput
  }

  /** Deliver an event while `current` is the active leaf: the handler of the innermost edge for it, or
      None when no edge handles it there. */
  function Deliver(current: State, p: Character, ev: Event): (r: Option<Reaction>)
    ensures current in {Stunned, Normal} && ev.TakeDamage? ==> r == Some(AliveTakeDamageOn(p, ev.damage))
    ensures current == Stunned && ev.Process? ==> r == Some(StunnedProcessOn(p, ev.fired))
    ensures current == Stunned && ev.OnInput? ==> r.None?
    ensures current == Normal && ev.Process? ==> r == Some(NormalProcessOn(p, ev.delta))
    ensures current == Normal && ev.OnInput? ==> r == Some(NormalOnInputOn(p, ev.key, ev.enemyInSight))
    ensures current == Dead ==> r.None?
  {
    DispatchResting(current, Kind(ev));
    match Dispatch(Topology(), current, Kind(ev))
    case None => None
    case Some(hd) => Some(Invoke(hd.edge.handler, p, ev))
  }

  lemma NodesOfTopology()
    ensures Nodes(Topology()) == [Topology(), AliveDef(), StunnedDef(), NormalDef(), DeadDef()]
  {
  }

  lemma IdsOfTopology()
    ensures Ids(Topology()) == [Init, Alive, Stunned, Normal, Dead]
  {
    NodesOfTopology();
  }

  lemma RootWellFormed() ensures NodeWellFormed(Ids(Topology()), Topology()) { IdsOfTopology(); }
  lemma AliveWellFormed() ensures NodeWellFormed(Ids(Topology()), AliveDef())
  {
    IdsOfTopology();
    assert Nodes(AliveDef()) == [AliveDef(), StunnedDef(), NormalDef()];
    assert Ids(AliveDef())[1..] == [Stunned, Normal];
  }
  lemma StunnedWellFormed() ensures NodeWellFormed(Ids(Topology()), StunnedDef()) { IdsOfTopology(); }
  lemma NormalWellFormed() ensures NodeWellFormed(Ids(Topology()), NormalDef()) { IdsOfTopology(); }
  lemma DeadWellFormed() ensures NodeWellFormed(Ids(Topology()), DeadDef()) { IdsOfTopology(); }

  /** No state id is declared twice. */
  lemma IdsDoNotRepeat()
    ensures NoRepeats([Init, Alive, Stunned, Normal, Dead])
  {
  }

  /** The id list never repeats, so the topology declares each id once. */
  lemma IdsAreUnique()
    ensures UniqueIds(Topology())
  {
    IdsOfTopology();
    IdsDoNotRepeat();
    UniqueIdsFromList(Topology(), [Init, Alive, Stunned, Normal, Dead]);
  }

  /** Every node satisfies the per-state rules. */
  lemma NodesWellFormed()
    ensures forall n :: n in Nodes(Topology()) ==> NodeWellFormed(Ids(Topology()), n)
  {
    NodesOfTopology();
    NodesWellFormedList([Topology(), AliveDef(), StunnedDef(), NormalDef(), DeadDef()]);
  }

  lemma NodesWellFormedList(ns: seq<StateDef<State, Input, Handler>>)
    requires ns == [Topology(), AliveDef(), StunnedDef(), NormalDef(), DeadDef()]
    ensures forall n :: n in ns ==> NodeWellFormed(Ids(Topology()), n)
  {
    RootWellFormed();
    AliveWellFormed();
    StunnedWellFormed();
    NormalWellFormed();
    DeadWellFormed();
  }

  /** The topology is well formed. */
  lemma TopologyWellFormed()
    ensures WellFormed(Topology())
  {
    IdsAreUnique();
    NodesWellFormed();
  }

  lemma PathToStunned()
    ensures PathTo(Topology(), Stunned) == Some([Topology(), AliveDef(), StunnedDef()])
  {
    assert AliveDef().children == [StunnedDef(), NormalDef()];
    assert PathTo(StunnedDef(), Stunned) == Some([StunnedDef()]);
    assert PathAmong(AliveDef(), 0, Stunned) == Some([StunnedDef()]);
    assert [AliveDef()] + [StunnedDef()] == [AliveDef(), StunnedDef()];
    assert PathTo(AliveDef(), Stunned) == Some([AliveDef(), StunnedDef()]);
    assert PathAmong(Topology(), 0, Stunned) == Some([AliveDef(), StunnedDef()]);
    assert [Topology()] + [AliveDef(), StunnedDef()] == [Topology(), AliveDef(), StunnedDef()];
  }

  lemma PathToNormal()
    ensures PathTo(Topology(), Normal) == Some([Topology(), AliveDef(), NormalDef()])
  {
    assert AliveDef().children == [StunnedDef(), NormalDef()];
    assert PathTo(StunnedDef(), Normal) == None;
    assert PathTo(NormalDef(), Normal) == Some([NormalDef()]);
    assert PathAmong(AliveDef(), 1, Normal) == Some([NormalDef()]);
    assert PathAmong(AliveDef(), 0, Normal) == Some([NormalDef()]);
    assert [AliveDef()] + [NormalDef()] == [AliveDef(), NormalDef()];
    assert PathTo(AliveDef(), Normal) == Some([AliveDef(), NormalDef()]);
    assert PathAmong(Topology(), 0, Normal) == Some([AliveDef(), NormalDef()]);
    assert [Topology()] + [AliveDef(), NormalDef()] == [Topology(), AliveDef(), NormalDef()];
  }

  lemma PathToDead()
    ensures PathTo(Topology(), Dead) == Some([Topology(), DeadDef()])
  {
    assert AliveDef().children == [StunnedDef(), NormalDef()];
    assert PathTo(StunnedDef(), Dead) == None;
    assert PathTo(NormalDef(), Dead) == None;
    assert PathAmong(AliveDef(), 1, Dead) == None;
    assert PathAmong(AliveDef(), 0, Dead) == None;
    assert PathTo(AliveDef(), Dead) == None;
    assert Topology().children == [AliveDef(), DeadDef()];
    assert PathAmong(Topology(), 1, Dead) == Some([DeadDef()]);
    assert PathAmong(Topology(), 0, Dead) == Some([DeadDef()]);
    assert [Topology()] + [DeadDef()] == [Topology(), DeadDef()];
  }

  /** On Stunned, Process is Stunned's own, damage falls back to Alive, keys are unhandled. */
  /** The dispatch lemmas for every leaf at once. */
  lemma DispatchResting(s: State, i: Input)
    ensures s == Stunned ==>
      Dispatch(Topology(), s, i) ==
        (if i == ProcessInput then Some(Handling(Stunned, StunnedDef().edges[0]))
         else if i == TakeDamageInput then Some(Handling(Alive, AliveDef().edges[0]))
         else None)
    ensures s == Normal ==>
      Dispatch(Topology(), s, i) ==
        (if i == ProcessInput then Some(Handling(Normal, NormalDef().edges[0]))
         else if i == OnInputInput then Some(Handling(Normal, NormalDef().edges[1]))
         else Some(Handling(Alive, AliveDef().edges[0])))
    ensures s == Dead ==> Dispatch(Topology(), s, i) == None
  {
    match s {
      case Stunned => DispatchStunned(i);
      case Normal => DispatchNormal(i);
      case Dead => DispatchDead(i);
      case _ =>
    }
  }

  lemma DispatchStunned(i: Input)
    ensures Dispatch(Topology(), Stunned, i) ==
      if i == ProcessInput then Some(Handling(Stunned, StunnedDef().edges[0]))
      else if i == TakeDamageInput then Some(Handling(Alive, AliveDef().edges[0]))
      else None
  {
    PathToStunned();
    var p := [Topology(), AliveDef(), StunnedDef()];
    assert p[..2] == [Topology(), AliveDef()];
    assert p[..2][..1] == [Topology()];
    assert p[..2][..1][..0] == [];
    var st := StunnedDef().edges;
    var a := AliveDef().edges;
    if i == ProcessInput {
      assert EdgeFor(st, i) == Some(st[0]);
    } else if i == TakeDamageInput {
      assert EdgeFor(st, i) == None && EdgeFor(a, i) == Some(a[0]);
    } else {
      assert EdgeFor(st, i) == None && EdgeFor(a, i) == None;
      assert Innermost(p[..2][..1], i) == None;
      assert Innermost(p[..2], i) == None;
    }
  }

  /** On Normal, Process and keys are Normal's own and damage falls back to Alive. */
  lemma DispatchNormal(i: Input)
    ensures Dispatch(Topology(), Normal, i) ==
      if i == ProcessInput then Some(Handling(Normal, NormalDef().edges[0]))
      else if i == OnInputInput then Some(Handling(Normal, NormalDef().edges[1]))
      else Some(Handling(Alive, AliveDef().edges[0]))
  {
    PathToNormal();
    var p := [Topology(), AliveDef(), NormalDef()];
    assert p[..2] == [Topology(), AliveDef()];
    var nm := NormalDef().edges;
    var a := AliveDef().edges;
    if i == ProcessInput {
      assert EdgeFor(nm, i) == Some(nm[0]);
    } else if i == OnInputInput {
      assert EdgeFor(nm, i) == Some(nm[1]);
    } else {
      assert EdgeFor(nm, i) == None && EdgeFor(a, i) == Some(a[0]);
    }
  }

  /** Dead declares no edges and neither does Init: every input is unhandled there. */
  lemma DispatchDead(i: Input)
    ensures Dispatch(Topology(), Dead, i) == None
  {
    PathToDead();
    var p := [Topology(), DeadDef()];
    assert p[..1] == [Topology()];
    assert p[..1][..0] == [];
    assert EdgeFor(DeadDef().edges, i) == None;
    assert Innermost(p[..1], i) == None;
  }

  /** Every request a handler makes is allowed by its edge, and Normal's handlers, whose edges declare
      no targets, make none. */
  lemma HandlersConform(s: State, p: Character, ev: Event)
    requires s in {Stunned, Normal, Dead}
    ensures var d := Dispatch(Topology(), s, Kind(ev));
      d.Some? ==> Permits(d.value.owner, d.value.edge, Invoke(d.value.edge.handler, p, ev).request)
    ensures var d := Dispatch(Topology(), s, Kind(ev));
      d.Some? && d.value.edge.targets == [] ==> Invoke(d.value.edge.handler, p, ev).request.None?
  {
    match s {
      case Stunned => DispatchStunned(Kind(ev));
      case Normal => DispatchNormal(Kind(ev));
      case Dead => DispatchDead(Kind(ev));
    }
  }

  /** The enter and exit hooks request nothing. */
  lemma HooksConform(p: Character, ev: Event)
    ensures forall n :: n in Nodes(Topology()) && n.onEnter.Some? ==>
      Invoke(n.onEnter.value, p, ev).request.None?
    ensures forall n :: n in Nodes(Topology()) && n.onExit.Some? ==>
      Invoke(n.onExit.value, p, ev).request.None?
  {
    NodesOfTopology();
    forall n | n in Nodes(Topology()) && n.onEnter.Some?
      ensures Invoke(n.onEnter.value, p, ev).request.None?
    {
      assert n in {StunnedDef(), DeadDef()};
    }
    forall n | n in Nodes(Topology()) && n.onExit.Some?
      ensures Invoke(n.onExit.value, p, ev).request.None?
    {
      assert n == StunnedDef();
    }
  }

  /** A key the player handles reaches `NormalOnInput` when Normal, and nothing while Stunned or Dead. */
  lemma KeysReachNormalOnly(s: State, p: Character, key: Key, sight: bool)
    requires s in {Stunned, Normal, Dead}
    ensures Deliver(s, p, OnInput(key, sight)).Some? <==> s == Normal
    ensures s == Normal ==> Deliver(s, p, OnInput(key, sight)) == Some(NormalOnInputOn(p, key, sight))
  {
    match s {
      case Stunned => DispatchStunned(OnInputInput);
      case Normal => DispatchNormal(OnInputInput);
      case Dead => DispatchDead(OnInputInput);
    }
  }

  /** Repeated arrow presses never push the velocity past `MovementSpeed` either way. */
  lemma {:induction false} VelocityStaysBounded(p: Character, keys: seq<Key>)
    requires -p.movementSpeed <= p.velocity <= p.movementSpeed
    ensures -p.movementSpeed <= Steer(p, keys).velocity <= p.movementSpeed
    ensures Steer(p, keys).movementSpeed == p.movementSpeed
    decreases |keys|
  {
    if keys != [] {
      VelocityStaysBounded(NormalOnInputOn(p, keys[0], false).player, keys[1..]);
    }
  }

  /** The player after a sequence of keys in Normal (nobody in sight). */
  function Steer(p: Character, keys: seq<Key>): Character
    decreases |keys|
  {
    if keys == [] then p else Steer(NormalOnInputOn(p, keys[0], false).player, keys[1..])
  }
}
