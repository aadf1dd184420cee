/** Hero2.cs: the hero of Hero.cs rewritten as a declarative state machine. The class hierarchy becomes a
    topology `Init{Alive{Ground, Airborne{Flying}}, Downed}` and each override becomes an edge with a handler
    that may call `SetNext`. */
module Hero2 {
  import opened Wrappers
  import opened Hsm
  import Hero

  /** `State`: the root, the composites Alive and Airborne, and the leaves. */
  datatype State = Init | Alive | Ground | Airborne | Flying | Downed

  /** `Inputs`. */
  datatype Input = AttackInput | TakeDamageInput | JumpInput | SlideInput | ProcessInput

  /** The handler methods the topology binds. */
  datatype Handler =
    | AliveAttack | AliveTakeDamage | AliveProcess
    | GroundJump | GroundSlide | AirborneJump | AirborneSlide | FlyingJump | DownedProcess

  function GroundDef(): StateDef<State, Input, Handler>
  {
    Leaf(Ground, None, None, [
      Edge(JumpInput, Handler.GroundJump, [To(Airborne)]),
      Edge(SlideInput, Handler.GroundSlide, [])])
  }

  function FlyingDef(): StateDef<State, Input, Handler>
  {
    Leaf(Flying, None, None, [Edge(JumpInput, Handler.FlyingJump, [To(Airborne)])])
  }

  function AirborneDef(): StateDef<State, Input, Handler>
  {
    StateDef(Airborne, [FlyingDef()], None, None, None, [
      Edge(JumpInput, Handler.AirborneJump, [To(Flying)]),
      Edge(SlideInput, Handler.AirborneSlide, [])])
  }

  function AliveDef(): StateDef<State, Input, Handler>
  {
    StateDef(Alive, [GroundDef(), AirborneDef()], None, None, None, [
      Edge(AttackInput, Handler.AliveAttack, []),
      Edge(TakeDamageInput, Handler.AliveTakeDamage, [Self, To(Downed)]),
      Edge(ProcessInput, Handler.AliveProcess, [Self, To(Ground)])])
  }

  function DownedDef(): StateDef<State, Input, Handler>
  {
    Leaf(Downed, None, None, [Edge(ProcessInput, Handler.DownedProcess, [])])
  }

  /** `StateMachine`: `Init{Alive{Ground, Airborne{Flying}}, Downed}`, starting at Ground. */
  function Topology(): StateDef<State, Input, Handler>
  {
    StateDef(Init, [AliveDef(), DownedDef()], Some(Ground), None, None, [])
  }

  /** The discrete part of `HeroHsm`: the current state and `m_health`. */
  datatype HeroHsm = HeroHsm(current: State, health: int)

  /** What a handler did: the new health, the damage dealt to the attacked enemy, its `SetNext` request. */
  datatype Reaction = Reaction(health: int, dealt: int, request: Option<Target<State>>)

  /** The states the hero can rest in: those Hero.cs has a class for. */
  predicate Valid(h: HeroHsm)
  {
    h.current in {Ground, Airborne, Flying, Downed}
  }

  /** The input an event of Hero.cs's Run loop is delivered as. */
  function Kind(i: Hero.Input): Input
  {
    match i
    case Attack => AttackInput
    case TakeDamage(_) => TakeDamageInput
    case Jump => JumpInput
    case Slide => SlideInput
    case Process(_) => ProcessInput
  }

  /** A new hero: the machine starts at Ground with `m_health = 20`. */
  function Create(): (h: HeroHsm)
    ensures h.current == Topology().start.value && h.health == Hero.InitialHealth
  {
    HeroHsm(Ground, Hero.InitialHealth)
  }

  /** `AliveAttack`: damage the enemy by `s_attackDamage`; no `SetNext`. */
  function AliveAttack(h: HeroHsm): (r: Reaction)
    ensures r.request.None? && r.health == h.health && r.dealt == Hero.AttackDamage
  {
    Reaction(h.health, Hero.AttackDamage, None)
  }

  /** `AliveTakeDamage`: subtract the damage (no clamping) and request Downed iff health is not positive. */
  function AliveTakeDamage(h: HeroHsm, damage: int): (r: Reaction)
    ensures r.health == h.health - damage && r.dealt == 0
    ensures r.request == (if h.health - damage <= 0 then Some(To(Downed)) else None)
  {
    var health := h.health - damage;
    Reaction(health, 0, if health <= 0 then Some(To(Downed)) else None)
  }

  /** `AliveProcess`: request Ground once the hero has landed. */
  function AliveProcess(h: HeroHsm, landed: bool): (r: Reaction)
    ensures r.health == h.health && r.dealt == 0
    ensures r.request.Some? <==> landed
    ensures r.request.Some? ==> r.request.value == To(Ground)
  {
    Reaction(h.health, 0, if landed then Some(To(Ground)) else None)
  }

  /** `GroundJump`, `AirborneJump`, `FlyingJump`: each requests one fixed state. */
  function JumpHandler(handler: Handler, h: HeroHsm): (r: Reaction)
    requires handler in {Handler.GroundJump, Handler.AirborneJump, Handler.FlyingJump}
    ensures r.health == h.health && r.dealt == 0
    ensures r.request == Some(To(if handler == Handler.AirborneJump then Flying else Airborne))
  {
    match handler
    case GroundJump => Reaction(h.health, 0, Some(To(Airborne)))
    case AirborneJump => Reaction(h.health, 0, Some(To(Flying)))
    case FlyingJump => Reaction(h.health, 0, Some(To(Airborne)))
  }

  /** Run the handler an edge names on the event delivered. */
  function Invoke(handler: Handler, h: HeroHsm, i: Hero.Input): Reaction
  {
    match handler
    case AliveAttack => AliveAttack(h)
    case AliveTakeDamage => AliveTakeDamage(h, if i.TakeDamage? then i.damage else 0)
    case AliveProcess => AliveProcess(h, i.Process? && i.landed)
    case GroundJump => JumpHandler(handler, h)
    case AirborneJump => JumpHandler(handler, h)
    case FlyingJump => JumpHandler(handler, h)
    case GroundSlide => Reaction(h.health, 0, None)
    case AirborneSlide => Reaction(h.health, 0, None)
    case DownedProcess => Reaction(h.health, 0, None)
  }

  /** Deliver an event: find the innermost edge for its input along the current state's ancestors, run the
      handler and move to the state it requests. An input no edge handles changes nothing. A request for
      Airborne, a composite without a start state, is taken to leave the hero resting on Airborne itself,
      as Hero.cs's `AirborneState` does. */
  function Deliver(h: HeroHsm, i: Hero.Input): (r: Hero.Outcome)
    ensures !i.TakeDamage? ==> r.hero.health == h.health
    ensures Valid(h) ==> r.dealt == (if i.Attack? && h.current != Downed then Hero.AttackDamage else 0)
    ensures Valid(h) && i.TakeDamage? ==>
      r.hero.health == (if h.current == Downed then h.health else h.health - i.damage)
    ensures Valid(h) && i.TakeDamage? && h.current != Downed ==>
      (r.hero.current == Hero.Downed <==> h.health - i.damage <= 0)
    ensures h.current == Downed ==> r.hero == Hero.HeroHsm(Hero.Downed, h.health)
  {
    DispatchResting(h.current, Kind(i));
    match Dispatch(Topology(), h.current, Kind(i))
    case None => Hero.Outcome(Hero.HeroHsm(Abstract(h.current), h.health), 0)
    case Some(hd) =>
      var r := Invoke(hd.edge.handler, h, i);
      if r.request == Some(History) then Hero.Outcome(Hero.HeroHsm(Abstract(h.current), h.health), 0)
      else Hero.Outcome(Hero.HeroHsm(Abstract(Follow(h.current, r.request)), r.health), r.dealt)
  }

  /** The Hero.cs state class standing for a state of this machine (Init and Alive never rest). */
  function Abstract(s: State): (a: Hero.State)
    ensures s == Ground <==> a == Hero.Ground
    ensures s == Flying <==> a == Hero.Flying
    ensures s == Downed <==> a == Hero.Downed
  {
    match s
    case Ground => Hero.Ground
    case Airborne => Hero.Airborne
    case Flying => Hero.Flying
    case Downed => Hero.Downed
    case _ => Hero.Airborne
  }

  /** The inverse of `Abstract` on the states the hero rests in. */
  function Concrete(s: Hero.State): (c: State)
    ensures Abstract(c) == s
    ensures c in {Ground, Airborne, Flying, Downed}
  {
    match s
    case Ground => Ground
    case Airborne => Airborne
    case Flying => Flying
    case Downed => Downed
  }

  lemma NodesOfTopology()
    ensures Nodes(Topology()) == [Topology(), AliveDef(), GroundDef(), AirborneDef(), FlyingDef(), DownedDef()]
  {
  }

  lemma IdsOfTopology()
    ensures Ids(Topology()) == [Init, Alive, Ground, Airborne, Flying, Downed]
  {
    NodesOfTopology();
  }

  lemma RootWellFormed() ensures NodeWellFormed(Ids(Topology()), Topology()) { IdsOfTopology(); }
  lemma AliveWellFormed() ensures NodeWellFormed(Ids(Topology()), AliveDef()) { IdsOfTopology(); }
  lemma GroundWellFormed() ensures NodeWellFormed(Ids(Topology()), GroundDef()) { IdsOfTopology(); }
  lemma AirborneWellFormed() ensures NodeWellFormed(Ids(Topology()), AirborneDef()) { IdsOfTopology(); }
  lemma FlyingWellFormed() ensures NodeWellFormed(Ids(Topology()), FlyingDef()) { IdsOfTopology(); }
  lemma DownedWellFormed() ensures NodeWellFormed(Ids(Topology()), DownedDef()) { IdsOfTopology(); }

  /** No state id is declared twice. */
  lemma IdsDoNotRepeat()
    ensures NoRepeats([Init, Alive, Ground, Airborne, Flying, Downed])
  {
  }

  /** The id list never repeats, so the topology declares each id once. */
  lemma IdsAreUnique()
    ensures UniqueIds(Topology())
  {
    IdsOfTopology();
    IdsDoNotRepeat();
    UniqueIdsFromList(Topology(), [Init, Alive, Ground, Airborne, Flying, Downed]);
  }

  /** Every node satisfies the per-state rules. */
  lemma NodesWellFormed()
    ensures forall n :: n in Nodes(Topology()) ==> NodeWellFormed(Ids(Topology()), n)
  {
    NodesOfTopology();
    NodesWellFormedList([Topology(), AliveDef(), GroundDef(), AirborneDef(), FlyingDef(), DownedDef()]);
  }

  lemma NodesWellFormedList(ns: seq<StateDef<State, Input, Handler>>)
    requires ns == [Topology(), AliveDef(), GroundDef(), AirborneDef(), FlyingDef(), DownedDef()]
    ensures forall n :: n in ns ==> NodeWellFormed(Ids(Topology()), n)
  {
    RootWellFormed();
    AliveWellFormed();
    GroundWellFormed();
    AirborneWellFormed();
    FlyingWellFormed();
    DownedWellFormed();
  }

  /** The topology is well formed: no state declared twice, Ground lies below Init, every target exists. */
  lemma TopologyWellFormed()
    ensures WellFormed(Topology())
  {
    IdsAreUnique();
    NodesWellFormed();
  }

  lemma PathToGround()
    ensures PathTo(Topology(), Ground) == Some([Topology(), AliveDef(), GroundDef()])
  {
    assert PathTo(GroundDef(), Ground) == Some([GroundDef()]);
    assert AliveDef().children[0] == GroundDef();
    assert PathAmong(AliveDef(), 0, Ground) == Some([GroundDef()]);
    assert [AliveDef()] + [GroundDef()] == [AliveDef(), GroundDef()];
    assert PathTo(AliveDef(), Ground) == Some([AliveDef(), GroundDef()]);
    assert PathAmong(Topology(), 0, Ground) == Some([AliveDef(), GroundDef()]);
    assert [Topology()] + [AliveDef(), GroundDef()] == [Topology(), AliveDef(), GroundDef()];
  }

  lemma PathToAirborne()
    ensures PathTo(Topology(), Airborne) == Some([Topology(), AliveDef(), AirborneDef()])
  {
    assert PathTo(AirborneDef(), Airborne) == Some([AirborneDef()]);
    assert PathTo(FlyingDef(), Airborne) == None;
    assert PathTo(GroundDef(), Airborne) == None;
    assert AliveDef().children == [GroundDef(), AirborneDef()];
    assert PathAmong(AliveDef(), 1, Airborne) == Some([AirborneDef()]);
    assert PathAmong(AliveDef(), 0, Airborne) == Some([AirborneDef()]);
    assert [AliveDef()] + [AirborneDef()] == [AliveDef(), AirborneDef()];
    assert PathTo(AliveDef(), Airborne) == Some([AliveDef(), AirborneDef()]);
    assert PathAmong(Topology(), 0, Airborne) == Some([AliveDef(), AirborneDef()]);
    assert [Topology()] + [AliveDef(), AirborneDef()] == [Topology(), AliveDef(), AirborneDef()];
  }

  lemma PathToFlying()
    ensures PathTo(Topology(), Flying) == Some([Topology(), AliveDef(), AirborneDef(), FlyingDef()])
  {
    assert PathTo(FlyingDef(), Flying) == Some([FlyingDef()]);
    assert AirborneDef().children == [FlyingDef()];
    assert PathAmong(AirborneDef(), 0, Flying) == Some([FlyingDef()]);
    assert [AirborneDef()] + [FlyingDef()] == [AirborneDef(), FlyingDef()];
    assert PathTo(AirborneDef(), Flying) == Some([AirborneDef(), FlyingDef()]);
    assert PathTo(GroundDef(), Flying) == None;
    assert AliveDef().children == [GroundDef(), AirborneDef()];
    assert PathAmong(AliveDef(), 1, Flying) == Some([AirborneDef(), FlyingDef()]);
    assert PathAmong(AliveDef(), 0, Flying) == Some([AirborneDef(), FlyingDef()]);
    assert [AliveDef()] + [AirborneDef(), FlyingDef()] == [AliveDef(), AirborneDef(), FlyingDef()];
    assert PathTo(AliveDef(), Flying) == Some([AliveDef(), AirborneDef(), FlyingDef()]);
    assert PathAmong(Topology(), 0, Flying) == Some([AliveDef(), AirborneDef(), FlyingDef()]);
    assert [Topology()] + [AliveDef(), AirborneDef(), FlyingDef()] == [Topology(), AliveDef(), AirborneDef(), FlyingDef()];
  }

  lemma PathToDowned()
    ensures PathTo(Topology(), Downed) == Some([Topology(), DownedDef()])
  {
    assert PathTo(FlyingDef(), Downed) == None;
    assert AirborneDef().children == [FlyingDef()];
    assert PathAmong(AirborneDef(), 0, Downed) == None;
    assert PathTo(AirborneDef(), Downed) == None;
    assert PathTo(GroundDef(), Downed) == None;
    assert AliveDef().children == [GroundDef(), AirborneDef()];
    assert PathAmong(AliveDef(), 1, Downed) == None;
    assert PathAmong(AliveDef(), 0, Downed) == None;
    assert PathTo(AliveDef(), Downed) == None;
    assert PathTo(DownedDef(), Downed) == Some([DownedDef()]);
    assert Topology().children == [AliveDef(), DownedDef()];
    assert PathAmong(Topology(), 1, Downed) == Some([DownedDef()]);
    assert PathAmong(Topology(), 0, Downed) == Some([DownedDef()]);
    assert [Topology()] + [DownedDef()] == [Topology(), DownedDef()];
  }

  /** The edge Alive declares for an input, if any. */
  function AliveEdge(i: Input): Option<Handling<State, Input, Handler>>
  {
    match i
    case AttackInput => Some(Handling(Alive, AliveDef().edges[0]))
    case TakeDamageInput => Some(Handling(Alive, AliveDef().edges[1]))
    case ProcessInput => Some(Handling(Alive, AliveDef().edges[2]))
    case _ => None
  }

  /** On Ground, Jump and Slide are Ground's own; the other inputs fall back to Alive. */
  lemma DispatchGround(i: Input)
    ensures Dispatch(Topology(), Ground, i) ==
      if i == JumpInput then Some(Handling(Ground, GroundDef().edges[0]))
      else if i == SlideInput then Some(Handling(Ground, GroundDef().edges[1]))
      else AliveEdge(i)
  {
    PathToGround();
    var p := [Topology(), AliveDef(), GroundDef()];
    assert p[..2] == [Topology(), AliveDef()];
    assert p[..2][..1] == [Topology()];
    assert p[..2][..1][..0] == [];
    var g := GroundDef().edges;
    var a := AliveDef().edges;
    match i {
      case JumpInput => assert EdgeFor(g, i) == Some(g[0]);
      case SlideInput => assert EdgeFor(g, i) == Some(g[1]);
      case AttackInput => assert EdgeFor(g, i) == None && EdgeFor(a, i) == Some(a[0]);
      case TakeDamageInput => assert EdgeFor(g, i) == None && EdgeFor(a, i) == Some(a[1]);
      case ProcessInput => assert EdgeFor(g, i) == None && EdgeFor(a, i) == Some(a[2]);
    }
  }

  /** On Airborne, Jump and Slide are Airborne's own; the other inputs fall back to Alive. */
  lemma DispatchAirborne(i: Input)
    ensures Dispatch(Topology(), Airborne, i) ==
      if i == JumpInput then Some(Handling(Airborne, AirborneDef().edges[0]))
      else if i == SlideInput then Some(Handling(Airborne, AirborneDef().edges[1]))
      else AliveEdge(i)
  {
    PathToAirborne();
    var p := [Topology(), AliveDef(), AirborneDef()];
    assert p[..2] == [Topology(), AliveDef()];
    assert p[..2][..1] == [Topology()];
    assert p[..2][..1][..0] == [];
    var b := AirborneDef().edges;
    var a := AliveDef().edges;
    match i {
      case JumpInput => assert EdgeFor(b, i) == Some(b[0]);
      case SlideInput => assert EdgeFor(b, i) == Some(b[1]);
      case AttackInput => assert EdgeFor(b, i) == None && EdgeFor(a, i) == Some(a[0]);
      case TakeDamageInput => assert EdgeFor(b, i) == None && EdgeFor(a, i) == Some(a[1]);
      case ProcessInput => assert EdgeFor(b, i) == None && EdgeFor(a, i) == Some(a[2]);
    }
  }

  /** On Flying, its own Jump edge shadows Airborne's (as `FlyingState.Jump` overrides
      `AirborneState.Jump`); Slide falls back to Airborne and the rest to Alive. */
  lemma DispatchFlying(i: Input)
    ensures Dispatch(Topology(), Flying, i) ==
      if i == JumpInput then Some(Handling(Flying, FlyingDef().edges[0]))
      else if i == SlideInput then Some(Handling(Airborne, AirborneDef().edges[1]))
      else AliveEdge(i)
  {
    PathToFlying();
    var p := [Topology(), AliveDef(), AirborneDef(), FlyingDef()];
    assert p[..3] == [Topology(), AliveDef(), AirborneDef()];
    assert p[..3][..2] == [Topology(), AliveDef()];
    assert p[..3][..2][..1] == [Topology()];
    assert p[..3][..2][..1][..0] == [];
    var f := FlyingDef().edges;
    var b := AirborneDef().edges;
    var a := AliveDef().edges;
    if i == JumpInput {
      assert EdgeFor(f, i) == Some(f[0]);
    } else if i == SlideInput {
      assert EdgeFor(f, i) == None && EdgeFor(b, i) == Some(b[1]);
    } else {
      assert EdgeFor(f, i) == None && EdgeFor(b, i) == None;
      assert Innermost(p[..3][..2], i) == AliveEdge(i) by {
        match i {
          case AttackInput => assert EdgeFor(a, i) == Some(a[0]);
          case TakeDamageInput => assert EdgeFor(a, i) == Some(a[1]);
          case ProcessInput => assert EdgeFor(a, i) == Some(a[2]);
        }
      }
      assert Innermost(p[..3], i) == AliveEdge(i);
    }
  }

  /** Downed declares only Process and Init declares nothing: every other input is unhandled there. */
  lemma DispatchDowned(i: Input)
    ensures Dispatch(Topology(), Downed, i) ==
      (if i == ProcessInput then Some(Handling(Downed, DownedDef().edges[0])) else None)
  {
    PathToDowned();
    var p := [Topology(), DownedDef()];
    assert p[..1] == [Topology()];
    assert p[..1][..0] == [];
    var d := DownedDef().edges;
    assert Topology().edges == [];
    if i == ProcessInput {
      assert EdgeFor(d, i) == Some(d[0]);
    } else {
      assert EdgeFor(d, i) == None;
      assert Innermost(p[..1][..0], i) == None;
      assert Innermost(p[..1], i) == None;
    }
  }

  /** From every resting state, Attack and TakeDamage reach Alive's edges, except on Downed, which handles
      only Process; only Attack ever reaches the Attack handler. */
  lemma DispatchResting(s: State, k: Input)
    ensures s in {Ground, Airborne, Flying} && k in {AttackInput, TakeDamageInput} ==>
      Dispatch(Topology(), s, k) == AliveEdge(k)
    ensures s == Downed ==>
      Dispatch(Topology(), s, k) == (if k == ProcessInput then Some(Handling(Downed, DownedDef().edges[0])) else None)
    ensures var d := Dispatch(Topology(), s, k);
      s in {Ground, Airborne, Flying, Downed} && d.Some? && d.value.edge.handler == Handler.AliveAttack ==> k == AttackInput
  {
    match s {
      case Ground => DispatchGround(k);
      case Airborne => DispatchAirborne(k);
      case Flying => DispatchFlying(k);
      case Downed => DispatchDowned(k);
      case _ =>
    }
  }

  /** Every handler's request lies in its edge's declared targets, and the handlers of edges declaring no
      target (Attack, the Slides, Downed's Process) make none. */
  lemma HandlersConform(h: HeroHsm, i: Hero.Input)
    requires Valid(h)
    ensures var d := Dispatch(Topology(), h.current, Kind(i));
      d.Some? ==> Permits(d.value.owner, d.value.edge, Invoke(d.value.edge.handler, h, i).request)
    ensures var d := Dispatch(Topology(), h.current, Kind(i));
      d.Some? && d.value.edge.targets == [] ==> Invoke(d.value.edge.handler, h, i).request.None?
  {
    match h.current {
      case Ground => ConformsOnGround(h, i);
      case Airborne => ConformsOnAirborne(h, i);
      case Flying => ConformsOnFlying(h, i);
      case Downed => ConformsOnDowned(h, i);
    }
  }

  lemma ConformsOnGround(h: HeroHsm, i: Hero.Input)
    ensures var d := Dispatch(Topology(), Ground, Kind(i));
      d.Some? ==> Permits(d.value.owner, d.value.edge, Invoke(d.value.edge.handler, h, i).request)
    ensures var d := Dispatch(Topology(), Ground, Kind(i));
      d.Some? && d.value.edge.targets == [] ==> Invoke(d.value.edge.handler, h, i).request.None?
  {
    DispatchGround(Kind(i));
  }

  lemma ConformsOnAirborne(h: HeroHsm, i: Hero.Input)
    ensures var d := Dispatch(Topology(), Airborne, Kind(i));
      d.Some? ==> Permits(d.value.owner, d.value.edge, Invoke(d.value.edge.handler, h, i).request)
    ensures var d := Dispatch(Topology(), Airborne, Kind(i));
      d.Some? && d.value.edge.targets == [] ==> Invoke(d.value.edge.handler, h, i).request.None?
  {
    DispatchAirborne(Kind(i));
  }

  lemma ConformsOnFlying(h: HeroHsm, i: Hero.Input)
    ensures var d := Dispatch(Topology(), Flying, Kind(i));
      d.Some? ==> Permits(d.value.owner, d.value.edge, Invoke(d.value.edge.handler, h, i).request)
    ensures var d := Dispatch(Topology(), Flying, Kind(i));
      d.Some? && d.value.edge.targets == [] ==> Invoke(d.value.edge.handler, h, i).request.None?
  {
    DispatchFlying(Kind(i));
  }

  lemma ConformsOnDowned(h: HeroHsm, i: Hero.Input)
    ensures var d := Dispatch(Topology(), Downed, Kind(i));
      d.Some? ==> Permits(d.value.owner, d.value.edge, Invoke(d.value.edge.handler, h, i).request)
    ensures var d := Dispatch(Topology(), Downed, Kind(i));
      d.Some? && d.value.edge.targets == [] ==> Invoke(d.value.edge.handler, h, i).request.None?
  {
    DispatchDowned(Kind(i));
  }

  /** The declarative hero behaves like Hero.cs's: every event leads to the same state, the same health and
      the same damage dealt. This rests on three choices made above: the Jump assertion admits Downed, Attack's
      reflect damage is not modelled, and a request for Airborne rests on Airborne. */
  lemma DeliverMatchesHero(h: HeroHsm, i: Hero.Input)
    requires Valid(h)
    ensures Deliver(h, i) == Hero.Step(Hero.HeroHsm(Abstract(h.current), h.health), i).value
  {
    match h.current {
      case Ground => DeliverOnGround(h.health, i);
      case Airborne => DeliverOnAirborne(h.health, i);
      case Flying => DeliverOnFlying(h.health, i);
      case Downed => DeliverOnDowned(h.health, i);
    }
  }

  lemma DeliverOnGround(health: int, i: Hero.Input)
    ensures Deliver(HeroHsm(Ground, health), i) == Hero.Step(Hero.HeroHsm(Hero.Ground, health), i).value
  {
    DispatchGround(Kind(i));
  }

  lemma DeliverOnAirborne(health: int, i: Hero.Input)
    ensures Deliver(HeroHsm(Airborne, health), i) == Hero.Step(Hero.HeroHsm(Hero.Airborne, health), i).value
  {
    DispatchAirborne(Kind(i));
  }

  lemma DeliverOnFlying(health: int, i: Hero.Input)
    ensures Deliver(HeroHsm(Flying, health), i) == Hero.Step(Hero.HeroHsm(Hero.Flying, health), i).value
  {
    DispatchFlying(Kind(i));
  }

  lemma DeliverOnDowned(health: int, i: Hero.Input)
    ensures Deliver(HeroHsm(Downed, health), i) == Hero.Step(Hero.HeroHsm(Hero.Downed, health), i).value
  {
    DispatchDowned(Kind(i));
  }

  /** The same, over any sequence of events from corresponding heroes. */
  lemma {:induction false} RunMatchesHero(h: Hero.HeroHsm, inputs: seq<Hero.Input>)
    ensures Hero.Run(h, inputs) == Success(Run(HeroHsm(Concrete(h.current), h.health), inputs))
    decreases |inputs|
  {
    if inputs != [] {
      var c := HeroHsm(Concrete(h.current), h.health);
      DeliverMatchesHero(c, inputs[0]);
      RunMatchesHero(Deliver(c, inputs[0]).hero, inputs[1..]);
    }
  }

  /** A sequence of events, as the hand-written hero's state. */
  function Run(h: HeroHsm, inputs: seq<Hero.Input>): Hero.HeroHsm
    decreases |inputs|
  {
    if inputs == [] then Hero.HeroHsm(Abstract(h.current), h.health)
    else
      var o := Deliver(h, inputs[0]);
      Run(HeroHsm(Concrete(o.hero.current), o.hero.health), inputs[1..])
  }
}
