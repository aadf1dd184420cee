/** Enemy.cs: an enemy character driven by a declarative state machine
    `Init{Alive{Stunned, Idle, Patrol}, Dead}`. Each handler is modelled as a decision: what it does to the
    enemy and which state it asks `SetNext` for. The rate limiters' `TryTake` answers are inputs. */
module Enemy {
  import opened Wrappers
  import opened Numeric
  import opened Hsm
  import opened Character

  /** `State`. */
  datatype State = Init | Alive | Stunned | Idle | Patrol | Dead

  /** `Inputs`: the two `[HsmInput]` methods. */
  datatype Input = ProcessInput | TakeDamageInput

  /** The handler and hook methods the topology binds. */
  datatype Handler =
    | AliveTakeDamage
    | StunnedOnEnter | StunnedOnExit | StunnedProcess
    | IdleOnEnter | IdleProcess
    | PatrolOnEnter | PatrolProcess
    | DeadOnEnter | DeadProcess

  function StunnedDef(): StateDef<State, Input, Handler>
  {
    Leaf(Stunned, Some(Handler.StunnedOnEnter), Some(Handler.StunnedOnExit),
      [Edge(ProcessInput, Handler.StunnedProcess, [Self, History])])
  }

  function IdleDef(): StateDef<State, Input, Handler>
  {
    Leaf(Idle, Some(Handler.IdleOnEnter), None, [Edge(ProcessInput, Handler.IdleProcess, [Self, To(Patrol)])])
  }

  function PatrolDef(): StateDef<State, Input, Handler>
  {
    Leaf(Patrol, Some(Handler.PatrolOnEnter), None, [Edge(ProcessInput, Handler.PatrolProcess, [Self, To(Idle)])])
  }

  function AliveDef(): StateDef<State, Input, Handler>
  {
    StateDef(Alive, [StunnedDef(), IdleDef(), PatrolDef()], Some(Idle), None, None,
      [Edge(TakeDamageInput, Handler.AliveTakeDamage, [To(Dead), To(Stunned)])])
  }

  function DeadDef(): StateDef<State, Input, Handler>
  {
    Leaf(Dead, Some(Handler.DeadOnEnter), None, [Edge(ProcessInput, Handler.DeadProcess, [])])
  }

  /** `StateMachine`: `Init{Alive{Stunned, Idle, Patrol}, Dead}`; Alive starts at Idle, Init at Alive. */
  function Topology(): StateDef<State, Input, Handler>
  {
    StateDef(Init, [AliveDef(), DeadDef()], Some(Alive), None, None, [])
  }

  /** An enemy: its character and its `PatrolLimits`. */
  datatype Enemy = Enemy(ch: Character, patrolLower: int, patrolUpper: int)

  /** An event: a tick of `delta` (with the answer of the running state's rate limiter), or damage. */
  datatype Event = Process(delta: int, fired: bool) | TakeDamage(damage: int)

  /** What a handler or hook did: the enemy afterwards, its `SetNext` request, and whether it queued the
      enemy to be freed from its scene. */
  datatype Reaction = Reaction(enemy: Enemy, request: Option<Target<State>>, queueFree: bool)

  /** The constructor: token '#', position 50, at rest, sight 15, health 15, damage 5, speed 5, and a
      patrol region 10 either side of the start. */
  function Create(): (e: Enemy)
    ensures e.ch.token == '#' && e.ch.position == 50 && e.ch.velocity == 0 && e.ch.facing == 1
    ensures e.ch.health == 15 && e.ch.damage == 5 && e.ch.movementSpeed == 5 && e.ch.sightDistance == 15
    ensures e.patrolLower == e.ch.position - 10 && e.patrolUpper == e.ch.position + 10
  {
    var ch := WithVelocity(Character('#', 50, 1, 0, 0, 15, 15, 5), 0);
    Enemy(ch.(movementSpeed := 5), 40, 60)
  }

  function Stay(e: Enemy, request: Option<Target<State>>): Reaction
  {
    Reaction(e, request, false)
  }

  /** `AliveTakeDamage`: health drops by the damage but not below zero; at zero the token becomes '&' and
      Dead is requested, otherwise Stunned is. */
  function AliveTakeDamageOn(e: Enemy, damage: int): (r: Reaction)
    ensures r.enemy.ch.health == Max(0, e.ch.health - damage) && r.enemy.ch.health >= 0
    ensures r.request == Some(To(Dead)) <==> r.enemy.ch.health == 0
    ensures r.request == Some(To(Dead)) || r.request == Some(To(Stunned))
    ensures r.request == Some(To(Dead)) ==> r.enemy.ch.token == '&'
    ensures r.request == Some(To(Stunned)) ==> r.enemy.ch.token == e.ch.token
    ensures r.enemy.ch.(health := e.ch.health, token := e.ch.token) == e.ch && !r.queueFree
    ensures r.enemy.patrolLower == e.patrolLower && r.enemy.patrolUpper == e.patrolUpper
  {
    var health := Max(0, e.ch.health - damage);
    var e1 := e.(ch := e.ch.(health := health));
    if health <= 0 then Stay(e1.(ch := e1.ch.(token := '&')), Some(To(Dead)))
    else Stay(e1, Some(To(Stunned)))
  }

  /** `StunnedProcess`: when the stun time is up return to the state before the stun (`History`),
      otherwise stay Stunned. */
  function StunnedProcessOn(e: Enemy, fired: bool): (r: Reaction)
    ensures r.request == if fired then Some(History) else Some(To(Stunned))
    ensures r.enemy == e && !r.queueFree
  {
    if fired then Stay(e, Some(History)) else Stay(e, Some(To(Stunned)))
  }

  /** `IdleProcess`: when the idle time is up start patrolling, otherwise stay Idle. */
  function IdleProcessOn(e: Enemy, fired: bool): (r: Reaction)
    ensures r.request == if fired then Some(To(Patrol)) else Some(To(Idle))
    ensures r.enemy == e && !r.queueFree
  {
    if fired then Stay(e, Some(To(Patrol))) else Stay(e, Some(To(Idle)))
  }

  /** The enemy is at (or past) an end of its patrol region. */
  predicate AtLimit(e: Enemy)
  {
    e.ch.position <= e.patrolLower || e.ch.position >= e.patrolUpper
  }

  /** `PatrolProcess` without the weapon: move by `delta * Velocity`, stay inside the patrol region, and at
      an end of it stop and go Idle; otherwise keep patrolling. */
  function PatrolProcessOn(e: Enemy, delta: int): (r: Reaction)
    ensures e.patrolLower <= e.patrolUpper ==> e.patrolLower <= r.enemy.ch.position <= e.patrolUpper
    ensures r.enemy.ch.position == Clamp(e.ch.position + delta * e.ch.velocity, e.patrolLower, e.patrolUpper)
    ensures r.request == Some(To(Idle)) <==> AtLimit(r.enemy)
    ensures r.request == Some(To(Idle)) || r.request == Some(To(Patrol))
    ensures r.request == Some(To(Idle)) ==> r.enemy.ch.velocity == 0
    ensures r.request == Some(To(Patrol)) ==> r.enemy.ch.velocity == e.ch.velocity && r.enemy.ch.facing == e.ch.facing
    ensures r.request == Some(To(Idle)) ==> r.enemy.ch.facing == 1
    ensures r.enemy.ch.(position := e.ch.position, velocity := e.ch.velocity, facing := e.ch.facing) == e.ch
    ensures r.enemy.patrolLower == e.patrolLower && r.enemy.patrolUpper == e.patrolUpper && !r.queueFree
  {
    var position := Min(Max(e.ch.position + delta * e.ch.velocity, e.patrolLower), e.patrolUpper);
    var e1 := e.(ch := e.ch.(position := position));
    if AtLimit(e1) then Stay(e1.(ch := WithVelocity(e1.ch, 0)), Some(To(Idle)))
    else Stay(e1, Some(To(Patrol)))
  }

  /** `DeadProcess`: once the dead time is up, queue the enemy to be freed; never a transition. */
  function DeadProcessOn(e: Enemy, fired: bool): (r: Reaction)
    ensures r.request.None? && r.enemy == e && r.queueFree == fired
  {
    Reaction(e, None, fired)
  }

  /** `StunnedOnEnter` shows '%', `StunnedOnExit` restores '#'. */
  function StunnedTokenHook(e: Enemy, entering: bool): (r: Reaction)
    ensures r.enemy.ch.token == (if entering then '%' else '#')
    ensures r.enemy.ch.(token := e.ch.token) == e.ch && r.request.None? && !r.queueFree
    ensures r.enemy.patrolLower == e.patrolLower && r.enemy.patrolUpper == e.patrolUpper
  {
    Stay(e.(ch := e.ch.(token := if entering then '%' else '#')), None)
  }

  /** `PatrolOnEnter`: an enemy at rest starts moving at `MovementSpeed` towards the upper end if it is
      below it, otherwise towards the lower end; then it asks for Patrol. */
  function PatrolOnEnterOn(e: Enemy): (r: Reaction)
    ensures e.ch.velocity != 0 ==> r.enemy == e
    ensures e.ch.velocity == 0 && e.ch.position < e.patrolUpper ==> r.enemy.ch.velocity == e.ch.movementSpeed
    ensures e.ch.velocity == 0 && e.ch.position >= e.patrolUpper ==> r.enemy.ch.velocity == -e.ch.movementSpeed
    ensures r.enemy.ch.position == e.ch.position && r.request == Some(To(Patrol)) && !r.queueFree
    ensures e.ch.velocity == 0 ==> r.enemy.ch.facing == SignOf(r.enemy.ch.velocity)
    ensures r.enemy.ch.(velocity := e.ch.velocity, facing := e.ch.facing) == e.ch
    ensures r.enemy.patrolLower == e.patrolLower && r.enemy.patrolUpper == e.patrolUpper
  {
    if e.ch.velocity == 0 then
      var v := if e.ch.position < e.patrolUpper then e.ch.movementSpeed else -e.ch.movementSpeed;
      Stay(e.(ch := WithVelocity(e.ch, v)), Some(To(Patrol)))
    else Stay(e, Some(To(Patrol)))
  }

  /** Run a handler or hook on an event (hooks ignore it). */
  function Invoke(h: Handler, e: Enemy, ev: Event): Reaction
  {
    match h
    case AliveTakeDamage => AliveTakeDamageOn(e, if ev.TakeDamage? then ev.damage else 0)
    case StunnedOnEnter => StunnedTokenHook(e, true)
    case StunnedOnExit => StunnedTokenHook(e, false)
    case StunnedProcess => StunnedProcessOn(e, ev.Process? && ev.fired)
    case IdleOnEnter => Stay(e, Some(To(Idle)))
    case IdleProcess => IdleProcessOn(e, ev.Process? && ev.fired)
    case PatrolOnEnter => PatrolOnEnterOn(e)
    case PatrolProcess => PatrolProcessOn(e, if ev.Process? then ev.delta else 0)
    case DeadOnEnter => Stay(e, None)
    case DeadProcess => DeadProcessOn(e, ev.Process? && ev.fired)
  }

  function Kind(ev: Event): Input
  {
    if ev.Process? then ProcessInput else TakeDamageInput
  }

  /** Deliver an event while `current` is the active leaf: the handler of the innermost edge for it, or
      None when no edge handles it there. */
  function Deliver(current: State, e: Enemy, ev: Event): (r: Option<Reaction>)
    ensures current in {Stunned, Idle, Patrol} && ev.TakeDamage? ==> r == Some(AliveTakeDamageOn(e, ev.damage))
    ensures current == Stunned && ev.Process? ==> r == Some(StunnedProcessOn(e, ev.fired))
    ensures current == Idle && ev.Process? ==> r == Some(IdleProcessOn(e, ev.fired))
    ensures current == Patrol && ev.Process? ==> r == Some(PatrolProcessOn(e, ev.delta))
    ensures current == Dead ==> r == (if ev.Process? then Some(DeadProcessOn(e, ev.fired)) else None)
  {
    DispatchResting(current, Kind(ev));
    match Dispatch(Topology(), current, Kind(ev))
    case None => None
    case Some(hd) => Some(Invoke(hd.edge.handler, e, ev))
  }

  /** The states the machine rests in. */
  predicate IsLeafState(s: State)
  {
    s in {Stunned, Idle, Patrol, Dead}
  }

  lemma NodesOfTopology()
    ensures Nodes(Topology()) == [Topology(), AliveDef(), StunnedDef(), IdleDef(), PatrolDef(), DeadDef()]
  {
  }

  lemma IdsOfTopology()
    ensures Ids(Topology()) == [Init, Alive, Stunned, Idle, Patrol, Dead]
  {
    NodesOfTopology();
  }

  lemma RootWellFormed() ensures NodeWellFormed(Ids(Topology()), Topology()) { IdsOfTopology(); }
  lemma IdsOfAlive() ensures Ids(AliveDef()) == [Alive, Stunned, Idle, Patrol]
  {
    assert Nodes(AliveDef()) == [AliveDef(), StunnedDef(), IdleDef(), PatrolDef()];
  }
  lemma AliveWellFormed() ensures NodeWellFormed(Ids(Topology()), AliveDef())
  {
    IdsOfTopology();
    IdsOfAlive();
    assert Ids(AliveDef())[1..] == [Stunned, Idle, Patrol];
  }
  lemma StunnedWellFormed() ensures NodeWellFormed(Ids(Topology()), StunnedDef()) { IdsOfTopology(); }
  lemma IdleWellFormed() ensures NodeWellFormed(Ids(Topology()), IdleDef()) { IdsOfTopology(); }
  lemma PatrolWellFormed() ensures NodeWellFormed(Ids(Topology()), PatrolDef()) { IdsOfTopology(); }
  lemma DeadWellFormed() ensures NodeWellFormed(Ids(Topology()), DeadDef()) { IdsOfTopology(); }

  /** No state id is declared twice. */
  lemma IdsDoNotRepeat()
    ensures NoRepeats([Init, Alive, Stunned, Idle, Patrol, Dead])
  {
  }

  /** The id list never repeats, so the topology declares each id once. */
  lemma IdsAreUnique()
    ensures UniqueIds(Topology())
  {
    IdsOfTopology();
    IdsDoNotRepeat();
    UniqueIdsFromList(Topology(), [Init, Alive, Stunned, Idle, Patrol, Dead]);
  }

  /** Every node satisfies the per-state rules. */
  lemma NodesWellFormed()
    ensures forall n :: n in Nodes(Topology()) ==> NodeWellFormed(Ids(Topology()), n)
  {
    NodesOfTopology();
    NodesWellFormedList([Topology(), AliveDef(), StunnedDef(), IdleDef(), PatrolDef(), DeadDef()]);
  }

  lemma NodesWellFormedList(ns: seq<StateDef<State, Input, Handler>>)
    requires ns == [Topology(), AliveDef(), StunnedDef(), IdleDef(), PatrolDef(), DeadDef()]
    ensures forall n :: n in ns ==> NodeWellFormed(Ids(Topology()), n)
  {
    RootWellFormed();
    AliveWellFormed();
    StunnedWellFormed();
    IdleWellFormed();
    PatrolWellFormed();
    DeadWellFormed();
  }

  /** The topology is well formed: unique ids, each start below its composite, every target declared. */
  lemma TopologyWellFormed()
    ensures WellFormed(Topology())
  {
    IdsAreUnique();
    NodesWellFormed();
  }

  /** The definition of an alive leaf. */
  function AliveLeafDef(s: State): StateDef<State, Input, Handler>
    requires s in {Stunned, Idle, Patrol}
  {
    if s == Stunned then StunnedDef() else if s == Idle then IdleDef() else PatrolDef()
  }

  lemma PathToAliveLeaf(s: State)
    requires s in {Stunned, Idle, Patrol}
    ensures PathTo(Topology(), s) == Some([Topology(), AliveDef(), AliveLeafDef(s)])
  {
    var c := AliveDef().children;
    assert c == [StunnedDef(), IdleDef(), PatrolDef()];
    assert PathTo(AliveLeafDef(s), s) == Some([AliveLeafDef(s)]);
    assert PathAmong(AliveDef(), 3, s) == None;
    if s == Patrol {
      assert PathAmong(AliveDef(), 2, s) == Some([PatrolDef()]);
      assert PathTo(IdleDef(), s) == None;
      assert PathAmong(AliveDef(), 1, s) == Some([PatrolDef()]);
    } else if s == Idle {
      assert PathAmong(AliveDef(), 1, s) == Some([IdleDef()]);
    }
    if s != Stunned {
      assert PathTo(StunnedDef(), s) == None;
    }
    assert PathAmong(AliveDef(), 0, s) == Some([AliveLeafDef(s)]);
    assert [AliveDef()] + [AliveLeafDef(s)] == [AliveDef(), AliveLeafDef(s)];
    assert PathTo(AliveDef(), s) == Some([AliveDef(), AliveLeafDef(s)]);
    assert PathAmong(Topology(), 0, s) == Some([AliveDef(), AliveLeafDef(s)]);
    assert [Topology()] + [AliveDef(), AliveLeafDef(s)] == [Topology(), AliveDef(), AliveLeafDef(s)];
  }

  lemma PathToDead()
    ensures PathTo(Topology(), Dead) == Some([Topology(), DeadDef()])
  {
    assert AliveDef().children == [StunnedDef(), IdleDef(), PatrolDef()];
    assert PathTo(StunnedDef(), Dead) == None;
    assert PathTo(IdleDef(), Dead) == None;
    assert PathTo(PatrolDef(), Dead) == None;
    assert PathAmong(AliveDef(), 2, Dead) == None;
    assert PathAmong(AliveDef(), 1, Dead) == None;
    assert PathAmong(AliveDef(), 0, Dead) == None;
    assert PathTo(AliveDef(), Dead) == None;
    assert Topology().children == [AliveDef(), DeadDef()];
    assert PathAmong(Topology(), 1, Dead) == Some([DeadDef()]);
    assert PathAmong(Topology(), 0, Dead) == Some([DeadDef()]);
    assert [Topology()] + [DeadDef()] == [Topology(), DeadDef()];
  }

  /** On an alive leaf, Process is the leaf's own edge and TakeDamage falls back to Alive's. */
  lemma DispatchAliveLeaf(s: State, i: Input)
    requires s in {Stunned, Idle, Patrol}
    ensures Dispatch(Topology(), s, i) == Some(
      if i == ProcessInput then Handling(s, AliveLeafDef(s).edges[0]) else Handling(Alive, AliveDef().edges[0]))
  {
    PathToAliveLeaf(s);
    var p := [Topology(), AliveDef(), AliveLeafDef(s)];
    assert p[..2] == [Topology(), AliveDef()];
    var l := AliveLeafDef(s).edges;
    var a := AliveDef().edges;
    if i == ProcessInput {
      assert EdgeFor(l, i) == Some(l[0]);
    } else {
      assert EdgeFor(l, i) == None;
      assert EdgeFor(a, i) == Some(a[0]);
    }
  }

  /** Dead declares only Process and Init nothing, so damage to a dead enemy is unhandled. */
  /** The dispatch lemmas for every leaf at once. */
  lemma DispatchResting(s: State, i: Input)
    ensures s in {Stunned, Idle, Patrol} ==> Dispatch(Topology(), s, i) == Some(
      if i == ProcessInput then Handling(s, AliveLeafDef(s).edges[0]) else Handling(Alive, AliveDef().edges[0]))
    ensures s == Dead ==>
      Dispatch(Topology(), s, i) == (if i == ProcessInput then Some(Handling(Dead, DeadDef().edges[0])) else None)
  {
    if s in {Stunned, Idle, Patrol} {
      DispatchAliveLeaf(s, i);
    } else if s == Dead {
      DispatchDead(i);
    }
  }

  lemma DispatchDead(i: Input)
    ensures Dispatch(Topology(), Dead, i) ==
      if i == ProcessInput then Some(Handling(Dead, DeadDef().edges[0])) else None
  {
    PathToDead();
    var p := [Topology(), DeadDef()];
    assert p[..1] == [Topology()];
    assert p[..1][..0] == [];
    var d := DeadDef().edges;
    if i == ProcessInput {
      assert EdgeFor(d, i) == Some(d[0]);
    } else {
      assert EdgeFor(d, i) == None;
      assert Innermost(p[..1], i) == None;
    }
  }

  /** Every request a handler makes is allowed by its edge: Stunned asks for itself or History, Idle for
      itself or Patrol, Patrol for itself or Idle, `AliveTakeDamage` for Dead or Stunned. */
  lemma HandlersConform(s: State, e: Enemy, ev: Event)
    requires IsLeafState(s)
    ensures Dispatch(Topology(), s, ProcessInput).Some?
    ensures var d := Dispatch(Topology(), s, Kind(ev));
      d.Some? ==> Permits(d.value.owner, d.value.edge, Invoke(d.value.edge.handler, e, ev).request)
  {
    match s
    case Dead => DispatchDead(ProcessInput); ConformsWhenDead(e, ev);
    case Stunned => DispatchAliveLeaf(s, ProcessInput); ConformsOnAliveLeaf(s, e, ev);
    case Idle => DispatchAliveLeaf(s, ProcessInput); ConformsOnAliveLeaf(s, e, ev);
    case Patrol => DispatchAliveLeaf(s, ProcessInput); ConformsOnAliveLeaf(s, e, ev);
  }

  lemma ConformsWhenDead(e: Enemy, ev: Event)
    ensures var d := Dispatch(Topology(), Dead, Kind(ev));
      d.Some? ==> Permits(d.value.owner, d.value.edge, Invoke(d.value.edge.handler, e, ev).request)
  {
    DispatchDead(Kind(ev));
  }

  lemma ConformsOnAliveLeaf(s: State, e: Enemy, ev: Event)
    requires s in {Stunned, Idle, Patrol}
    ensures var d := Dispatch(Topology(), s, Kind(ev));
      d.Some? ==> Permits(d.value.owner, d.value.edge, Invoke(d.value.edge.handler, e, ev).request)
  {
    DispatchAliveLeaf(s, Kind(ev));
  }

  /** The enter hook each state declares. */
  function EnterHookOf(s: State): Option<Handler>
  {
    match s
    case Stunned => Some(Handler.StunnedOnEnter)
    case Idle => Some(Handler.IdleOnEnter)
    case Patrol => Some(Handler.PatrolOnEnter)
    case Dead => Some(Handler.DeadOnEnter)
    case _ => None
  }

  /** The exit hook each state declares. */
  function ExitHookOf(s: State): Option<Handler>
  {
    if s == Stunned then Some(Handler.StunnedOnExit) else None
  }

  lemma HooksOfNodes()
    ensures forall n :: n in Nodes(Topology()) ==> n.onEnter == EnterHookOf(n.id) && n.onExit == ExitHookOf(n.id)
  {
    NodesOfTopology();
    HooksOfList([Topology(), AliveDef(), StunnedDef(), IdleDef(), PatrolDef(), DeadDef()]);
  }

  lemma HooksOfList(ns: seq<StateDef<State, Input, Handler>>)
    requires ns == [Topology(), AliveDef(), StunnedDef(), IdleDef(), PatrolDef(), DeadDef()]
    ensures forall n :: n in ns ==> n.onEnter == EnterHookOf(n.id) && n.onExit == ExitHookOf(n.id)
  {
    assert forall i :: 0 <= i < |ns| ==> ns[i].onEnter == EnterHookOf(ns[i].id) && ns[i].onExit == ExitHookOf(ns[i].id);
  }

  /** Stunned's, Idle's, Patrol's and Dead's enter hooks request nothing or their own state. */
  lemma EnterHookConforms(s: State, e: Enemy, ev: Event)
    requires EnterHookOf(s).Some?
    ensures HookPermits(s, Invoke(EnterHookOf(s).value, e, ev).request)
  {
  }

  /** The enter and exit hooks request nothing or their own state: Idle and Patrol re-request themselves. */
  lemma HooksConform(e: Enemy, ev: Event)
    ensures forall n :: n in Nodes(Topology()) && n.onEnter.Some? ==>
      HookPermits(n.id, Invoke(n.onEnter.value, e, ev).request)
    ensures forall n :: n in Nodes(Topology()) && n.onExit.Some? ==>
      HookPermits(n.id, Invoke(n.onExit.value, e, ev).request)
  {
    HooksOfNodes();
    forall n | n in Nodes(Topology()) && n.onEnter.Some?
      ensures HookPermits(n.id, Invoke(n.onEnter.value, e, ev).request)
    {
      EnterHookConforms(n.id, e, ev);
    }
  }

  /** A dead enemy never asks for a transition: it ignores damage and its Process only frees it. */
  lemma DeadNeverLeaves(e: Enemy, ev: Event)
    ensures Deliver(Dead, e, ev).Some? <==> ev.Process?
    ensures Deliver(Dead, e, ev).Some? ==> Deliver(Dead, e, ev).value.request.None?
  {
    DispatchDead(Kind(ev));
  }

  /** Damage to any alive leaf goes to `AliveTakeDamage`: an enemy whose health reaches zero dies, any
      other is stunned. */
  lemma DamageWhileAlive(s: State, e: Enemy, damage: int)
    requires s in {Stunned, Idle, Patrol}
    ensures Deliver(s, e, TakeDamage(damage)) == Some(AliveTakeDamageOn(e, damage))
    ensures Deliver(s, e, TakeDamage(damage)).value.request ==
      if e.ch.health - damage <= 0 then Some(To(Dead)) else Some(To(Stunned))
  {
    DispatchAliveLeaf(s, TakeDamageInput);
  }

  /** A fresh enemy that starts to patrol heads for the upper end at speed 5; after two ticks of one unit
      it is at that end, stopped and going Idle. */
  lemma FirstPatrol()
    ensures PatrolOnEnterOn(Create()).enemy.ch.velocity == 5
    ensures var e := PatrolOnEnterOn(Create()).enemy;
      var r := PatrolProcessOn(PatrolProcessOn(e, 1).enemy, 1);
      r.enemy.ch.position == 60 && r.request == Some(To(Idle)) && r.enemy.ch.velocity == 0
  {
  }
}
