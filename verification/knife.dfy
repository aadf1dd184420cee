/** Knife.cs: a throwable weapon driven by a declarative state machine `Init{Active{Thrown, Held}, Idle}`.
    Whether a player is within reach of the blade, and the fire-rate limiter's answer, are inputs. */
module Knife {
  import opened Wrappers
  import opened Numeric
  import opened Hsm
  import opened Character

  /** `State`. */
  datatype State = Init | Active | Thrown | Held | Idle

  /** `Inputs`: the three `[HsmInput]` methods. */
  datatype Input = ProcessInput | ThrowInput | PickupInput

  /** The handler and hook methods the topology binds. */
  datatype Handler = ThrownProcess | HeldProcess | HeldThrow | IdleEnter | IdleExit | IdlePickup

  function ThrownDef(): StateDef<State, Input, Handler>
  {
    Leaf(Thrown, None, None, [Edge(ProcessInput, Handler.ThrownProcess, [Self, To(Idle)])])
  }

  function HeldDef(): StateDef<State, Input, Handler>
  {
    Leaf(Held, None, None, [
      Edge(ProcessInput, Handler.HeldProcess, [Self, To(Idle)]),
      Edge(ThrowInput, Handler.HeldThrow, [To(Thrown)])])
  }

  /** Active declares no start state. */
  function ActiveDef(): StateDef<State, Input, Handler>
  {
    StateDef(Active, [ThrownDef(), HeldDef()], None, None, None, [])
  }

  function IdleDef(): StateDef<State, Input, Handler>
  {
    Leaf(Idle, Some(Handler.IdleEnter), Some(Handler.IdleExit), [Edge(PickupInput, Handler.IdlePickup, [To(Held)])])
  }

  /** `StateMachine`: `Init{Active{Thrown, Held}, Idle}`, starting at Idle. */
  function Topology(): StateDef<State, Input, Handler>
  {
    StateDef(Init, [ActiveDef(), IdleDef()], Some(Idle), None, None, [])
  }

  /** The width of the board. */
  const BoardSize := 100

  /** A knife: its character and `m_destination`. */
  datatype Knife = Knife(ch: Character, destination: int)

  /** An event: a tick (with whether a player is within reach and whether the fire rate allows a slash),
      a throw of at most `maxDistance`, or a pick-up. */
  datatype Event = Process(delta: int, playerInReach: bool, ready: bool) | Throw(maxDistance: int) | Pickup

  /** What a handler or hook did: the knife afterwards, its `SetNext` request, and the damage dealt to
      the player it hit. */
  datatype Reaction = Reaction(knife: Knife, request: Option<Target<State>>, dealt: int)

  /** The constructor: token '-', position 45, at rest, reach 1, damage 10, speed 10, no destination. */
  function Create(): (k: Knife)
    ensures k.ch.token == '-' && k.ch.position == 45 && k.ch.velocity == 0 && k.ch.facing == 1
    ensures k.ch.sightDistance == 1 && k.ch.damage == 10 && k.ch.movementSpeed == 10 && k.destination == 0
  {
    Knife(WithVelocity(Character('-', 45, 1, 10, 0, 1, 0, 10), 0), 0)
  }

  /** `TakeDamage`: a knife ignores damage (it is not an input of the machine). */
  function TakeDamage(k: Knife, damage: int): (r: Knife)
    ensures r == k
  {
    k
  }

  function Stay(k: Knife, request: Option<Target<State>>): Reaction
  {
    Reaction(k, request, 0)
  }

  /** `IdleEnter` shows '_' (lying on the ground); `IdleExit` shows '-'. */
  function IdleTokenHook(k: Knife, entering: bool): (r: Reaction)
    ensures r.knife.ch.token == (if entering then '_' else '-')
    ensures r.knife.ch.(token := k.ch.token) == k.ch && r.knife.destination == k.destination
    ensures r.request.None? && r.dealt == 0
  {
    Stay(k.(ch := k.ch.(token := if entering then '_' else '-')), None)
  }

  /** `IdlePickup`: always ask to be Held. */
  function IdlePickupOn(k: Knife): (r: Reaction)
    ensures r.request == Some(To(Held)) && r.knife == k && r.dealt == 0
  {
    Stay(k, Some(To(Held)))
  }

  /** `HeldThrow`: aim at `|maxDistance|` ahead (kept on the board), fly at `MovementSpeed` the way the
      knife faces, and ask for Thrown. */
  function HeldThrowOn(k: Knife, maxDistance: int): (r: Reaction)
    ensures r.request == Some(To(Thrown)) && r.dealt == 0
    ensures 0 <= r.knife.destination <= BoardSize
    ensures r.knife.destination == Clamp(k.ch.position + (if maxDistance < 0 then -maxDistance else maxDistance) * k.ch.facing, 0, BoardSize)
    ensures r.knife.ch.velocity == k.ch.movementSpeed * k.ch.facing
    ensures k.ch.movementSpeed > 0 ==> r.knife.ch.facing == k.ch.facing
    ensures r.knife.ch.position == k.ch.position
    ensures r.knife.ch.facing == SignOf(r.knife.ch.velocity)
    ensures r.knife.ch.(velocity := k.ch.velocity, facing := k.ch.facing) == k.ch
  {
    var reach := if maxDistance < 0 then -maxDistance else maxDistance;
    var destination := Min(Max(k.ch.position + reach * k.ch.facing, 0), BoardSize);
    Stay(Knife(WithVelocity(k.ch, k.ch.movementSpeed * k.ch.facing), destination), Some(To(Thrown)))
  }

  /** The thrown knife has reached (or passed) its destination in the direction it faces. */
  predicate PastDestination(k: Knife)
  {
    (k.ch.facing < 0 && k.ch.position <= k.destination) || (k.ch.facing > 0 && k.ch.position >= k.destination)
  }

  /** `ThrownProcess`: move and stay on the board; at an edge of the board, at the destination, or on hitting
      a player (for three times its damage) the knife falls and asks for Idle; otherwise no request. */
  function ThrownProcessOn(k: Knife, delta: int, playerInReach: bool): (r: Reaction)
    ensures 0 <= r.knife.ch.position <= BoardSize
    ensures r.knife.ch.position == Clamp(k.ch.position + delta * k.ch.velocity, 0, BoardSize)
    ensures r.request == None || r.request == Some(To(Idle))
    ensures r.request.None? <==>
      0 < r.knife.ch.position < BoardSize && !PastDestination(r.knife) && !playerInReach
    ensures r.dealt != 0 ==> r.dealt == 3 * k.ch.damage && r.request.Some?
    ensures r.dealt ==
      (if 0 < r.knife.ch.position < BoardSize && !PastDestination(r.knife) && playerInReach then 3 * k.ch.damage else 0)
    ensures r.knife.(ch := r.knife.ch.(position := k.ch.position)) == k
  {
    var position := Min(Max(k.ch.position + delta * k.ch.velocity, 0), BoardSize);
    var k1 := k.(ch := k.ch.(position := position));
    if position == 0 || position == BoardSize then Stay(k1, Some(To(Idle)))
    else if PastDestination(k1) then Stay(k1, Some(To(Idle)))
    else if playerInReach then Reaction(k1, Some(To(Idle)), 3 * k.ch.damage)
    else Stay(k1, None)
  }

  /** `HeldProcess`: slash a player within reach when the fire rate allows; never a transition. */
  function HeldProcessOn(k: Knife, playerInReach: bool, ready: bool): (r: Reaction)
    ensures r.request.None? && r.knife == k
    ensures r.dealt == (if playerInReach && ready then k.ch.damage else 0)
  {
    Reaction(k, None, if playerInReach && ready then k.ch.damage else 0)
  }

  /** Run a handler or hook on an event (hooks ignore it). */
  function Invoke(h: Handler, k: Knife, ev: Event): Reaction
  {
    match h
    case ThrownProcess => if ev.Process? then ThrownProcessOn(k, ev.delta, ev.playerInReach) else Stay(k, None)
    case HeldProcess => HeldProcessOn(k, ev.Process? && ev.playerInReach, ev.Process? && ev.ready)
    case HeldThrow => HeldThrowOn(k, if ev.Throw? then ev.maxDistance else 0)
    case IdleEnter => IdleTokenHook(k, true)
    case IdleExit => IdleTokenHook(k, false)
    case IdlePickup => IdlePickupOn(k)
  }

  function Kind(ev: Event): Input
  {
    match ev
    case Process(_, _, _) => ProcessInput
    case Throw(_) => ThrowInput
    case Pickup => PickupInput
  }

  /** Deliver an event while `current` is the active leaf: the handler of the innermost edge for it, or
      None when no edge handles it there. */
  function Deliver(current: State, k: Knife, ev: Event): (r: Option<Reaction>)
    ensures current == Thrown ==> r == (if ev.Process? then Some(ThrownProcessOn(k, ev.delta, ev.playerInReach)) else None)
    ensures current == Held && ev.Process? ==> r == Some(HeldProcessOn(k, ev.playerInReach, ev.ready))
    ensures current == Held && ev.Throw? ==> r == Some(HeldThrowOn(k, ev.maxDistance))
    ensures current == Held && ev.Pickup? ==> r.None?
    ensures current == Idle ==> r == (if ev.Pickup? then Some(IdlePickupOn(k)) else None)
  {
    DispatchResting(current, Kind(ev));
    match Dispatch(Topology(), current, Kind(ev))
    case None => None
    case Some(hd) => Some(Invoke(hd.edge.handler, k, ev))
  }

  lemma NodesOfTopology()
    ensures Nodes(Topology()) == [Topology(), ActiveDef(), ThrownDef(), HeldDef(), IdleDef()]
  {
  }

  lemma IdsOfTopology()
    ensures Ids(Topology()) == [Init, Active, Thrown, Held, Idle]
  {
    NodesOfTopology();
  }

  lemma RootWellFormed() ensures NodeWellFormed(Ids(Topology()), Topology()) { IdsOfTopology(); }
  lemma ActiveWellFormed() ensures NodeWellFormed(Ids(Topology()), ActiveDef()) { IdsOfTopology(); }
  lemma ThrownWellFormed() ensures NodeWellFormed(Ids(Topology()), ThrownDef()) { IdsOfTopology(); }
  lemma HeldWellFormed() ensures NodeWellFormed(Ids(Topology()), HeldDef()) { IdsOfTopology(); }
  lemma IdleWellFormed() ensures NodeWellFormed(Ids(Topology()), IdleDef()) { IdsOfTopology(); }

  /** No state id is declared twice. */
  lemma IdsDoNotRepeat()
    ensures NoRepeats([Init, Active, Thrown, Held, Idle])
  {
  }

  /** The id list never repeats, so the topology declares each id once. */
  lemma IdsAreUnique()
    ensures UniqueIds(Topology())
  {
    IdsOfTopology();
    IdsDoNotRepeat();
    UniqueIdsFromList(Topology(), [Init, Active, Thrown, Held, Idle]);
  }

  /** Every node satisfies the per-state rules. */
  lemma NodesWellFormed()
    ensures forall n :: n in Nodes(Topology()) ==> NodeWellFormed(Ids(Topology()), n)
  {
    NodesOfTopology();
    NodesWellFormedList([Topology(), ActiveDef(), ThrownDef(), HeldDef(), IdleDef()]);
  }

  lemma NodesWellFormedList(ns: seq<StateDef<State, Input, Handler>>)
    requires ns == [Topology(), ActiveDef(), ThrownDef(), HeldDef(), IdleDef()]
    ensures forall n :: n in ns ==> NodeWellFormed(Ids(Topology()), n)
  {
    RootWellFormed();
    ActiveWellFormed();
    ThrownWellFormed();
    HeldWellFormed();
    IdleWellFormed();
  }

  /** The topology is well formed. */
  lemma TopologyWellFormed()
    ensures WellFormed(Topology())
  {
    IdsAreUnique();
    NodesWellFormed();
  }

  lemma PathToThrown()
    ensures PathTo(Topology(), Thrown) == Some([Topology(), ActiveDef(), ThrownDef()])
  {
    assert ActiveDef().children == [ThrownDef(), HeldDef()];
    assert PathTo(ThrownDef(), Thrown) == Some([ThrownDef()]);
    assert PathAmong(ActiveDef(), 0, Thrown) == Some([ThrownDef()]);
    assert [ActiveDef()] + [ThrownDef()] == [ActiveDef(), ThrownDef()];
    assert PathTo(ActiveDef(), Thrown) == Some([ActiveDef(), ThrownDef()]);
    assert PathAmong(Topology(), 0, Thrown) == Some([ActiveDef(), ThrownDef()]);
    assert [Topology()] + [ActiveDef(), ThrownDef()] == [Topology(), ActiveDef(), ThrownDef()];
  }

  lemma PathToHeld()
    ensures PathTo(Topology(), Held) == Some([Topology(), ActiveDef(), HeldDef()])
  {
    assert ActiveDef().children == [ThrownDef(), HeldDef()];
    assert PathTo(ThrownDef(), Held) == None;
    assert PathTo(HeldDef(), Held) == Some([HeldDef()]);
    assert PathAmong(ActiveDef(), 1, Held) == Some([HeldDef()]);
    assert PathAmong(ActiveDef(), 0, Held) == Some([HeldDef()]);
    assert [ActiveDef()] + [HeldDef()] == [ActiveDef(), HeldDef()];
    assert PathTo(ActiveDef(), Held) == Some([ActiveDef(), HeldDef()]);
    assert PathAmong(Topology(), 0, Held) == Some([ActiveDef(), HeldDef()]);
    assert [Topology()] + [ActiveDef(), HeldDef()] == [Topology(), ActiveDef(), HeldDef()];
  }

  lemma PathToIdle()
    ensures PathTo(Topology(), Idle) == Some([Topology(), IdleDef()])
  {
    assert ActiveDef().children == [ThrownDef(), HeldDef()];
    assert PathTo(ThrownDef(), Idle) == None;
    assert PathTo(HeldDef(), Idle) == None;
    assert PathAmong(ActiveDef(), 1, Idle) == None;
    assert PathAmong(ActiveDef(), 0, Idle) == None;
    assert PathTo(ActiveDef(), Idle) == None;
    assert Topology().children == [ActiveDef(), IdleDef()];
    assert PathAmong(Topology(), 1, Idle) == Some([IdleDef()]);
    assert PathAmong(Topology(), 0, Idle) == Some([IdleDef()]);
    assert [Topology()] + [IdleDef()] == [Topology(), IdleDef()];
  }

  /** The edge a leaf declares for an input, if any (Active and Init declare none). */
  function LeafEdge(s: State, i: Input): Option<Handling<State, Input, Handler>>
  {
    match (s, i)
    case (Thrown, ProcessInput) => Some(Handling(Thrown, ThrownDef().edges[0]))
    case (Held, ProcessInput) => Some(Handling(Held, HeldDef().edges[0]))
    case (Held, ThrowInput) => Some(Handling(Held, HeldDef().edges[1]))
    case (Idle, PickupInput) => Some(Handling(Idle, IdleDef().edges[0]))
    case _ => None
  }

  /** `DispatchLeaf` for any state: on a leaf, the leaf's own edge or none. */
  lemma DispatchResting(s: State, i: Input)
    ensures s in {Thrown, Held, Idle} ==> Dispatch(Topology(), s, i) == LeafEdge(s, i)
  {
    if s in {Thrown, Held, Idle} {
      DispatchLeaf(s, i);
    }
  }

  /** Every input is handled by the leaf's own edge or not at all: Throw only while Held, Pickup only while
      Idle, Process only while Thrown or Held. */
  lemma DispatchLeaf(s: State, i: Input)
    requires s in {Thrown, Held, Idle}
    ensures Dispatch(Topology(), s, i) == LeafEdge(s, i)
  {
    var l: seq<Edge<State, Input, Handler>>;
    var p: seq<StateDef<State, Input, Handler>>;
    if s == Thrown {
      PathToThrown();
      p := [Topology(), ActiveDef(), ThrownDef()];
      l := ThrownDef().edges;
    } else if s == Held {
      PathToHeld();
      p := [Topology(), ActiveDef(), HeldDef()];
      l := HeldDef().edges;
    } else {
      PathToIdle();
      p := [Topology(), IdleDef()];
      l := IdleDef().edges;
    }
    assert p[|p| - 1].edges == l;
    if LeafEdge(s, i).Some? {
      assert EdgeFor(l, i) == Some(LeafEdge(s, i).value.edge);
    } else {
      assert EdgeFor(l, i) == None;
      if s == Idle {
        assert p[..1] == [Topology()];
        assert p[..1][..0] == [];
        assert Innermost(p[..1], i) == None;
      } else {
        assert p[..2] == [Topology(), ActiveDef()];
        assert p[..2][..1] == [Topology()];
        assert p[..2][..1][..0] == [];
        assert Innermost(p[..2][..1], i) == None;
        assert Innermost(p[..2], i) == None;
      }
    }
  }

  /** Every request a handler makes is allowed by its edge: Pickup asks for Held, Throw for Thrown, a
      thrown knife for Idle or nothing, and a held knife never asks although its edge allows Self and Idle. */
  lemma HandlersConform(s: State, k: Knife, ev: Event)
    requires s in {Thrown, Held, Idle}
    ensures var d := Dispatch(Topology(), s, Kind(ev));
      d.Some? ==> Permits(d.value.owner, d.value.edge, Invoke(d.value.edge.handler, k, ev).request)
    ensures s == Held && ev.Process? ==> Deliver(s, k, ev).value.request.None?
    ensures s == Idle && ev.Pickup? ==> Deliver(s, k, ev).value.request == Some(To(Held))
    ensures s == Held && ev.Throw? ==> Deliver(s, k, ev).value.request == Some(To(Thrown))
  {
    DispatchLeaf(s, Kind(ev));
  }

  /** The Idle hooks request nothing. */
  lemma HooksConform(k: Knife, ev: Event)
    ensures forall n :: n in Nodes(Topology()) && n.onEnter.Some? ==> Invoke(n.onEnter.value, k, ev).request.None?
    ensures forall n :: n in Nodes(Topology()) && n.onExit.Some? ==> Invoke(n.onExit.value, k, ev).request.None?
  {
    NodesOfTopology();
    forall n | n in Nodes(Topology()) && n.onEnter.Some?
      ensures Invoke(n.onEnter.value, k, ev).request.None?
    {
      assert n == IdleDef();
    }
    forall n | n in Nodes(Topology()) && n.onExit.Some?
      ensures Invoke(n.onExit.value, k, ev).request.None?
    {
      assert n == IdleDef();
    }
  }

  /** A knife thrown from the start position flies right: ten units per tick towards a destination of 50
      for a throw of 5, and lies down once it arrives. */
  lemma ThrowAndLand()
    ensures var thrown := HeldThrowOn(Create(), 5).knife;
      thrown.destination == 50 && thrown.ch.velocity == 10 &&
      ThrownProcessOn(thrown, 1, false).request == Some(To(Idle)) &&
      ThrownProcessOn(thrown, 1, false).knife.ch.position == 55
  {
  }
}
