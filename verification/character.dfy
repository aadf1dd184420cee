/** Node.cs's input outcome and keys, and Character.cs's record of a game character, shared by Enemy.cs,
    Player.cs and Knife.cs. Positions and velocities are floats in the source; here they are integers. */
module Character {
  import opened Numeric

  /** `Node.InputOutcome`: not handled, handled, or handled and the game should exit. The first constructor
      is `None` in the source. */
  datatype InputOutcome = NotHandled | Handled | Terminate

  /** The console keys the samples distinguish, and every other key. */
  datatype Key = LeftArrow | RightArrow | Spacebar | Q | OtherKey(code: nat)

  /** `Node.HandleInput`: a node that does not override it handles nothing. */
  function DefaultHandleInput(key: Key): (r: InputOutcome)
    ensures r == NotHandled
  {
    NotHandled
  }

  /** A `Character`: its rendered token, `Position`, `Facing`, `MovementSpeed`, `Velocity`,
      `SightDistance`, `Health` and `Damage`. */
  datatype Character = Character(
    token: char,
    position: int,
    facing: Sign,
    movementSpeed: int,
    velocity: int,
    sightDistance: int,
    health: int,
    damage: int)

  /** The `Velocity` setter: store the value and face its way (`Facing = value` copies its sign). */
  function WithVelocity(c: Character, v: int): (r: Character)
    ensures r.velocity == v && r.facing == SignOf(v)
    ensures r.(velocity := c.velocity, facing := c.facing) == c
  {
    c.(velocity := v, facing := SignOf(v))
  }

  /** The `Facing` setter: only the sign of the value is kept. */
  function WithFacing(c: Character, f: int): (r: Character)
    ensures r.facing == SignOf(f)
    ensures r.(facing := c.facing) == c
  {
    c.(facing := SignOf(f))
  }

  /** A velocity set through the setter always faces the way it moves. */
  lemma VelocityFacesItsWay(c: Character, v: int)
    ensures WithVelocity(c, v).facing * WithVelocity(c, v).velocity >= 0
    ensures v != 0 ==> WithVelocity(c, v).facing * WithVelocity(c, v).velocity == if v < 0 then -v else v
  {
  }
}
