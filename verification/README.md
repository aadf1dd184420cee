# MarymoorStudios.Core samples: state machines, scene tree and small helpers

This project models the sample programs of MarymoorStudios.Core in Dafny. The library the samples run on is
not part of this model: the `MarymoorStudios.Core.Fsm` engine, promises, RPC and the serializer.

- **The traffic-light series.** `Blinker` through `Blinker4` are hand-written switch machines with a
  one-second blink timer. `Blinker5` is an intersection of four lights. `Blinker6` rewrites `Blinker5` as
  declarative hierarchical state machines.
  - Each machine is a pure step function `(state, input) -> (state', printed line?)`.
  - Refinement lemmas tie `Blinker4` to `Blinker3`, and `Blinker6` to `Blinker5`.
- **The heroes.** `Hero` is a hand-written class-per-state machine whose input wrappers assert the
  transitions they expect; `Hero2` is the same hero as a declarative topology.
  - A lemma proves that the declarative hero delivers every event as the hand-written one does, except the
    reflect damage `Hero2.cs`'s Attack sends, which is left out.
- **The characters `Enemy`, `Player` and `Knife`.**
  - Each topology is literal data: a tree of `StateDef` values (module `Hsm`).
  - Each handler is a pure decision returning the character's new fields and its `SetNext` request.
  - Conformance lemmas prove that every request a handler makes is one its edge declares.
- **`SceneTree`.** A world of trees holding node ids, with `Add`, `Remove`, `QueueFree` and `FreeResources`.
  - It also has the input-delivery loop `HandleWorldInput` and the closest-match search `RayTrace`.
  - A validity invariant, that each node's back-reference names the tree holding it, is proved preserved.
- **Helpers.** The `Renderer` line buffer; the `Calc` register objects and the call script of the RPC
  sample's `Main`; and the two `ComputeFibonacci` functions.

Time is counted in whole 100 ns ticks: `TimeSpan.FromSeconds(1)` is 10 000 000. Positions and velocities are
idealised as integers. A `BucketRateLimiter.TryTake` answer, a "landed" test and a ray-trace hit arrive as
boolean inputs.

## Model

| member | source | states |
|---|---|---|
| Lights.Advance | Samples/HsmSample/Blinker2.cs:61-69 | the blink timer fires exactly when the accumulated time strictly exceeds one second (equality does not fire), resets to 0 when it fires, keeps the sum otherwise, and never exceeds the threshold |
| Lights.Toggle | Samples/HsmSample/Blinker.cs:50-60 | the other phase is always different from the current one |
| Blinker.Init | Samples/HsmSample/Blinker.cs:41 | a new light is Off |
| Blinker.Process | Samples/HsmSample/Blinker.cs:48-61 | every tick changes the phase and prints the new phase's name |
| Blinker.ProcessTwiceRestores | Samples/HsmSample/Blinker.cs:48-61 | two ticks return the light to where it was |
| Blinker.RunAlternates | Samples/HsmSample/Blinker.cs:48-61 | the k-th of n ticks shows the toggled phase for even k and the original phase for odd k |
| Blinker.FourTicksFromInit | Samples/HsmSample/Blinker.cs:41-61 | from a new light, four ticks show On, Off, On, Off |
| Blinker2.Init | Samples/HsmSample/Blinker2.cs:47-50 | a new light starts in the Off phase and its timer starts at zero |
| Blinker2.Process | Samples/HsmSample/Blinker2.cs:57-80 | the phase flips iff old time plus delta exceeds the threshold; a flip resets the timer and prints the new phase; otherwise the time accumulates, nothing prints, and the time stays within the threshold |
| Blinker2.FlipMatchesBlinker | Samples/HsmSample/Blinker2.cs:57-80 | whenever the timed light flips, it does exactly what the untimed Blinker light does, printed line included |
| Blinker2.HoldsUntilThreshold | Samples/HsmSample/Blinker2.cs:57-80 | a run of non-negative ticks that stays within the threshold keeps the phase, prints nothing and accumulates the sum of the ticks |
| Blinker3.StateOf | Samples/HsmSample/Blinker3.cs:43-56 | each pair of phase and maintenance flag names exactly one of the four states |
| Blinker3.StateOfPhaseAndMode | Samples/HsmSample/Blinker3.cs:43-56 | a state is recovered from its phase and its maintenance flag, so the four states are that pair |
| Blinker3.Init | Samples/HsmSample/Blinker3.cs:63-66 | a new light is Off with no time accumulated |
| Blinker3.MaintenanceMode | Samples/HsmSample/Blinker3.cs:73-102 | the result is in maintenance iff enabled, keeps the on/off phase and the timer, and a light already in the requested group is unchanged |
| Blinker3.MaintenanceModeIdempotent | Samples/HsmSample/Blinker3.cs:73-102 | repeating a request changes nothing, and the last of two requests alone decides the result |
| Blinker3.Process | Samples/HsmSample/Blinker3.cs:105-146 | a tick never moves between the normal and maintenance groups, flips the phase iff the time exceeds the threshold, and prints "Off" leaving either Off state, "Yellow" leaving On and "Red" leaving MaintenanceOn |
| Blinker4.Init | Samples/HsmSample/Blinker4.cs:57-63 | a new light is Off, not in maintenance, with no time accumulated |
| Blinker4.MaintenanceMode | Samples/HsmSample/Blinker4.cs:70-81 | sets the maintenance flag to the request and changes neither the phase nor the timer |
| Blinker4.Process | Samples/HsmSample/Blinker4.cs:84-114 | a tick never changes the maintenance flag, flips iff the time exceeds the threshold, and prints "Off" leaving Off and "Red" or "Yellow" leaving On as the flag says |
| Blinker4.Abstract | Samples/HsmSample/Blinker3.cs:43-56 | maps (Off, no maintenance) to Off, (On, no) to On, (Off, yes) to MaintenanceOff and (On, yes) to MaintenanceOn, keeping the timer |
| Blinker4.AbstractIsBijective | Samples/HsmSample/Blinker4.cs:57-63 | the map is one-to-one and onto the four-state light |
| Blinker4.InitRefines | Samples/HsmSample/Blinker4.cs:57-63 | both lights start in corresponding states |
| Blinker4.MaintenanceModeRefines | Samples/HsmSample/Blinker4.cs:70-81 | a maintenance request moves both lights to corresponding states |
| Blinker4.ProcessRefines | Samples/HsmSample/Blinker4.cs:84-114 | a tick moves both lights to corresponding states and prints the same line |
| Blinker4.RunRefines | Samples/HsmSample/Blinker4.cs:70-114 | any sequence of ticks and maintenance requests prints the same lines on both lights and ends in corresponding states |
| Blinker5.Configuration | Samples/HsmSample/Blinker5.cs:64-73 | one light per direction, in the order North, East, South, West; North and South show Yellow, East and West Red |
| Blinker5.Init | Samples/HsmSample/Blinker5.cs:60 | the intersection starts Normal and every configured light starts Off with no time accumulated |
| Blinker5.MaintenanceMode | Samples/HsmSample/Blinker5.cs:83-86 | the intersection is in maintenance iff enabled, whatever it was before, and no light changes |
| Blinker5.MaintenanceModeIdempotent | Samples/HsmSample/Blinker5.cs:83-86 | repeating a request changes nothing, and the last of two requests alone decides the result |
| Blinker5.LightProcess | Samples/HsmSample/Blinker5.cs:173-203 | a light flips iff its time exceeds the threshold, then resets it; leaving Off prints "<direction>: Off", leaving On prints "Red" in maintenance and the light's own colour otherwise |
| Blinker5.ProcessLights | Samples/HsmSample/Blinker5.cs:89-95 | every light receives the same delta, in array order, and the printed lines are those the lights print in that order |
| Blinker5.Process | Samples/HsmSample/Blinker5.cs:89-95 | a tick leaves the intersection's own state unchanged and moves each light as its own Process does |
| Blinker6Light.OnProcessOff | Samples/HsmSample/Blinker6.cs:196-205 | requests On iff the time exceeds the threshold, then resets the time and prints "<direction>: Off"; otherwise it accumulates time, prints nothing and requests nothing |
| Blinker6Light.OnProcessOn | Samples/HsmSample/Blinker6.cs:207-223 | requests Off iff the time exceeds the threshold, then resets the time and prints the direction with "Red" in maintenance or the configured colour |
| Blinker6Light.DispatchProcess | Samples/HsmSample/Blinker6.cs:126-133 | each leaf handles Process with its own edge, bound to its own handler and declaring Off and On |
| Blinker6Light.TopologyWellFormed | Samples/HsmSample/Blinker6.cs:124-133 | the light's `StateMachine` topology `Blinker6Light.Topology` is Init{Off, On} starting at Off, with unique ids and every target declared |
| Blinker6Light.HandlersConform | Samples/HsmSample/Blinker6.cs:126-133 | every request a light handler makes is one its edge declares: Off asks only for On, On only for Off |
| Blinker6Light.Process | Samples/HsmSample/Blinker6.cs:190-194 | a tick keeps the direction and colour and, on a leaf, keeps the light on a leaf: it changes phase and prints iff the time exceeds the threshold, resetting the timer then and accumulating it otherwise; Off prints "<direction>: Off", On prints Red in maintenance and the light's colour otherwise; a light on no leaf is unchanged |
| Blinker6Light.Abstract | Samples/HsmSample/Blinker5.cs:156-159 | the hand-written light with the same direction, colour, phase and time |
| Blinker6Light.ProcessMatchesBlinker5 | Samples/HsmSample/Blinker6.cs:196-223 | a tick keeps the light on a leaf, moves it as the hand-written light moves, and prints the same line |
| Blinker6.Create | Samples/HsmSample/Blinker6.cs:69-79 | the intersection starts at its start state Normal with the four configured lights, each Off with no time |
| Blinker6.OnMaintenanceMode | Samples/HsmSample/Blinker6.cs:101-104 | always requests a named state: Maintenance iff enabled, Normal otherwise |
| Blinker6.ProcessLights | Samples/HsmSample/Blinker6.cs:107-113 | every light takes its own Process step with the same delta, in array order |
| Blinker6.OnProcess | Samples/HsmSample/Blinker6.cs:107-113 | forwards the tick to every light and never requests a transition |
| Blinker6.Process | Samples/HsmSample/Blinker6.cs:94-98 | a tick keeps the intersection's own state and moves every light, in order, as that light's own Process does with the intersection's maintenance flag |
| Blinker6.DispatchFromLeaves | Samples/HsmSample/Blinker6.cs:54-58 | from either leaf, both inputs are handled by the edges Init declares |
| Blinker6.TopologyWellFormed | Samples/HsmSample/Blinker6.cs:48-58 | the intersection's `StateMachine` topology `Blinker6.Topology` is Init{Normal, Maintenance} starting at Normal, with unique ids and declared targets |
| Blinker6.HandlersConform | Samples/HsmSample/Blinker6.cs:54-58 | the maintenance handler's request is one of its edge's targets; the Process handler, whose edge declares none, requests nothing |
| Blinker6.MaintenanceModeSetsMode | Samples/HsmSample/Blinker6.cs:101-104 | after a request the intersection is in maintenance iff enabled, on a leaf, with its lights untouched |
| Blinker6.MaintenanceMode | Samples/HsmSample/Blinker6.cs:88-92 | from any state the intersection ends on a leaf, in maintenance iff enabled, with its lights untouched |
| Blinker6.Abstract | Samples/HsmSample/Blinker5.cs:60-73 | the hand-written intersection with the same mode and corresponding lights in the same order |
| Blinker6.CreateMatchesBlinker5 | Samples/HsmSample/Blinker6.cs:69-79 | both intersections start in corresponding states |
| Blinker6.ProcessLightsMatch | Samples/HsmSample/Blinker6.cs:107-113 | driving the lights one after another prints what the hand-written lights print |
| Blinker6.ProcessLightsMatchBlinker5 | Samples/HsmSample/Blinker6.cs:107-113 | a tick keeps every light on a leaf and moves the intersection as the hand-written one moves |
| Blinker6.ProcessLinesMatchBlinker5 | Samples/HsmSample/Blinker6.cs:107-113 | a tick prints the lines the hand-written intersection prints |
| Blinker6.MaintenanceModeMatchesBlinker5 | Samples/HsmSample/Blinker6.cs:101-104 | a maintenance request changes the mode as the hand-written intersection does |
| Blinker6.RunMatchesBlinker5 | Samples/HsmSample/Blinker6.cs:88-113 | every sequence of ticks and maintenance requests prints the same lines and ends in corresponding states on both intersections |
| Hero.Init | Samples/HsmSample/Hero.cs:227-230 | a new hero is on the Ground with 20 hit points |
| Hero.StateAttack | Samples/HsmSample/Hero.cs:97-105 | an alive hero deals `s_attackDamage` and a Downed one nothing; the hero itself never changes |
| Hero.StateTakeDamage | Samples/HsmSample/Hero.cs:107-115 | an alive hero loses the damage without clamping and is Downed iff its health is no longer positive; a Downed hero is unaffected |
| Hero.StateJump | Samples/HsmSample/Hero.cs:141-183 | jumping never changes health |
| Hero.StateSlide | Samples/HsmSample/Hero.cs:150-154 | sliding never changes the discrete state |
| Hero.StateProcess | Samples/HsmSample/Hero.cs:117-135 | an alive hero that has landed goes to Ground; otherwise the state is kept; health never changes |
| Hero.AttackInput | Samples/HsmSample/Hero.cs:250-255 | the assertion after Attack always holds |
| Hero.TakeDamageInput | Samples/HsmSample/Hero.cs:258-263 | the assertion after TakeDamage always holds |
| Hero.JumpInput | Samples/HsmSample/Hero.cs:266-273 | as written, the assertion after Jump holds iff the hero is alive |
| Hero.JumpInputCorrected | Samples/HsmSample/Hero.cs:266-273 | with Downed staying Downed admitted, the assertion after Jump always holds |
| Hero.SlideInput | Samples/HsmSample/Hero.cs:276-281 | the assertion after Slide always holds and the state is kept |
| Hero.ProcessInput | Samples/HsmSample/Hero.cs:284-289 | the assertion after Process always holds |
| Hero.JumpWhenDownedFails | Samples/HsmSample/Hero.cs:201-204 | pressing Up while Downed leaves the hero as it was, and the Jump assertion fails |
| Hero.JumpTransitions | Samples/HsmSample/Hero.cs:141-183 | Jump moves Ground to Airborne, Airborne to Flying and Flying back to Airborne, exactly the moves the assertion lists |
| Hero.Step | Samples/HsmSample/Hero.cs:250-289 | with the corrected Jump assertion, no input wrapper fails |
| Hero.RunNeverFails | Samples/HsmSample/Hero.cs:250-289 | with the corrected Jump assertion, no sequence of inputs makes an assertion fail |
| Hero.AttackAndSlideKeepState | Samples/HsmSample/Hero.cs:250-281 | Attack and Slide leave the hero unchanged |
| Hero.DownedAbsorbing | Samples/HsmSample/Hero.cs:186-220 | a Downed hero stays Downed with unchanged health whatever the inputs |
| Hero.HealthNeverRises | Samples/HsmSample/Hero.cs:107-115 | with non-negative damage, no input sequence raises health |
| Hero.TwoHitsDown | Samples/HsmSample/Hero.cs:23-36 | from the start, two Left-arrow hits of 10 leave the hero Downed with 0 hit points |
| Hero2.Create | Samples/HsmSample/Hero2.cs:94 | the machine starts at its declared start state with 20 hit points |
| Hero2.AliveAttack | Samples/HsmSample/Hero2.cs:97-104 | deals `s_attackDamage`, keeps health and requests nothing, as its target-less edge requires |
| Hero2.AliveTakeDamage | Samples/HsmSample/Hero2.cs:106-114 | subtracts the damage without clamping and requests Downed iff health is no longer positive, nothing otherwise |
| Hero2.AliveProcess | Samples/HsmSample/Hero2.cs:116-134 | requests Ground iff the hero has landed |
| Hero2.JumpHandler | Samples/HsmSample/Hero2.cs:136-168 | Ground's and Flying's Jump handlers request Airborne and Airborne's requests Flying |
| Hero2.Abstract | Samples/HsmSample/Hero.cs:227-230 | Ground, Flying and Downed map to the hand-written states of the same name |
| Hero2.Concrete | Samples/HsmSample/Hero.cs:227-230 | every hand-written state has a resting state of the machine that maps back to it |
| Hero2.TopologyWellFormed | Samples/HsmSample/Hero2.cs:71-95 | the `StateMachine` topology `Hero2.Topology`, Init{Alive{Ground, Airborne{Flying}}, Downed}, declares each id once, starts below its root, and names only declared targets |
| Hero2.DispatchGround | Samples/HsmSample/Hero2.cs:78-79 | on Ground, Jump and Slide are Ground's own edges and the other inputs fall back to Alive |
| Hero2.DispatchAirborne | Samples/HsmSample/Hero2.cs:85-86 | on Airborne, Jump and Slide are Airborne's own edges and the other inputs fall back to Alive |
| Hero2.DispatchFlying | Samples/HsmSample/Hero2.cs:83-86 | on Flying, its own Jump edge shadows Airborne's, Slide comes from Airborne, the rest from Alive |
| Hero2.DispatchDowned | Samples/HsmSample/Hero2.cs:92 | on Downed only Process has an edge; every other input is unhandled |
| Hero2.HandlersConform | Samples/HsmSample/Hero2.cs:71-176 | every handler's request lies in its edge's declared targets, and handlers of target-less edges request nothing |
| Hero2.Deliver | Samples/HsmSample/Hero2.cs:211-243 | only TakeDamage changes health; a resting hero deals `s_attackDamage` exactly on Attack while alive; damage to an alive hero subtracts it and downs it iff health is no longer positive; a Downed hero stays Downed with its health |
| Hero2.DeliverMatchesHero | Samples/HsmSample/Hero2.cs:71-176 | every event does to the declarative hero what it does to the hand-written one, except the reflect damage of Attack, which is left out; a request for Airborne is taken to rest on Airborne |
| Hero2.RunMatchesHero | Samples/HsmSample/Hero2.cs:211-243 | every sequence of events leaves both heroes in corresponding states, with the same two exceptions as for a single event |
| Character.DefaultHandleInput | Samples/HsmSample/Node.cs:26-29 | a node that does not override input handling handles nothing |
| Character.WithVelocity | Samples/HsmSample/Character.cs:21-29 | setting a velocity stores it, makes the character face its way, and changes nothing else |
| Character.WithFacing | Samples/HsmSample/Character.cs:10-14 | only the sign of a facing is stored, and nothing else changes |
| Character.VelocityFacesItsWay | Samples/HsmSample/Character.cs:21-29 | after the setter, the facing times the velocity is never negative and equals the speed when moving |
| Enemy.Create | Samples/HsmSample/Enemy.cs:27-44 | a new enemy shows '#', stands at 50 facing right, has 15 health, 5 damage, speed 5, sight 15, and patrols 40 to 60 |
| Enemy.AliveTakeDamageOn | Samples/HsmSample/Enemy.cs:85-95 | health drops but never below 0; Dead is requested with token '&' iff health reaches 0, Stunned otherwise; nothing else changes |
| Enemy.StunnedProcessOn | Samples/HsmSample/Enemy.cs:108-117 | requests History when the stun time is up, Stunned otherwise |
| Enemy.IdleProcessOn | Samples/HsmSample/Enemy.cs:125-134 | requests Patrol when the idle time is up, Idle otherwise |
| Enemy.PatrolProcessOn | Samples/HsmSample/Enemy.cs:145-187 | the enemy moves but stays within its patrol region, and requests Idle and stops, facing +1, iff it is at a limit, else keeps patrolling at its speed and facing; nothing but position, velocity and facing changes |
| Enemy.DeadProcessOn | Samples/HsmSample/Enemy.cs:194-200 | never requests a transition and queues the enemy to be freed iff the dead time is up |
| Enemy.StunnedTokenHook | Samples/HsmSample/Enemy.cs:97-106 | entering Stunned shows '%', leaving restores '#', and nothing else changes |
| Enemy.PatrolOnEnterOn | Samples/HsmSample/Enemy.cs:136-143 | an enemy at rest starts towards the upper limit if below it and back otherwise, facing its way, with nothing but velocity and facing changed; a moving one is unchanged; Patrol is requested |
| Enemy.TopologyWellFormed | Samples/HsmSample/Enemy.cs:59-83 | the `StateMachine` topology `Enemy.Topology`, Init{Alive{Stunned, Idle, Patrol}, Dead}, declares each id once, each start lies below its composite, every target is declared |
| Enemy.DispatchAliveLeaf | Samples/HsmSample/Enemy.cs:61-77 | on an alive leaf, Process is the leaf's own edge and TakeDamage falls back to Alive's |
| Enemy.DispatchDead | Samples/HsmSample/Enemy.cs:78-80 | on Dead only Process has an edge |
| Enemy.HandlersConform | Samples/HsmSample/Enemy.cs:59-83 | every request a handler makes is allowed by its edge, as a declared target or as the edge's own state |
| Enemy.Deliver | Samples/HsmSample/Enemy.cs:46-56 | on an alive leaf damage runs the Alive damage handler and a tick runs the leaf's own Process handler (stun, idle or patrol); on Dead a tick runs the dead handler and damage is unhandled |
| Enemy.HooksConform | Samples/HsmSample/Enemy.cs:97-143 | every enter and exit hook requests nothing or its own state |
| Enemy.DeadNeverLeaves | Samples/HsmSample/Enemy.cs:78-80 | a dead enemy handles only ticks and never requests a transition |
| Enemy.DamageWhileAlive | Samples/HsmSample/Enemy.cs:85-95 | damage on any alive leaf reaches the Alive handler, which requests Dead iff the health reaches 0 |
| Enemy.FirstPatrol | Samples/HsmSample/Enemy.cs:136-187 | a new enemy that starts patrolling heads up at speed 5, and after two ticks of one unit stands at 60, stopped and going Idle |
| Player.Create | Samples/HsmSample/Player.cs:15-28 | a new player shows '*', stands at 20 facing right, has 30 health, 5 damage, speed 5 and sight 20 |
| Player.HandleInput | Samples/HsmSample/Player.cs:43-57 | the arrows and the space bar go to the machine and are Handled, Q terminates, any other key is not handled |
| Player.AliveTakeDamageOn | Samples/HsmSample/Player.cs:88-98 | health drops but never below 0; Dead is requested with token '&' iff health reaches 0, Stunned otherwise |
| Player.StunnedTokenHook | Samples/HsmSample/Player.cs:100-109 | entering Stunned shows '@', leaving restores '*', and nothing else changes |
| Player.StunnedProcessOn | Samples/HsmSample/Player.cs:111-120 | requests History when the stun time is up, Stunned otherwise |
| Player.NormalProcessOn | Samples/HsmSample/Player.cs:122-128 | the player moves by delta times velocity, clamped to the board at 0 and 100, and nothing else changes |
| Player.NormalOnInputOn | Samples/HsmSample/Player.cs:130-153 | Left and Right change the velocity by the speed within plus or minus the speed; Space deals the damage iff an enemy is in sight; no request |
| Player.DeadOnEnterOn | Samples/HsmSample/Player.cs:155-158 | dying ends the game |
| Player.TopologyWellFormed | Samples/HsmSample/Player.cs:66-86 | the `StateMachine` topology `Player.Topology`, Init{Alive{Stunned, Normal}, Dead}, declares each id once, each start lies below its composite, every target is declared |
| Player.DispatchStunned | Samples/HsmSample/Player.cs:72-81 | on Stunned, Process is its own edge, damage falls back to Alive, and keys are unhandled |
| Player.DispatchNormal | Samples/HsmSample/Player.cs:76-81 | on Normal, Process and keys are its own edges and damage falls back to Alive |
| Player.DispatchDead | Samples/HsmSample/Player.cs:82-83 | Dead declares no edge, so every input is unhandled there |
| Player.HandlersConform | Samples/HsmSample/Player.cs:66-86 | every request a handler makes is allowed by its edge, and Normal's target-less handlers request nothing |
| Player.Deliver | Samples/HsmSample/Player.cs:30-63 | damage on Stunned or Normal runs the Alive damage handler; a tick runs Stunned's or Normal's own handler; a key runs the key handler on Normal and is unhandled on Stunned; on Dead nothing is handled |
| Player.HooksConform | Samples/HsmSample/Player.cs:100-158 | every enter and exit hook requests nothing |
| Player.KeysReachNormalOnly | Samples/HsmSample/Player.cs:76-83 | a key reaches the key handler iff the player is Normal |
| Player.VelocityStaysBounded | Samples/HsmSample/Player.cs:130-144 | no sequence of arrow presses pushes the velocity past the movement speed either way |
| Knife.Create | Samples/HsmSample/Knife.cs:20-33 | a new knife shows '-', lies at 45 facing right, has reach 1, damage 10, speed 10 |
| Knife.TakeDamage | Samples/HsmSample/Knife.cs:54-57 | damage leaves a knife unchanged |
| Knife.IdleTokenHook | Samples/HsmSample/Knife.cs:80-88 | entering Idle shows '_', leaving shows '-', and nothing else changes |
| Knife.IdlePickupOn | Samples/HsmSample/Knife.cs:90-93 | a pickup always requests Held |
| Knife.HeldThrowOn | Samples/HsmSample/Knife.cs:135-141 | a throw aims the absolute distance ahead, kept on the board, flies at the speed the way it faces, and requests Thrown; nothing but destination, velocity and facing changes |
| Knife.ThrownProcessOn | Samples/HsmSample/Knife.cs:95-117 | the knife moves, clamped to the board; it requests Idle iff it reaches the board's edge, its destination or a player; it deals three times its damage exactly when it hits a player away from the edge and short of its destination, and nothing otherwise |
| Knife.HeldProcessOn | Samples/HsmSample/Knife.cs:119-133 | a held knife slashes for its damage iff a player is within reach and the fire rate allows it; no request |
| Knife.TopologyWellFormed | Samples/HsmSample/Knife.cs:60-78 | the `StateMachine` topology `Knife.Topology`, Init{Active{Thrown, Held}, Idle}, declares each id once, starts at Idle, every target declared |
| Knife.DispatchLeaf | Samples/HsmSample/Knife.cs:60-78 | every input is handled by the leaf's own edge or not at all: Throw only while Held, Pickup only while Idle |
| Knife.HandlersConform | Samples/HsmSample/Knife.cs:60-78 | every request is allowed by its edge: Pickup asks for Held, Throw for Thrown, a held tick for nothing |
| Knife.Deliver | Samples/HsmSample/Knife.cs:35-51 | a thrown knife handles only ticks, with the flight handler; a held knife handles ticks with the slash handler and throws with the throw handler, not pickups; an idle knife handles only pickups |
| Knife.HooksConform | Samples/HsmSample/Knife.cs:80-88 | the Idle hooks request nothing |
| Knife.ThrowAndLand | Samples/HsmSample/Knife.cs:95-141 | a knife thrown 5 from the start aims at 50 at speed 10, and one tick later is at 55, past its destination, and goes Idle |
| SceneTree.IndexOf | Samples/HsmSample/SceneTree.cs:49-55 | finds the first occurrence of a node in the list |
| SceneTree.RemoveFirst | Samples/HsmSample/SceneTree.cs:49-55 | `List.Remove` drops one occurrence of the node, if any, and keeps every other element |
| SceneTree.RemoveFirstAtIndex | Samples/HsmSample/SceneTree.cs:49-55 | `List.Remove` drops exactly the first occurrence, keeping the order of the rest |
| SceneTree.Without | Samples/HsmSample/SceneTree.cs:107-118 | the nodes not freed, in order |
| SceneTree.Remove | Samples/HsmSample/SceneTree.cs:49-55 | fails iff the owned node is not in the list; otherwise one occurrence goes, the back-reference stays, and no other tree changes |
| SceneTree.Add | Samples/HsmSample/SceneTree.cs:31-44 | answers false and changes nothing iff the node already belongs here; otherwise it detaches the node (failing iff its old tree lacks it), points it here and appends it |
| SceneTree.QueueFree | Samples/HsmSample/SceneTree.cs:57-60 | adds the node to the tree's free set and changes nothing else |
| SceneTree.RemoveFirstNoDup | Samples/HsmSample/SceneTree.cs:49-55 | on a list without duplicates, removing the first occurrence removes the node entirely |
| SceneTree.WithoutAbsent | Samples/HsmSample/SceneTree.cs:107-118 | freeing nodes a list does not hold changes nothing |
| SceneTree.WithoutWithout | Samples/HsmSample/SceneTree.cs:107-118 | freeing two sets one after another is freeing their union |
| SceneTree.WithoutKeepsNoDup | Samples/HsmSample/SceneTree.cs:107-118 | freeing never introduces duplicates |
| SceneTree.RemoveEachIsWithout | Samples/HsmSample/SceneTree.cs:107-118 | on a list without duplicates, removing each queued node once removes exactly those nodes, in whatever order |
| SceneTree.FreeResources | Samples/HsmSample/SceneTree.cs:107-118 | for an enumeration order listing each queued node once, every queued node loses one occurrence and the rest are kept; on a list without duplicates that is the unqueued nodes in order, whatever the order; the free set is kept and no back-reference or other tree changes |
| SceneTree.RemoveEachFrees | Samples/HsmSample/SceneTree.cs:107-118 | removing the queued nodes keeps only nodes of the list, and on a list without duplicates keeps exactly the unqueued ones |
| SceneTree.RemoveEachSubset | Samples/HsmSample/SceneTree.cs:107-118 | removing nodes never adds one |
| SceneTree.RemoveEachMultiset | Samples/HsmSample/SceneTree.cs:107-118 | removing each enumerated node once takes exactly one occurrence of each from the list, duplicates included |
| SceneTree.FreeResourcesPreservesValid | Samples/HsmSample/SceneTree.cs:107-118 | freeing keeps every back-reference consistent with the trees |
| SceneTree.FreeResourcesFreesAll | Samples/HsmSample/SceneTree.cs:107-118 | no queued node is left afterwards, and since the free set is not cleared a second run changes nothing |
| SceneTree.AddPreservesValid | Samples/HsmSample/SceneTree.cs:31-44 | a successful add keeps every back-reference consistent with the trees |
| SceneTree.RemovePreservesValid | Samples/HsmSample/SceneTree.cs:49-55 | removing keeps the world consistent and leaves the node in no tree |
| SceneTree.AttachPreservesValid | Samples/HsmSample/SceneTree.cs:39-43 | attaching a node that is in no tree keeps the world consistent |
| SceneTree.RemovedCannotBeReadded | Samples/HsmSample/SceneTree.cs:34-37 | a removed node cannot be added back to its tree: the stale back-reference makes Add answer false |
| SceneTree.FreedCannotMove | Samples/HsmSample/SceneTree.cs:107-118 | a freed node cannot be added to another tree either, because its old tree's Remove fails |
| SceneTree.OfferAsWritten | Samples/HsmSample/SceneTree.cs:125-135 | the loop stops iff some node asks to terminate, at the first such node; otherwise every node sees the key |
| SceneTree.Offer | Samples/HsmSample/Node.cs:18 | delivery stops at the first node that handles the key or asks to terminate; every earlier node declined it |
| SceneTree.OffersAgreeWithoutHandled | Samples/HsmSample/SceneTree.cs:125-135 | both deliveries agree whenever no node answers Handled |
| SceneTree.HandledDoesNotStopDelivery | Samples/HsmSample/SceneTree.cs:129-130 | two nodes that both handle a key: as written both see it, as documented only the first |
| SceneTree.HandleWorldInput | Samples/HsmSample/SceneTree.cs:120-137 | without a key nothing happens; as written, the key goes to the nodes up to and including the first that asks to terminate, and to every node when none does; the tree terminates iff it already did or some node asks to |
| SceneTree.HandleWorldInputCorrected | Samples/HsmSample/Node.cs:18 | delivery stops at the first node that handles the key or asks to terminate, every earlier node declined it, and the tree terminates iff it already did or that node asked to |
| SceneTree.HandleWorldInputsAgreeWithoutHandled | Samples/HsmSample/SceneTree.cs:125-135 | when no node answers Handled, the loop as written and the corrected one reach the same world and the same nodes |
| SceneTree.HandledThenTerminate | Samples/HsmSample/SceneTree.cs:129-133 | a node that handles Q followed by one that asks to terminate: as written the tree terminates, corrected it does not and only the first node sees the key |
| SceneTree.RayTrace | Samples/HsmSample/SceneTree.cs:146-184 | finds no node iff none is in sight in the direction within the distance; otherwise one in sight that is closest, and earlier ones in sight are strictly farther |
| Renderer.Create | Samples/HsmSample/Renderer.cs:15-16 | the buffer is as wide as the window and holds NUL characters |
| Renderer.Begin | Samples/HsmSample/Renderer.cs:22-28 | every cell becomes a space and the width is kept |
| Renderer.DrawChar | Samples/HsmSample/Renderer.cs:36-43 | a position on the screen gets the character and no other cell changes; a position off the screen changes nothing |
| Renderer.LastAt | Samples/HsmSample/Character.cs:46-52 | the character a cell ends up showing is always drawable |
| Renderer.DrawAll | Samples/HsmSample/Character.cs:46-52 | drawing characters never changes the width |
| Renderer.DrawAllCell | Samples/HsmSample/Character.cs:46-52 | each cell shows the last drawable character placed on it, or what it held before |
| Renderer.Frame | Samples/HsmSample/Renderer.cs:22-43 | after a frame each cell shows the last drawable character placed on it, or a space |
| PromiseRpcSample.New | Samples/PromiseRpcSample/PromiseRpcSampleProgram.cs:88-91 | a new calculator's register is 0 and no existing one changes |
| PromiseRpcSample.Clear | Samples/PromiseRpcSample/PromiseRpcSampleProgram.cs:100-104 | the register becomes 0 and no other calculator changes |
| PromiseRpcSample.Add | Samples/PromiseRpcSample/PromiseRpcSampleProgram.cs:107-111 | the register grows by n and the new value is returned; no other calculator changes |
| PromiseRpcSample.AddCalc | Samples/PromiseRpcSample/PromiseRpcSampleProgram.cs:114-118 | the other calculator's register is added to this one and returned; no other calculator changes |
| PromiseRpcSample.Clone | Samples/PromiseRpcSample/PromiseRpcSampleProgram.cs:121-128 | a new calculator holds the same value and the existing ones are kept |
| PromiseRpcSample.Dispatch | Samples/PromiseRpcSample/PromiseRpcSampleProgram.cs:94-128 | a call fails iff its target, or the calculator passed to AddCalc, does not exist; calculators are never lost |
| PromiseRpcSample.GetReadsBack | Samples/PromiseRpcSample/PromiseRpcSampleProgram.cs:94-97 | `Get` changes no calculator and answers the register: two Gets give the same value, a Get after Add(n) gives what Add returned, and after Clear it gives 0 |
| PromiseRpcSample.Run | Samples/PromiseRpcSample/PromiseRpcSampleProgram.cs:18-49 | a successful run answers one reply per call |
| PromiseRpcSample.CloneIsIndependent | Samples/PromiseRpcSample/PromiseRpcSampleProgram.cs:24-28 | a call made on a clone never changes the original, nor one made on the original the clone |
| PromiseRpcSample.PipelineOrder | Samples/PromiseRpcSample/PromiseRpcSampleProgram.cs:43-49 | calls resolve in issue order: Clear then Add(6) answers 6, Add(6) then Clear answers the old value plus 6 |
| PromiseRpcSample.ClearThenAdd | Samples/PromiseRpcSample/PromiseRpcSampleProgram.cs:43-49 | Clear then Add(6) leaves the register at 6 |
| PromiseRpcSample.AddThenClear | Samples/PromiseRpcSample/PromiseRpcSampleProgram.cs:43-49 | Add(6) then Clear leaves the register at 0 |
| PromiseRpcSample.RunAppend | Samples/PromiseRpcSample/PromiseRpcSampleProgram.cs:18-49 | running two call lists one after the other is running their concatenation |
| PromiseRpcSample.MainEarly | Samples/PromiseRpcSample/PromiseRpcSampleProgram.cs:18-28 | the first half of the script answers 0, 7, 15, a proxy to the clone, and the clone's 15 |
| PromiseRpcSample.MainLate | Samples/PromiseRpcSample/PromiseRpcSampleProgram.cs:29-49 | the second half answers 18, 18, 15, then Clear's completion and 6 |
| PromiseRpcSample.MainScript | Samples/PromiseRpcSample/PromiseRpcSampleProgram.cs:10-54 | the whole script from a fresh calculator prints 0, 7, 15, 15, 18, 18, 15 and then 6 |
| PromiseSample.ComputeFibonacci | Samples/PromiseSample/PromiseSampleProgram.cs:29-37 | no value for a negative argument, on which the recursion never returns; otherwise a number that is never negative and positive from 1 on |
| PromiseSample.Iterative | Samples/PromiseSample/PromiseSampleProgram.cs:29-37 | an independent loop computes the same answer as the recursion for every argument, none for a negative one |
| PromiseSample.Main | Samples/PromiseSample/PromiseSampleProgram.cs:7-24 | the program never finishes iff the number is negative; otherwise it computes that number's Fibonacci value and exits with 0 |
| PromiseCommandLineSample.HelloWorld | Samples/PromiseCommandLineSample/PromiseCommandLineSample.cs:30-43 | prints the message once, or twice when echoing, and exits with 0 |
| PromiseCommandLineSample.ComputeFibonacci | Samples/PromiseCommandLineSample/PromiseCommandLineSample.cs:56-64 | no value for a negative argument, on which the recursion never returns; otherwise a number that is never negative |
| PromiseCommandLineSample.AgreesWithPromiseSample | Samples/PromiseCommandLineSample/PromiseCommandLineSample.cs:56-64 | both samples give the same answer for every argument, negative ones included |
| PromiseCommandLineSample.Fibonacci | Samples/PromiseCommandLineSample/PromiseCommandLineSample.cs:46-54 | the command never finishes iff the number is negative; otherwise it prints the other sample's number and exits with 0 |

## Left out

- The `MarymoorStudios.Core.Fsm` engine is not part of this model: hook ordering, `History` resolution and what entering a composite means. Handlers are modelled as decisions (`SetNext` requests). Conformance is checked against the declared edges. `Hsm.Follow` takes the state a request names as the state the machine rests in, also for a composite without a start state; how the engine enters such a composite is not modelled. The characters' `Deliver` functions answer the handler's reaction without moving to the requested state.
- Hero2.Deliver: a request for Airborne, a composite that declares no start state, is taken to leave the hero resting on Airborne itself; and the reflect `TakeDamage(5)` that Attack sends (Hero2.cs:103) is not delivered.
- Hero2.DeliverMatchesHero: holds only with the two choices of `Hero2.Deliver`; in Hero.cs the reflect damage is commented out (Hero.cs:104), so with it delivered the two heroes would differ after an Attack.
- Hero2.RunMatchesHero: rests on `Hero2.DeliverMatchesHero` and so on the same two choices.
- Hero2.AliveAttack: does not model the re-entrant `TakeDamage(5)` it sends from inside the handler (Hero2.cs:103), because its outcome depends on the engine; the hand-written Hero.cs warns against it.
- Floating-point physics: `Vector2` position, velocity and gravity in the heroes' `Process`, and the enemy, player and knife position arithmetic. These use integers. "Landed", "at a limit" and "hit a player" arrive as facts computed from those integers or as boolean inputs.
- `BucketRateLimiter` is a library type whose code is not part of this model: each `TryTake` answer is a boolean input, and `Reset` is not modelled.
- Enemy.PatrolProcessOn: does not model the weapon (`m_weapon`): carrying, throwing and picking up the knife depend on ray traces over the live scene.
- Player.NormalOnInputOn: the ray trace for an enemy in sight is a boolean input, and the attacked enemy's damage is reported as a number rather than delivered.
- `Renderer`: positions arrive already rounded (`Math.Round` away from zero is not modelled). The console parts of the constructor, `End` and `Dispose` write to the console and are left out.
- The `Run` loops, key reading, `DateTime.Now` timing and the frame loop (`DrawWorldFrame`) are console plumbing. `HsmSampleProgram.cs` and `LinearWorld.cs` only wire objects together.
- `Hero`: the printed lines of its states are not modelled, only its discrete state and health.
- `SceneTree.FreeResources` takes the `HashSet` enumeration order as a parameter, because that order is not specified. The lemmas prove that the result does not depend on it.
- `SceneTree.HandleWorldInput`: the nodes' side effects while handling a key are not modelled; each node's answer is a function of the node and the key.
- `long` overflow in `Calc` and in the Fibonacci functions: integers are unbounded here. So is the 32-bit `int` health, whose wrap-around on subtraction (Hero.cs:109, Hero2.cs:108, Enemy.cs:87, Player.cs:90) the samples' fixed, small damages never reach.
- Lights.Advance: a light's time is an unbounded integer, so the `OverflowException` that `m_time += delta` throws past `TimeSpan.MaxValue` (Blinker2.cs:62 and 71, and the same statement in the later lights) is not modelled.
- PromiseSample.ComputeFibonacci: `None` stands for the endless recursion on a negative argument; the stack exhaustion that ends it in practice is not modelled.
- PromiseSample.Main: takes the already parsed number; a missing or non-numeric argument, on which `long.Parse` (PromiseSampleProgram.cs:19) throws, is not modelled.
- PromiseCommandLineSample.ComputeFibonacci: `None` stands for the endless recursion on a negative argument, as in the other sample.
- PromiseCommandLineSample.Fibonacci: takes the number the command-line parser has already bound; parse failures are not modelled, and a negative number gives `None`.
- The RPC, network, Steam, identity, cross-version and serialization samples are async transport plumbing over library code that is not part of this model. `Calc`'s proxies are dispatched directly, in issue order.

## Findings

| source | as written | input that shows it | evidently intended | confidence | as-written member | corrected member |
|---|---|---|---|---|---|---|
| Samples/HsmSample/Hero.cs:266-273 | `Jump` asserts that the state moved Ground to Airborne, Airborne to Flying or Flying to Airborne, but Downed's Jump (Hero.cs:201-204) is a no-op | pressing Up while the hero is Downed | the assertion also admits Downed staying Downed, as the other wrappers admit keeping the state | high, not executed | Hero.JumpInput (shown by Hero.JumpWhenDownedFails) | Hero.JumpInputCorrected (proved by Hero.RunNeverFails) |
| Samples/HsmSample/SceneTree.cs:125-135 | `break` on Handled leaves only the `switch`, so the `foreach` goes on offering the key | two nodes that both answer Handled: both see the key | Handled stops delivery, as the doc of `InputOutcome.Handled` (Node.cs:18) says no further objects should see the input | medium, not executed | SceneTree.HandleWorldInput (shown by SceneTree.HandledThenTerminate and SceneTree.HandledDoesNotStopDelivery) | SceneTree.HandleWorldInputCorrected (related by SceneTree.HandleWorldInputsAgreeWithoutHandled) |
