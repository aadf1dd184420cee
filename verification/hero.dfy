/** Hero.cs: `HeroHsm`, a hand-written hierarchical state machine. Each state is a class; the Alive
    behaviour is inherited by Ground and Airborne, and Flying overrides only Airborne's Jump. Each public
    input method runs the current state's override and then asserts which transitions it may make. The
    vector physics is abstracted: whether the hero has landed is an input of `Process`. */
module Hero {
  import opened Wrappers

  /** The four concrete state classes. */
  datatype State = Ground | Airborne | Flying | Downed
  {
    /** Ground, Airborne and Flying derive from `AliveState`. */
    predicate IsAlive()
    {
      this != Downed
    }
  }

  /** The discrete part of `HeroHsm`: `m_current` and `m_health`. */
  datatype HeroHsm = HeroHsm(current: State, health: int)

  /** The outcome of an input: the hero afterwards, and the damage dealt to the attacked enemy. */
  datatype Outcome = Outcome(hero: HeroHsm, dealt: int)

  /** The inputs the Run loop sends; `landed` stands for `m_position.Y == 0` after the move in `Process`. */
  datatype Input = Attack | TakeDamage(damage: int) | Jump | Slide | Process(landed: bool)

  /** `s_attackDamage`. */
  const AttackDamage := 10

  /** The initial `m_health`. */
  const InitialHealth := 20

  /** The damage the Run loop's Left arrow sends. */
  const KeyDamage := 10

  /** A new hero: `m_current = State.Ground`, `m_health = 20`. */
  function Init(): (h: HeroHsm)
    ensures h.current == Ground && h.health == InitialHealth
  {
    HeroHsm(Ground, InitialHealth)
  }

  /** `States.Attack`: an alive hero damages the enemy by `s_attackDamage`; Downed does nothing. */
  function StateAttack(h: HeroHsm): (r: Outcome)
    ensures r.hero == h
    ensures r.dealt == (if h.current.IsAlive() then AttackDamage else 0)
  {
    if h.current == Downed then Outcome(h, 0) else Outcome(h, AttackDamage)
  }

  /** `States.TakeDamage`: an alive hero loses `damage` hit points (no clamping) and becomes Downed once
      its health is not positive; Downed ignores the damage. */
  function StateTakeDamage(h: HeroHsm, damage: int): (r: HeroHsm)
    ensures h.current.IsAlive() ==> r.health == h.health - damage
    ensures h.current.IsAlive() ==> (r.current == Downed <==> h.health - damage <= 0)
    ensures h.current.IsAlive() && h.health - damage > 0 ==> r.current == h.current
    ensures h.current == Downed ==> r == h
  {
    if h.current == Downed then h
    else
      var health := h.health - damage;
      HeroHsm(if health <= 0 then Downed else h.current, health)
  }

  /** `States.Jump`: Ground jumps to Airborne, Airborne to Flying, Flying (overriding Airborne) falls back to
      Airborne, and Downed does nothing. */
  function StateJump(h: HeroHsm): (r: HeroHsm)
    ensures r.health == h.health
  {
    match h.current
    case Ground => h.(current := Airborne)
    case Airborne => h.(current := Flying)
    case Flying => h.(current := Airborne)
    case Downed => h
  }

  /** `States.Slide`: only the position changes (on Ground), so the discrete state never does. */
  function StateSlide(h: HeroHsm): (r: HeroHsm)
    ensures r == h
  {
    h
  }

  /** `States.Process`: an alive hero that has landed goes to Ground; Downed only prints. */
  function StateProcess(h: HeroHsm, landed: bool): (r: HeroHsm)
    ensures r.health == h.health
    ensures r.current == (if h.current.IsAlive() && landed then Ground else h.current)
  {
    if h.current.IsAlive() && landed then h.(current := Ground) else h
  }

  /** The assertion in `HeroHsm.Jump`. */
  predicate JumpAsserted(self: State, next: State)
  {
    || (self == Ground && next == Airborne)
    || (self == Airborne && next == Flying)
    || (self == Flying && next == Airborne)
  }

  /** `HeroHsm.Attack`: the state's Attack, then `Contract.Assert(m_current == self)`. */
  function AttackInput(h: HeroHsm): (r: Result<Outcome, string>)
    ensures r.Success? && r.value == StateAttack(h)
  {
    var o := StateAttack(h);
    if o.hero.current == h.current then Success(o) else Failure("Attack")
  }

  /** `HeroHsm.TakeDamage`: the state's TakeDamage, then the assertion that the state is kept or Downed. */
  function TakeDamageInput(h: HeroHsm, damage: int): (r: Result<HeroHsm, string>)
    ensures r.Success? && r.value == StateTakeDamage(h, damage)
  {
    var n := StateTakeDamage(h, damage);
    if n.current == h.current || n.current == Downed then Success(n) else Failure("TakeDamage")
  }

  /** `HeroHsm.Jump` as written: the assertion admits only the three moves, so a Downed hero, whose Jump
      does nothing, fails it. */
  function JumpInput(h: HeroHsm): (r: Result<HeroHsm, string>)
    ensures r.Success? <==> h.current.IsAlive()
    ensures r.Success? ==> r.value == StateJump(h)
  {
    var n := StateJump(h);
    if JumpAsserted(h.current, n.current) then Success(n) else Failure("Jump")
  }

  /** `HeroHsm.Jump` with the assertion also admitting Downed staying Downed. */
  function JumpInputCorrected(h: HeroHsm): (r: Result<HeroHsm, string>)
    ensures r.Success? && r.value == StateJump(h)
  {
    var n := StateJump(h);
    if JumpAsserted(h.current, n.current) || (h.current == Downed && n.current == Downed) then Success(n)
    else Failure("Jump")
  }

  /** `HeroHsm.Slide`: the state's Slide, then the assertion that the state is kept or Downed. */
  function SlideInput(h: HeroHsm): (r: Result<HeroHsm, string>)
    ensures r.Success? && r.value == h
  {
    var n := StateSlide(h);
    if n.current == h.current || n.current == Downed then Success(n) else Failure("Slide")
  }

  /** `HeroHsm.Process`: the state's Process, then the assertion that the state is kept or Ground. */
  function ProcessInput(h: HeroHsm, landed: bool): (r: Result<HeroHsm, string>)
    ensures r.Success? && r.value == StateProcess(h, landed)
  {
    var n := StateProcess(h, landed);
    if n.current == h.current || n.current == Ground then Success(n) else Failure("Process")
  }

  /** A counterexample to the Jump assertion: pressing Up once the hero is Downed. */
  lemma JumpWhenDownedFails(health: int)
    ensures JumpInput(HeroHsm(Downed, health)).Failure?
    ensures StateJump(HeroHsm(Downed, health)) == HeroHsm(Downed, health)
  {
  }

  /** Jump moves Ground to Airborne, Airborne to Flying and Flying back to Airborne, exactly the moves its
      assertion lists; with the corrected assertion Downed stays Downed. */
  lemma JumpTransitions(h: HeroHsm)
    ensures h.current.IsAlive() ==> JumpAsserted(h.current, StateJump(h).current)
    ensures h.current == Ground ==> StateJump(h).current == Airborne
    ensures h.current == Airborne ==> StateJump(h).current == Flying
    ensures h.current == Flying ==> StateJump(h).current == Airborne
    ensures h.current == Downed ==> JumpInputCorrected(h) == Success(h)
  {
  }

  /** One input through the asserting wrappers (with the corrected Jump assertion). */
  function Step(h: HeroHsm, i: Input): (r: Result<Outcome, string>)
    ensures r.Success?
  {
    match i
    case Attack => AttackInput(h)
    case TakeDamage(damage) =>
      (match TakeDamageInput(h, damage) case Success(n) => Success(Outcome(n, 0)) case Failure(e) => Failure(e))
    case Jump =>
      (match JumpInputCorrected(h) case Success(n) => Success(Outcome(n, 0)) case Failure(e) => Failure(e))
    case Slide =>
      (match SlideInput(h) case Success(n) => Success(Outcome(n, 0)) case Failure(e) => Failure(e))
    case Process(landed) =>
      (match ProcessInput(h, landed) case Success(n) => Success(Outcome(n, 0)) case Failure(e) => Failure(e))
  }

  /** A sequence of inputs: the final hero, or the first assertion that failed. */
  function Run(h: HeroHsm, inputs: seq<Input>): Result<HeroHsm, string>
    decreases |inputs|
  {
    if inputs == [] then Success(h)
    else match Step(h, inputs[0])
      case Success(o) => Run(o.hero, inputs[1..])
      case Failure(e) => Failure(e)
  }

  /** No assertion fails on any input sequence once Jump's assertion admits Downed. */
  lemma {:induction false} RunNeverFails(h: HeroHsm, inputs: seq<Input>)
    ensures Run(h, inputs).Success?
    decreases |inputs|
  {
    if inputs != [] {
      RunNeverFails(Step(h, inputs[0]).value.hero, inputs[1..]);
    }
  }

  /** Attack and Slide never change the discrete state; only Jump, TakeDamage and Process move the hero. */
  lemma AttackAndSlideKeepState(h: HeroHsm)
    ensures Step(h, Attack).value.hero == h
    ensures Step(h, Slide).value.hero == h
  {
  }

  /** Downed is absorbing: whatever the inputs, a Downed hero stays Downed with its health unchanged. */
  lemma {:induction false} DownedAbsorbing(h: HeroHsm, inputs: seq<Input>)
    requires h.current == Downed
    ensures Run(h, inputs) == Success(h)
    decreases |inputs|
  {
    if inputs != [] {
      assert Step(h, inputs[0]).value.hero == h;
      DownedAbsorbing(h, inputs[1..]);
    }
  }

  /** Health never rises: every input keeps it or lowers it by a non-negative damage. */
  lemma {:induction false} HealthNeverRises(h: HeroHsm, inputs: seq<Input>)
    requires forall k :: 0 <= k < |inputs| && inputs[k].TakeDamage? ==> inputs[k].damage >= 0
    ensures Run(h, inputs).Success? && Run(h, inputs).value.health <= h.health
    decreases |inputs|
  {
    if inputs != [] {
      var n := Step(h, inputs[0]).value.hero;
      assert n.health <= h.health;
      HealthNeverRises(n, inputs[1..]);
    }
  }

  /** From the start, two presses of the Left arrow (`TakeDamage(10)`) put the hero down. */
  lemma TwoHitsDown()
    ensures Run(Init(), [TakeDamage(KeyDamage), TakeDamage(KeyDamage)]) == Success(HeroHsm(Downed, 0))
  {
    var inputs := [TakeDamage(KeyDamage), TakeDamage(KeyDamage)];
    var once := Step(Init(), TakeDamage(KeyDamage)).value.hero;
    assert once == HeroHsm(Ground, 10);
    var twice := Step(once, TakeDamage(KeyDamage)).value.hero;
    assert twice == HeroHsm(Downed, 0);
    assert inputs[1..][1..] == [];
    assert Run(twice, inputs[1..][1..]) == Success(twice);
    assert Run(once, inputs[1..]) == Success(twice);
  }
}
