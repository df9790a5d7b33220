/**
 What one tick and a run of ticks promise: the landing edge fires once,
 the stage order is observable, the jump budget stays in [-1, maxJumps],
 and a wall slide re-arms the landing edge for the next tick.
 */
module PlayerProperties {
  import opened Player
  import opened Simulation

  /** An input that touches no wall, so the wall-slide stage stays idle. */
  predicate AwayFromWalls(input: Input) {
    !input.onLeftWall && !input.onRightWall
  }

  /** The budget after the landing stage. */
  function BudgetAfterLanding(cfg: Config, s: State): int {
    if s.jumpState == Landed then cfg.maxJumps else s.jumpsAvailable
  }

  // ---------------------------------------------------------------------
  // The landing edge

  /** Collapsing the edge is idempotent: a second landing stage on the
      result does nothing and asks for no dust. */
  lemma LandingIsOneShot(cfg: Config, s: State)
    ensures var once := HandleLanding(cfg, s).state;
            HandleLanding(cfg, once) == Outcome(once, [])
  {
  }

  /** A tick ends `Landed` exactly when its wall-slide stage engaged, and
      then it has asked for slide dust. */
  lemma StepEndsLandedIffSlide(cfg: Config, s: State, input: Input)
    ensures var o := Step(cfg, true, s, input);
            o.state.jumpState == Landed <==> SlideDust in o.effects
  {
  }

  /** Without a new edge the landing does not fire again: after a tick that
      did not end `Landed`, a tick on which the probe reports no new landing
      asks for no landing dust and does not refill the budget. */
  lemma NoRefireWithoutNewEdge(cfg: Config, s: State, input: Input, next: Frame)
    requires next.contact.Unchanged? || next.contact.ground != Landed
    ensures var o := Step(cfg, true, s, input);
            o.state.jumpState != Landed ==>
              var o2 := Step(cfg, true, Observe(o.state, next), next.input);
              LandingDust !in o2.effects
              && o2.state.jumpsAvailable <= o.state.jumpsAvailable
  {
  }

  /** A wall slide re-arms the edge: on the tick after one that slid, with
      nothing new from the probe, the budget refills and landing dust comes
      first. */
  lemma WallslideRearmsLanding(cfg: Config, s: State, input: Input, next: Frame)
    requires next.contact == Unchanged
    requires SlideDust in Step(cfg, true, s, input).effects
    ensures var o := Step(cfg, true, s, input);
            var o2 := Step(cfg, true, Observe(o.state, next), next.input);
            o2.effects[0] == LandingDust
            && (!next.input.jumpPressed ==> o2.state.jumpsAvailable == cfg.maxJumps)
  {
  }

  /** Counting requests distributes over concatenation. */
  lemma {:induction false} CountDustAppend(kind: Dust, a: seq<Dust>, b: seq<Dust>)
    ensures CountDust(kind, a + b) == CountDust(kind, a) + CountDust(kind, b)
    decreases |a|
  {
    if a != [] {
      assert (a + b)[1..] == a[1..] + b;
      CountDustAppend(kind, a[1..], b);
    } else {
      assert a + b == b;
    }
  }

  /** With authority, one tick asks for landing dust once if it starts on the
      landing edge and not at all otherwise. */
  lemma StepLandingDustCount(cfg: Config, s: State, input: Input)
    ensures CountDust(LandingDust, Step(cfg, true, s, input).effects) ==
              if s.jumpState == Landed then 1 else 0
  {
    var landing := HandleLanding(cfg, s);
    var jumped := HandleJump(cfg, landing.state, input);
    var slide := HandleWallslide(cfg, jumped, input);
    CountDustAppend(LandingDust, landing.effects, slide.effects);
  }

  /** Over a whole run the landing dust is requested exactly once per
      landing edge a tick starts from, never more. */
  lemma {:induction false} RunLandingDustPerEdge(cfg: Config, s: State, frames: seq<Frame>)
    ensures CountDust(LandingDust, Run(cfg, true, s, frames).effects) ==
              LandingEdges(TickStarts(cfg, true, s, frames))
    decreases |frames|
  {
    if frames != [] {
      var start := Observe(s, frames[0]);
      var first := Step(cfg, true, start, frames[0].input);
      var rest := Run(cfg, true, first.state, frames[1..]);
      StepLandingDustCount(cfg, start, frames[0].input);
      CountDustAppend(LandingDust, first.effects, rest.effects);
      RunLandingDustPerEdge(cfg, first.state, frames[1..]);
      var starts := TickStarts(cfg, true, s, frames);
      assert starts[1..] == TickStarts(cfg, true, first.state, frames[1..]);
    }
  }

  // ---------------------------------------------------------------------
  // Stage order

  /** The same stages with jump run before landing. */
  function StepJumpFirst(cfg: Config, s: State, input: Input): Outcome {
    var jumped := HandleJump(cfg, s, input);
    var landing := HandleLanding(cfg, jumped);
    var slide := HandleWallslide(cfg, landing.state, input);
    Outcome(HandleMovement(cfg, slide.state, input), landing.effects + slide.effects)
  }

  /** Landing runs before jump: a tick that starts `Landed` with the button
      pressed refills the budget and then spends one jump from it, through
      the single-decrement path. The upward speed is the jump speed, floored
      at the slide speed when the jump is too slow to escape a wall slide. */
  lemma LandingBeforeJump(cfg: Config, s: State, input: Input)
    requires s.jumpState == Landed && input.jumpPressed
    ensures var o := Step(cfg, true, s, input);
            && (cfg.maxJumps > 0 ==> o.state.jumpsAvailable == cfg.maxJumps - 1)
            && (cfg.maxJumps <= 0 ==> o.state.jumpsAvailable == cfg.maxJumps)
            && (cfg.maxJumps > 0 ==>
                  var slides := PushingIntoWall(input) && cfg.jumpSpeed < cfg.wallslideTriggerSpeed;
                  && o.state.velocity.y ==
                       (if slides then Max(cfg.jumpSpeed, cfg.wallslideSpeed) else cfg.jumpSpeed)
                  && o.state.jumpState == (if slides then Landed else OnGround))
  {
  }

  /** The order is observable: jumping before landing would spend the jump
      and then refill it, leaving the budget full. */
  lemma OrderIsObservable(cfg: Config, s: State, input: Input)
    requires s.jumpState == Landed && input.jumpPressed
    requires s.jumpsAvailable > 0 && cfg.maxJumps > 0
    ensures Step(cfg, true, s, input).state.jumpsAvailable == cfg.maxJumps - 1
    ensures StepJumpFirst(cfg, s, input).state.jumpsAvailable == cfg.maxJumps
  {
  }

  /** The movement stage forgets the horizontal velocity it is given and is
      idempotent: applying it again changes nothing. */
  lemma MovementOverwritesHorizontal(cfg: Config, s: State, input: Input, vx: real)
    ensures HandleMovement(cfg, s.(velocity := Velocity(vx, s.velocity.y)), input) ==
              HandleMovement(cfg, s, input)
    ensures HandleMovement(cfg, HandleMovement(cfg, s, input), input) == HandleMovement(cfg, s, input)
  {
  }

  // ---------------------------------------------------------------------
  // The jump budget

  /** From a budget in [0, maxJumps] the jump stage leaves it in
      [-1, maxJumps]; there is no clamp at zero. */
  lemma JumpStageBound(cfg: Config, s: State, input: Input)
    requires 0 <= s.jumpsAvailable <= cfg.maxJumps
    ensures WithinBudget(cfg, HandleJump(cfg, s, input))
  {
  }

  /** The bound is tight: one jump left while falling ends at -1. */
  lemma FallingJumpReachesMinusOne(cfg: Config, v: Velocity, input: Input)
    requires input.jumpPressed
    ensures var o := Step(cfg, true, State(Falling, 1, v), input);
            o.state.jumpsAvailable == -1
  {
  }

  /** The budget after a whole tick: refilled if the tick started `Landed`,
      then less one for a press with budget left, less two if the tick
      started `Falling`. */
  lemma StepBudget(cfg: Config, s: State, input: Input)
    ensures var j := BudgetAfterLanding(cfg, s);
            Step(cfg, true, s, input).state.jumpsAvailable ==
              if input.jumpPressed && j > 0 then j - (if s.jumpState == Falling then 2 else 1) else j
  {
  }

  /** An exhausted budget (zero, or the -1 a falling jump can leave) makes a
      press do nothing: outside a landing edge the budget stays put and the
      vertical velocity is whatever the wall-slide stage makes of it. */
  lemma ExhaustedBudgetIgnoresPress(cfg: Config, s: State, input: Input)
    requires s.jumpState != Landed && s.jumpsAvailable <= 0
    ensures var o := Step(cfg, true, s, input);
            && o.state.jumpsAvailable == s.jumpsAvailable
            && o.state.velocity.y ==
                 (if SlideEngages(cfg, s, input) then Max(s.velocity.y, cfg.wallslideSpeed)
                  else s.velocity.y)
  {
  }

  /** One tick keeps the budget in [-1, maxJumps] whatever its input. */
  lemma StepPreservesBudget(cfg: Config, authority: bool, s: State, input: Input)
    requires WithinBudget(cfg, s)
    ensures WithinBudget(cfg, Step(cfg, authority, s, input).state)
  {
  }

  /** Any run of ticks keeps the budget in [-1, maxJumps], whatever the
      probe and the physics do between ticks. */
  lemma {:induction false} RunPreservesBudget(cfg: Config, authority: bool, s: State, frames: seq<Frame>)
    requires WithinBudget(cfg, s)
    ensures WithinBudget(cfg, Run(cfg, authority, s, frames).state)
    decreases |frames|
  {
    if frames != [] {
      var start := Observe(s, frames[0]);
      StepPreservesBudget(cfg, authority, start, frames[0].input);
      var first := Step(cfg, authority, start, frames[0].input);
      RunPreservesBudget(cfg, authority, first.state, frames[1..]);
    }
  }

  /** A freshly spawned character, run for any number of ticks, never
      leaves [-1, maxJumps]. */
  lemma SpawnedRunStaysInBudget(cfg: Config, authority: bool, ground: JumpState, v: Velocity, frames: seq<Frame>)
    requires cfg.maxJumps >= -1
    ensures WithinBudget(cfg, Run(cfg, authority, Spawn(cfg, ground, v), frames).state)
  {
    RunPreservesBudget(cfg, authority, Spawn(cfg, ground, v), frames);
  }

  // ---------------------------------------------------------------------
  // Scenarios

  /** Double jump with the shipped budget of two (`Defaults`): a press on the
      ground and a press in the air each set the jump speed and spend one
      jump; a third press does nothing. */
  lemma DoubleJumpScenario(cfg: Config, v: Velocity, input: Input)
    requires cfg.maxJumps == Defaults.maxJumps && input.jumpPressed && AwayFromWalls(input)
    ensures var t1 := Step(cfg, true, Spawn(cfg, OnGround, v), input).state;
            var t2 := Step(cfg, true, t1.(jumpState := InAir), input).state;
            var t3 := Step(cfg, true, t2, input).state;
            && t1.jumpsAvailable == 1 && t1.velocity.y == cfg.jumpSpeed
            && t2.jumpsAvailable == 0 && t2.velocity.y == cfg.jumpSpeed
            && t3.jumpsAvailable == 0 && t3.velocity.y == t2.velocity.y
  {
  }

  /** A press while the probe reports a fall spends two jumps in that tick
      and forces the state to `InAir`. */
  lemma FallingJumpScenario(cfg: Config, v: Velocity, input: Input)
    requires input.jumpPressed && AwayFromWalls(input)
    ensures var o := Step(cfg, true, State(Falling, 2, v), input);
            o.state.jumpsAvailable == 0 && o.state.jumpState == InAir
            && o.state.velocity.y == cfg.jumpSpeed && o.effects == []
  {
  }
}
