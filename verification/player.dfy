/**
 The per-frame controller of a networked platform-game character: the
 ground-contact state machine, the jump budget, wall-sliding and horizontal
 movement, run in four stages inside one authority-gated tick.

 Velocities and tuning values are `real` (no float rounding); the jump
 budget is an unbounded `int` and is never clamped.
 */
module Player {

  /** Ground-contact classification reported by the ground probe.
      `Landed` is a one-shot edge that the landing stage collapses to `OnGround`. */
  datatype JumpState = OnGround | InAir | Falling | Landed

  /** Per-instance tuning, fixed after construction and never validated. */
  datatype Config = Config(
    movementSpeed: real,
    jumpSpeed: real,
    maxJumps: int,
    wallslideTriggerSpeed: real,  // upward speed below which a wall contact starts sliding
    wallslideSpeed: real          // floor on vertical velocity while sliding (a downward speed)
  )

  /** The tuning values the character ships with: the serialized field
      initializers of Player.cs lines 9-14. */
  const Defaults := Config(7.0, 7.0, 2, 0.1, -0.1)

  datatype Velocity = Velocity(x: real, y: real)

  /** What a tick reads and rewrites: the ground probe's state, the jump
      budget and the rigid body's velocity. */
  datatype State = State(jumpState: JumpState, jumpsAvailable: int, velocity: Velocity)

  /** One tick's input: the raw horizontal axis (every read of it within one
      tick sees the same value), the jump button's press edge, and the two
      wall probes. */
  datatype Input = Input(axis: real, jumpPressed: bool, onLeftWall: bool, onRightWall: bool)

  /** A request to play the dust particles, tagged with the stage that asked. */
  datatype Dust = LandingDust | SlideDust

  datatype Outcome = Outcome(state: State, effects: seq<Dust>)

  function Max(a: real, b: real): real {
    if a < b then b else a
  }

  /** The character pushes into a wall it touches: left into the left wall
      or right into the right wall. */
  predicate PushingIntoWall(input: Input) {
    (input.onLeftWall && input.axis < 0.0) || (input.onRightWall && input.axis > 0.0)
  }

  /** A wall slide starts this stage: pushing into a wall while not rising
      at or above the trigger speed. */
  predicate SlideEngages(cfg: Config, s: State, input: Input) {
    PushingIntoWall(input) && s.velocity.y < cfg.wallslideTriggerSpeed
  }

  /** A jump happens this stage: the button was pressed and budget is left. */
  predicate JumpFires(s: State, input: Input) {
    s.jumpsAvailable > 0 && input.jumpPressed
  }

  /** The range the jump budget really keeps: a full budget at most, and one
      below zero at least, because a falling jump spends two jumps without
      clamping. */
  predicate WithinBudget(cfg: Config, s: State) {
    -1 <= s.jumpsAvailable <= cfg.maxJumps
  }

  /** The state at spawn: the budget starts full; the probe's initial
      classification and the body's initial velocity come from outside. */
  function Spawn(cfg: Config, ground: JumpState, velocity: Velocity): (s: State)
    ensures s.jumpsAvailable == cfg.maxJumps
    ensures s.jumpState == ground && s.velocity == velocity
  {
    State(ground, cfg.maxJumps, velocity)
  }

  /** Stage 1: consume the one-shot landing edge. */
  function HandleLanding(cfg: Config, s: State): (o: Outcome)
    ensures o.state.jumpState != Landed
    ensures o.state.velocity == s.velocity
    ensures |o.effects| == 1 <==> s.jumpState == Landed
    ensures s.jumpState == Landed ==>
              o.effects == [LandingDust] && o.state.jumpState == OnGround
              && o.state.jumpsAvailable == cfg.maxJumps
    ensures s.jumpState != Landed ==> o == Outcome(s, [])
  {
    if s.jumpState == Landed then
      Outcome(State(OnGround, cfg.maxJumps, s.velocity), [LandingDust])
    else
      Outcome(s, [])
  }

  /** Stage 2: a pressed jump with budget left sets the upward speed and
      spends one jump, two when the probe reports a fall (which it then
      forces to `InAir`). */
  function HandleJump(cfg: Config, s: State, input: Input): (r: State)
    ensures !JumpFires(s, input) ==> r == s
    ensures JumpFires(s, input) ==>
              r.velocity == Velocity(s.velocity.x, cfg.jumpSpeed)
              && r.jumpsAvailable == s.jumpsAvailable - (if s.jumpState == Falling then 2 else 1)
              && r.jumpState == (if s.jumpState == Falling then InAir else s.jumpState)
    ensures r.jumpState != Falling || r == s
    ensures r.jumpsAvailable <= s.jumpsAvailable
    ensures 0 <= s.jumpsAvailable ==> -1 <= r.jumpsAvailable
  {
    if s.jumpsAvailable <= 0 then s
    else if input.jumpPressed then
      var jumped := State(s.jumpState, s.jumpsAvailable - 1, Velocity(s.velocity.x, cfg.jumpSpeed));
      if jumped.jumpState == Falling then
        jumped.(jumpsAvailable := jumped.jumpsAvailable - 1, jumpState := InAir)
      else
        jumped
    else s
  }

  /** Stage 3: pushing into a touched wall while not rising fast re-arms the
      landing edge, asks for dust and floors the vertical velocity. */
  function HandleWallslide(cfg: Config, s: State, input: Input): (o: Outcome)
    ensures o.state.jumpsAvailable == s.jumpsAvailable
    ensures o.state.velocity.x == s.velocity.x
    ensures o.state.velocity.y >= s.velocity.y
    ensures SlideEngages(cfg, s, input) ==>
              o.state.jumpState == Landed && o.effects == [SlideDust]
              && o.state.velocity.y == Max(s.velocity.y, cfg.wallslideSpeed)
    ensures !SlideEngages(cfg, s, input) ==> o == Outcome(s, [])
  {
    if (input.onLeftWall && input.axis < 0.0) || (input.onRightWall && input.axis > 0.0) then
      if s.velocity.y < cfg.wallslideTriggerSpeed then
        var landed := s.(jumpState := Landed);
        if landed.velocity.y < cfg.wallslideSpeed then
          Outcome(landed.(velocity := Velocity(landed.velocity.x, cfg.wallslideSpeed)), [SlideDust])
        else
          Outcome(landed, [SlideDust])
      else
        Outcome(s, [])
    else
      Outcome(s, [])
  }

  /** Stage 4: horizontal velocity comes from the input axis alone. */
  function HandleMovement(cfg: Config, s: State, input: Input): (r: State)
    ensures r.velocity.x == input.axis * cfg.movementSpeed
    ensures r.velocity.y == s.velocity.y
    ensures r.jumpState == s.jumpState && r.jumpsAvailable == s.jumpsAvailable
  {
    s.(velocity := Velocity(input.axis * cfg.movementSpeed, s.velocity.y))
  }

  /** One frame: without authority nothing runs; with it the four stages run
      in the order landing, jump, wall-slide, movement, each reading what the
      previous one wrote. */
  function Step(cfg: Config, authority: bool, s: State, input: Input): (o: Outcome)
    ensures !authority ==> o == Outcome(s, [])
    ensures authority ==> o.state.velocity.x == input.axis * cfg.movementSpeed
    ensures authority ==> (LandingDust in o.effects <==> s.jumpState == Landed)
    ensures |o.effects| <= 2
  {
    if !authority then
      Outcome(s, [])
    else
      var landing := HandleLanding(cfg, s);
      var jumped := HandleJump(cfg, landing.state, input);
      var slide := HandleWallslide(cfg, jumped, input);
      var moved := HandleMovement(cfg, slide.state, input);
      Outcome(moved, landing.effects + slide.effects)
  }
}
