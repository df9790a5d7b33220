# Player movement and jump-state controller

A Dafny model of the per-frame logic of the `Player` component of a small
networked 2D platformer (Unity with Mirror networking). Each frame, an
instance that has authority over its character runs four stages in a fixed
order:

1. **landing** consumes the one-shot `LANDED` ground state. It refills the
   jump budget, asks for dust particles and collapses the state to `ONGROUND`.
2. **jump** handles a jump press when budget is left. It sets the upward
   speed and spends one jump. If the ground probe reports `FALLING`, it
   spends a second jump and forces the state to `INAIR`.
3. **wall-slide** engages when the character pushes into a wall it touches
   and is not rising fast. It re-arms `LANDED`, asks for dust and floors the
   vertical velocity at `wallslideSpeed`.
4. **movement** sets horizontal velocity from the input axis.

An instance without authority runs none of them.

The model is functional. `Player.Step(cfg, authority, state, input)` returns
the new state together with the dust requests the tick made, as a sequence
of `LandingDust` / `SlideDust`. Each stage is its own function, and `Step`
composes them in the source order. `Simulation.Run` strings ticks together.
Between ticks the environment acts: the physics integrator hands back a
velocity, and the ground probe may reclassify contact (`Frame.contact`).

Files:
- `player.dfy` (module `Player`): the jump state, configuration, state,
  input, the four stages, `Step` and `Spawn`.
- `simulation.dfy` (module `Simulation`): the between-tick environment and
  multi-tick runs.
- `properties.dfy` (module `PlayerProperties`): lemmas about single ticks,
  stage order, the jump budget and scenarios.

The code does no clamping and no validation, and the model follows it:
- The code never clamps the horizontal axis to [-1, 1]. Movement uses
  `axis * movementSpeed` as read.
- The code never clamps `jumpsAvailable` at 0. A jump while `FALLING` with
  one jump left ends at -1. The invariant that holds is
  `-1 <= jumpsAvailable <= maxJumps` (`WithinBudget`), not `[0, maxJumps]`.
  The -1 behaves like 0, because the jump guard is `jumpsAvailable <= 0`
  (`ExhaustedBudgetIgnoresPress`).
- Tuning values are not validated at construction. `Config` accepts any
  values. The budget invariant holds for any `maxJumps >= -1`, which is
  what `WithinBudget` itself implies.

## Model

| member | source | states |
|---|---|---|
| Player.Spawn | Assets/Scripts/Player.cs:31-34 | a newly started character has a full budget: `jumpsAvailable == maxJumps` |
| Player.HandleLanding | Assets/Scripts/Player.cs:73-81 | after landing the state is never `Landed` and velocity is unchanged; exactly one dust request is made iff the state was `Landed`, and then the budget is `maxJumps` and the state `OnGround`; otherwise the stage is the identity |
| Player.HandleJump | Assets/Scripts/Player.cs:88-102 | without a press or with budget `<= 0`, nothing changes; otherwise vy becomes `jumpSpeed` with vx kept, and the budget drops by 1, or by 2 with the state forced to `InAir` when it was `Falling`; the budget never grows, and from a non-negative budget it stays `>= -1` |
| Player.HandleWallslide | Assets/Scripts/Player.cs:104-117 | engages exactly when pushing into a touched wall with vy below the trigger speed; when engaged the state is `Landed`, one slide dust is requested and vy becomes `max(vy, wallslideSpeed)`; vx and the budget never change, vy never drops; when not engaged nothing changes |
| Player.HandleMovement | Assets/Scripts/Player.cs:83-86 | vx becomes `axis * movementSpeed`; vy, the jump state and the budget are kept |
| Player.Step | Assets/Scripts/Player.cs:62-71 | without authority the tick changes nothing and requests nothing; with authority vx is `axis * movementSpeed`, landing dust is requested iff the tick started `Landed`, and at most two dust requests are made |
| Simulation.Observe | Assets/Scripts/Player.cs:131-137 | between ticks the budget is untouched, velocity is the integrator's, and the ground state is the probe's new classification or else what the controller last wrote |
| Simulation.Run | Assets/Scripts/Player.cs:61-71 | a run of n frames makes at most 2n dust requests; without authority it makes none and leaves the budget alone |
| PlayerProperties.LandingIsOneShot | Assets/Scripts/Player.cs:73-80 | a second landing stage after the first is the identity and requests no dust |
| PlayerProperties.StepEndsLandedIffSlide | Assets/Scripts/Player.cs:104-110 | a tick ends `Landed` if and only if it requested slide dust |
| PlayerProperties.NoRefireWithoutNewEdge | Assets/Scripts/Player.cs:73-80 | after a tick that did not end `Landed`, a tick on which the probe reports no new `Landed` requests no landing dust and does not refill the budget |
| PlayerProperties.StepLandingDustCount | Assets/Scripts/Player.cs:73-81 | a tick with authority requests landing dust exactly once if it starts `Landed` and never otherwise |
| PlayerProperties.RunLandingDustPerEdge | Assets/Scripts/Player.cs:62-81 | over any run, the number of landing dust requests equals the number of ticks that start on the landing edge |
| PlayerProperties.WallslideRearmsLanding | Assets/Scripts/Player.cs:104-110 | after a tick that requested slide dust, the next tick (no new probe classification) requests landing dust first and, without a press, ends with a full budget |
| PlayerProperties.LandingBeforeJump | Assets/Scripts/Player.cs:65-97 | a tick starting `Landed` with a press ends with `maxJumps - 1` (single-decrement path); vy is `jumpSpeed`, except that when the input pushes into a wall and `jumpSpeed` is below the slide trigger speed, the slide engages, vy is `max(jumpSpeed, wallslideSpeed)` and the state ends `Landed` instead of `OnGround` |
| PlayerProperties.OrderIsObservable | Assets/Scripts/Player.cs:65-69 | running jump before landing would leave a full budget where the source order leaves `maxJumps - 1` |
| PlayerProperties.MovementOverwritesHorizontal | Assets/Scripts/Player.cs:83-86 | the movement stage's result does not depend on the horizontal velocity it is given, and applying it twice equals applying it once |
| PlayerProperties.JumpStageBound | Assets/Scripts/Player.cs:88-100 | from a budget in `[0, maxJumps]` the jump stage leaves it in `[-1, maxJumps]` |
| PlayerProperties.FallingJumpReachesMinusOne | Assets/Scripts/Player.cs:95-99 | a press while `Falling` with one jump left ends the tick with budget -1 |
| PlayerProperties.StepBudget | Assets/Scripts/Player.cs:73-100 | the budget after a tick in closed form: refilled if it started `Landed`, then minus one for a press with budget left, minus two if it started `Falling` |
| PlayerProperties.ExhaustedBudgetIgnoresPress | Assets/Scripts/Player.cs:88-91 | with budget `<= 0` and no landing edge, a press leaves the budget as it is, and vy changes only by the wall-slide floor |
| PlayerProperties.StepPreservesBudget | Assets/Scripts/Player.cs:62-117 | one tick keeps the budget in `[-1, maxJumps]` for any input and authority |
| PlayerProperties.RunPreservesBudget | Assets/Scripts/Player.cs:62-71 | any run of frames keeps the budget in `[-1, maxJumps]`, whatever the probe and physics do between ticks |
| PlayerProperties.SpawnedRunStaysInBudget | Assets/Scripts/Player.cs:31-34 | a freshly started character never leaves `[-1, maxJumps]` (for any `maxJumps >= -1`) |
| PlayerProperties.DoubleJumpScenario | Assets/Scripts/Player.cs:88-100 | from a spawned character with the shipped `maxJumps` of 2: ground press gives budget 1 and vy `jumpSpeed`, air press gives 0 and vy `jumpSpeed`, a third press changes neither |
| PlayerProperties.FallingJumpScenario | Assets/Scripts/Player.cs:95-100 | a press while `Falling` with budget 2 ends at 0, `InAir`, vy `jumpSpeed`, with no dust |

## Left out

- Camera hookup (`ConnectClientToCamera`) and the kinematic rigid-body setup (`DisablePhysicsIfOtherPlayer`). They are one-time scene wiring with no per-tick logic.
- Mirror `[Command]` / `[ClientRpc]` replication and particle playback. Each call is recorded as a `Dust` request in the tick's effects; delivery is network I/O.
- Unity `Input` polling. It is a per-tick `Input` record; every read of the axis within one tick (Player.cs:84, 106-107) sees the same value.
- The `Debug.Log` of the jump state. It has no effect on the state.
- The `GroundCheck` and `WallCheck` classification from collisions. Those files are not part of this model. Ground state is a state field that the environment may reclassify between ticks; wall contact is an input.
- Physics integration between ticks, and float rounding. Velocities and tuning values are `real`; the integrator's result arrives as `Frame.velocity`.
- Player.Spawn: the probe's initial classification and the body's initial velocity are parameters, because the code that sets them is not part of this model.
