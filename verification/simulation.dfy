/**
 Several frames in a row. Between two ticks the outside world acts on the
 character: the physics integrator hands back a new velocity and the ground
 probe may reclassify its contact (it keeps whatever the controller last
 wrote otherwise). Each tick then runs `Player.Step` on the result.
 */
module Simulation {
  import opened Player

  /** What the ground probe did since the last tick. */
  datatype Contact = Unchanged | Classified(ground: JumpState)

  /** The world between two ticks, and the input of the tick that follows. */
  datatype Frame = Frame(contact: Contact, velocity: Velocity, input: Input)

  /** The state a tick starts from: the integrated velocity, and the probe's
      new classification if it made one. The jump budget is the controller's
      alone. */
  function Observe(s: State, f: Frame): (r: State)
    ensures r.jumpsAvailable == s.jumpsAvailable
    ensures r.velocity == f.velocity
    ensures f.contact.Unchanged? ==> r.jumpState == s.jumpState
    ensures f.contact.Classified? ==> r.jumpState == f.contact.ground
  {
    match f.contact
    case Unchanged => s.(velocity := f.velocity)
    case Classified(g) => State(g, s.jumpsAvailable, f.velocity)
  }

  /** Ticks over `frames` in order, collecting every dust request. */
  function Run(cfg: Config, authority: bool, s: State, frames: seq<Frame>): (o: Outcome)
    ensures |o.effects| <= 2 * |frames|
    ensures !authority ==> o.effects == [] && o.state.jumpsAvailable == s.jumpsAvailable
    decreases |frames|
  {
    if frames == [] then
      Outcome(s, [])
    else
      var first := Step(cfg, authority, Observe(s, frames[0]), frames[0].input);
      var rest := Run(cfg, authority, first.state, frames[1..]);
      Outcome(rest.state, first.effects + rest.effects)
  }

  /** The state each tick of a run starts from, after the environment acted. */
  function TickStarts(cfg: Config, authority: bool, s: State, frames: seq<Frame>): (r: seq<State>)
    ensures |r| == |frames|
    ensures forall i :: 0 <= i < |r| ==> r[i].velocity == frames[i].velocity
    decreases |frames|
  {
    if frames == [] then
      []
    else
      var start := Observe(s, frames[0]);
      var next := Step(cfg, authority, start, frames[0].input).state;
      [start] + TickStarts(cfg, authority, next, frames[1..])
  }

  /** How many requests of the given kind a sequence of dust requests holds. */
  function CountDust(kind: Dust, effects: seq<Dust>): nat
    decreases |effects|
  {
    if effects == [] then 0
    else (if effects[0] == kind then 1 else 0) + CountDust(kind, effects[1..])
  }

  /** How many of the given tick-start states carry the landing edge. */
  function LandingEdges(starts: seq<State>): nat
    decreases |starts|
  {
    if starts == [] then 0
    else (if starts[0].jumpState == Landed then 1 else 0) + LandingEdges(starts[1..])
  }
}
