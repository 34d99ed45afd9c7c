/** The game's fixed parameters, as the module-level constants of the game define them. */
module Config {
  const Width: int := 600
  const Height: int := 800
  /** Initial value of the shared bird velocity. */
  const InitialSpeed: real := 5.0
  const Gravity: real := 0.5
  const JumpForce: real := -10.0
  const PipeWidth: int := 50
  const PipeGap: int := 200
  const PipeInterval: int := 200

  /** The bird's collision box is a fixed 40 x 40 square at x = 50. */
  const BirdX: int := 50
  const BirdSize: int := 40

  /** Range of the random top-pipe height: randint(100, Height - PipeGap - 100),
      whose upper bound is exclusive. */
  const MinTop: int := 100
  const MaxTopExclusive: int := Height - PipeGap - 100

  predicate ValidDraw(top: int) {
    MinTop <= top < MaxTopExclusive
  }
}
