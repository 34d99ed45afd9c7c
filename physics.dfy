/** The bird's vertical motion: position and velocity, advanced once per tick. */
module Physics {
  import opened Config

  datatype Motion = Motion(y: real, speed: real)

  /** One tick: a jump first overwrites the velocity with JumpForce; then the
      position moves by the velocity and only afterwards gravity is added. */
  function Step(m: Motion, jump: bool): (r: Motion) {
    var v := if jump then JumpForce else m.speed;
    Motion(m.y + v, v + Gravity)
  }

  /** The motion after a sequence of ticks, `jumps[k]` saying whether tick k jumped. */
  function Glide(m: Motion, jumps: seq<bool>): (r: Motion)
    decreases |jumps|
  {
    if jumps == [] then m
    else Step(Glide(m, jumps[..|jumps| - 1]), jumps[|jumps| - 1])
  }

  lemma {:induction false} GlideNext(m: Motion, jumps: seq<bool>, jump: bool)
    ensures Glide(m, jumps + [jump]) == Step(Glide(m, jumps), jump)
  {
  }

  /** A jump resets the velocity whatever it was: the tick ends JumpForce higher with
      velocity JumpForce + Gravity. */
  lemma {:induction false} JumpForgetsSpeed(m: Motion, jumps: seq<bool>)
    ensures Glide(m, jumps + [true]) == Motion(Glide(m, jumps).y + JumpForce, JumpForce + Gravity)
  {
  }

  /** Free fall for n ticks: the velocity grows by Gravity per tick, and since the
      position uses the velocity from before gravity, it moves by
      n * v0 + Gravity * n * (n - 1) / 2. */
  lemma {:induction false} FreeFall(m: Motion, jumps: seq<bool>)
    requires forall k :: 0 <= k < |jumps| ==> !jumps[k]
    ensures var n := |jumps| as real;
      && Glide(m, jumps).speed == m.speed + Gravity * n
      && Glide(m, jumps).y == m.y + n * m.speed + Gravity * n * (n - 1.0) / 2.0
    decreases |jumps|
  {
    if jumps != [] {
      var prefix := jumps[..|jumps| - 1];
      FreeFall(m, prefix);
      var p := |prefix| as real;
      assert (p + 1.0) * m.speed == p * m.speed + m.speed;
      assert (p + 1.0) * p == p * (p - 1.0) + 2.0 * p;
    }
  }

  /** Ten ticks of free fall from rest: velocity 5 and a drop of 22.5, that is
      0.5 * (0 + 1 + ... + 9), because each tick moves by the velocity before gravity. */
  lemma {:induction false} TenTicksFromRest(y0: real)
    ensures Glide(Motion(y0, 0.0), seq(10, _ => false)) == Motion(y0 + 22.5, 5.0)
  {
    FreeFall(Motion(y0, 0.0), seq(10, _ => false));
  }
}
