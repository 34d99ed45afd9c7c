/** The game state that the main loop mutates: the bird's height, the shared bird
    velocity and the pipe list, with the per-tick update and control decision. */
module Game {
  import opened Config
  import opened Geometry
  import opened Pipes
  import opened Gesture
  import opened Physics

  /** What the main loop receives in one iteration: whether the camera delivered a
      frame, the hands detected in it, and the random top-pipe height drawn if a
      pair is spawned during that iteration. */
  datatype Frame = Frame(ok: bool, hands: seq<Hand>, draw: int)

  /** The jump decisions of the ticks that run: a frame without a camera image is
      skipped, the others jump exactly when their gesture is Up. */
  function Jumps(frames: seq<Frame>): (r: seq<bool>)
    ensures |r| <= |frames|
    ensures (forall k :: 0 <= k < |frames| ==> frames[k].ok) ==> |r| == |frames|
    decreases |frames|
  {
    if frames == [] then []
    else
      var last := frames[|frames| - 1];
      Jumps(frames[..|frames| - 1]) + (if last.ok then [TrackHand(last.hands) == Some(Up)] else [])
  }

  lemma {:induction false} JumpsNext(frames: seq<Frame>, i: nat)
    requires i < |frames|
    ensures frames[i].ok ==>
      Jumps(frames[..i + 1]) == Jumps(frames[..i]) + [TrackHand(frames[i].hands) == Some(Up)]
    ensures !frames[i].ok ==> Jumps(frames[..i + 1]) == Jumps(frames[..i])
  {
    assert frames[..i + 1][..i] == frames[..i];
    assert Jumps(frames[..i]) + [] == Jumps(frames[..i]);
  }

  /** The pipe list after the ticks that run: a frame without a camera image leaves
      it as it is, the others advance it once with their draw. Every tick keeps the
      pipe-field invariant, so the result satisfies it too. */
  function Fields(s: seq<Rect>, frames: seq<Frame>): (r: seq<Rect>)
    requires WellFormed(s)
    requires forall k :: 0 <= k < |frames| ==> ValidDraw(frames[k].draw)
    ensures WellFormed(r)
    decreases |frames|
  {
    if frames == [] then s
    else
      var last := frames[|frames| - 1];
      var before := Fields(s, frames[..|frames| - 1]);
      if last.ok then AdvanceKeepsWellFormed(before, last.draw); Advance(before, last.draw)
      else before
  }

  lemma {:induction false} FieldsNext(s: seq<Rect>, frames: seq<Frame>, i: nat)
    requires WellFormed(s)
    requires forall k :: 0 <= k < |frames| ==> ValidDraw(frames[k].draw)
    requires i < |frames|
    ensures frames[i].ok ==>
      Fields(s, frames[..i + 1]) == Advance(Fields(s, frames[..i]), frames[i].draw)
    ensures !frames[i].ok ==> Fields(s, frames[..i + 1]) == Fields(s, frames[..i])
  {
    assert frames[..i + 1][..i] == frames[..i];
  }

  class Game {
    /** The bird's vertical position (top edge of its box). */
    var y: real
    /** The bird's vertical velocity, shared between the jump and the update. */
    var speed: real
    /** The pipes, oldest first. */
    var pipes: seq<Rect>

    ghost predicate Valid()
      reads this
    {
      WellFormed(pipes)
    }

    ghost function State(): Motion
      reads this
    {
      Motion(y, speed)
    }

    /** Game start: the bird at half the field height with the initial velocity,
        and one pair of pipes at the right edge. */
    constructor (top: int)
      requires ValidDraw(top)
      ensures Valid()
      ensures y == (Height / 2) as real && speed == InitialSpeed
      ensures pipes == [TopPipe(top), BottomPipe(top)]
      ensures pipes[0].h + PipeGap + pipes[1].h == Height
    {
      y := (Height / 2) as real;
      speed := InitialSpeed;
      var bottomHeight := Height - PipeGap - top;
      var initial := [];
      initial := initial + [Rect(Width, 0, PipeWidth, top)];
      initial := initial + [Rect(Width, Height - bottomHeight, PipeWidth, bottomHeight)];
      assert initial == SpawnPair(top);
      InitialWellFormed(top);
      pipes := initial;
    }

    /** The jump overwrites the velocity, whatever it was. */
    method Jump()
      modifies this`speed
      ensures speed == JumpForce
    {
      speed := JumpForce;
    }

    /** The scrolling loop of the update: every rectangle, in list order, moves
        one unit to the left in place. */
    method ScrollPipes()
      modifies this`pipes
      ensures pipes == Scrolled(old(pipes))
    {
      var i := 0;
      while i < |pipes|
        invariant i <= |pipes| == |old(pipes)|
        invariant forall k :: i <= k < |pipes| ==> pipes[k] == old(pipes)[k]
        invariant forall k :: 0 <= k < i ==> pipes[k] == Shift(old(pipes)[k])
      {
        pipes := pipes[i := pipes[i].(x := pipes[i].x - 1)];
        i := i + 1;
      }
    }

    /** One simulation step: move the bird by its velocity, then add gravity; scroll
        every pipe left by one, spawn a pair if the newest pipe is far enough from
        the right edge, drop the pipes that left the field; report whether the bird
        hits one of the remaining pipes. */
    method UpdateGame(top: int) returns (over: bool)
      requires Valid() && ValidDraw(top)
      modifies this
      ensures Valid()
      ensures y == old(y) + old(speed) && speed == old(speed) + Gravity
      ensures pipes == Advance(old(pipes), top)
      ensures over <==> Collides(y, pipes)
    {
      y := y + speed;
      speed := speed + Gravity;

      ghost var current := pipes;
      AdvanceKeepsWellFormed(current, top);
      ScrollPipes();
      var field := pipes;
      if field[|field| - 1].x < Width - PipeInterval {
        var bottomHeight := Height - PipeGap - top;
        field := field + [Rect(Width, 0, PipeWidth, top)];
        field := field + [Rect(Width, Height - bottomHeight, PipeWidth, bottomHeight)];
      }
      assert field == MaybeSpawn(Scrolled(current), top);
      pipes := Prune(field);
      over := CheckCollision(y, pipes);
    }

    /** One iteration of the main loop. Without a camera frame the iteration is
        skipped and nothing changes; otherwise an Up gesture jumps before the update. */
    method Tick(frameOk: bool, hands: seq<Hand>, top: int) returns (over: bool)
      requires Valid() && ValidDraw(top)
      modifies this
      ensures Valid()
      ensures !frameOk ==> !over && y == old(y) && speed == old(speed) && pipes == old(pipes)
      ensures frameOk ==> State() == Step(old(State()), TrackHand(hands) == Some(Up))
      ensures frameOk && TrackHand(hands) == Some(Up) ==>
        y == old(y) + JumpForce && speed == JumpForce + Gravity
      ensures frameOk ==> pipes == Advance(old(pipes), top)
      ensures over <==> frameOk && Collides(y, pipes)
    {
      if !frameOk {
        return false;
      }
      var gesture := TrackHand(hands);
      if gesture == Some(Up) {
        Jump();
      }
      over := UpdateGame(top);
    }

    /** The main loop over a finite run of frames: it stops at the first tick whose
        update reports a collision. `ticks` is the number of frames consumed. */
    method Run(frames: seq<Frame>) returns (over: bool, ticks: nat)
      requires Valid()
      requires forall k :: 0 <= k < |frames| ==> ValidDraw(frames[k].draw)
      modifies this
      ensures Valid()
      ensures ticks <= |frames|
      ensures !over ==> ticks == |frames|
      ensures over ==> 0 < ticks && Collides(y, pipes)
      ensures State() == Glide(old(State()), Jumps(frames[..ticks]))
      ensures pipes == Fields(old(pipes), frames[..ticks])
    {
      over, ticks := false, 0;
      while ticks < |frames| && !over
        invariant Valid()
        invariant ticks <= |frames|
        invariant over ==> 0 < ticks && Collides(y, pipes)
        invariant State() == Glide(old(State()), Jumps(frames[..ticks]))
        invariant pipes == Fields(old(pipes), frames[..ticks])
      {
        var frame := frames[ticks];
        ghost var done := Jumps(frames[..ticks]);
        over := Tick(frame.ok, frame.hands, frame.draw);
        JumpsNext(frames, ticks);
        FieldsNext(old(pipes), frames, ticks);
        if frame.ok {
          GlideNext(old(State()), done, TrackHand(frame.hands) == Some(Up));
        }
        ticks := ticks + 1;
      }
    }
  }
}
