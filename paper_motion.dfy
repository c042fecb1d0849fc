// The falling paper as values: its reset, one animation frame, a run of
// frames, and the rule that decides whether a landed paper falls again
// after the window is resized.
module PaperMotion {
  import opened Viewport

  /** Frames a fall from the top to the ground is meant to take: 10.9 s at 60 frames per second. */
  const FallFrames: real := 10.9 * 60.0
  /** Where every fall starts, above the top edge. */
  const StartY: real := -100.0
  /** A landed paper rests this far above the ground line. */
  const LandOffset: real := 40.0

  /** Position and motion of the paper; `animating` says whether its frame loop is live. */
  datatype PaperState = PaperState(x: real, y: real, rotation: real, speed: real, wobble: real,
                                   hasLanded: bool, animating: bool)

  /** The constant fall speed: the distance from the start line to the ground over the fall's frames. */
  function Speed(innerHeight: nat): (v: real)
    ensures v > 0.0
    ensures v * 654.0 == GroundY(innerHeight) + 100.0
  {
    (GroundY(innerHeight) + 100.0) / FallFrames
  }

  /** A reset: centred at the start line, upright, with the speed for this height and a small
      drift drawn from the Math.random() result `u`; the landed flag and the frame loop are kept. */
  function ResetState(s: PaperState, u: real, innerWidth: nat, innerHeight: nat): (r: PaperState)
    requires 0.0 <= u < 1.0
    ensures r.x == (innerWidth as real) / 2.0 && r.y == StartY && r.rotation == 0.0
    ensures r.speed == Speed(innerHeight)
    ensures -0.25 <= r.wobble < 0.25
    ensures r.hasLanded == s.hasLanded && r.animating == s.animating
  {
    s.(x := (innerWidth as real) / 2.0, y := StartY, rotation := 0.0,
       speed := Speed(innerHeight), wobble := u * 0.5 - 0.25)
  }

  /** A new paper: not landed, reset, and its frame loop started. */
  function Initial(u: real, innerWidth: nat, innerHeight: nat): (r: PaperState)
    requires 0.0 <= u < 1.0
    ensures r.y == StartY && r.speed == Speed(innerHeight)
    ensures !r.hasLanded && r.animating
  {
    ResetState(PaperState(0.0, 0.0, 0.0, 0.0, 0.0, false, true), u, innerWidth, innerHeight)
  }

  /** Landing on the ground line `groundY`: flagged as landed and lifted to the rest position. */
  function Landed(s: PaperState, groundY: real): PaperState
  {
    s.(hasLanded := true, y := groundY - LandOffset)
  }

  /** One frame with no resize in progress: move, then land (ending the loop) once past the ground. */
  function Descend(s: PaperState, groundY: real): PaperState
  {
    var a := s.(y := s.y + s.speed, x := s.x + s.wobble, rotation := s.rotation + s.wobble);
    if a.y > groundY then Landed(a, groundY).(animating := false) else a
  }

  /** One animation frame. While a resize is in progress the paper resets and its loop stops
      without requesting another frame. A paper whose loop has ended is unchanged. */
  function PaperFrame(s: PaperState, resizing: bool, u: real, innerWidth: nat, innerHeight: nat): PaperState
    requires 0.0 <= u < 1.0
  {
    if !s.animating then s
    else if resizing then ResetState(s, u, innerWidth, innerHeight).(animating := false)
    else Descend(s, GroundY(innerHeight))
  }

  /** The paper after `n` frames with no resize in progress and the ground fixed at `groundY`. */
  function Fall(s: PaperState, n: nat, groundY: real): PaperState
  {
    if n == 0 then s
    else
      var t := Fall(s, n - 1, groundY);
      if t.animating then Descend(t, groundY) else t
  }

  /** A step of `Fall` is one animation frame with no resize in progress, whatever the drift
      draw `u` and the width, which only a resizing frame uses. */
  lemma FallStep(s: PaperState, n: nat, u: real, innerWidth: nat, innerHeight: nat)
    requires 0.0 <= u < 1.0 && n > 0
    ensures Fall(s, n, GroundY(innerHeight)) ==
      PaperFrame(Fall(s, n - 1, GroundY(innerHeight)), false, u, innerWidth, innerHeight)
  {
  }

  /** The debounced resize callback of a landed paper: it falls again, from where it rests and at
      its old speed, only when the rest position is above the new ground's rest position. */
  function AfterResize(s: PaperState, innerHeight: nat): PaperState
  {
    if s.y < GroundY(innerHeight) - LandOffset then s.(hasLanded := false, animating := true) else s
  }

  /** A landed paper has no frame loop running. */
  predicate LandedIsStill(s: PaperState)
  {
    s.hasLanded ==> !s.animating
  }

  /** A new paper, every frame and the resize callback of a landed paper keep the rule that a
      landed paper has no frame loop; so the callback that restarts the fall never starts a
      second loop beside a running one. */
  lemma LandedStaysStill(s: PaperState, resizing: bool, u: real, innerWidth: nat, innerHeight: nat)
    requires 0.0 <= u < 1.0
    requires LandedIsStill(s)
    ensures LandedIsStill(Initial(u, innerWidth, innerHeight))
    ensures LandedIsStill(PaperFrame(s, resizing, u, innerWidth, innerHeight))
    ensures s.hasLanded ==> LandedIsStill(AfterResize(s, innerHeight))
    ensures s.hasLanded && AfterResize(s, innerHeight).animating ==> !s.animating
  {
  }

  /** While the paper stays above the ground, `n` frames move it by `n` times its speed and drift. */
  lemma {:induction false} FallProgress(s: PaperState, n: nat, groundY: real)
    requires s.animating && s.speed >= 0.0
    requires s.y + (n as real) * s.speed <= groundY
    ensures Fall(s, n, groundY) ==
      s.(y := s.y + (n as real) * s.speed, x := s.x + (n as real) * s.wobble,
         rotation := s.rotation + (n as real) * s.wobble)
  {
    if n > 0 {
      var m := (n - 1) as real;
      assert s.y + m * s.speed <= groundY by {
        assert m * s.speed <= (n as real) * s.speed;
      }
      FallProgress(s, n - 1, groundY);
      assert m * s.speed + s.speed == (n as real) * s.speed;
      assert m * s.wobble + s.wobble == (n as real) * s.wobble;
    }
  }

  /** From a fresh reset the paper is still falling after 654 frames, exactly on the ground line,
      and the 655th frame is the first that passes the ground: it lands at the rest position. */
  lemma PaperLandsOnFrame655(u: real, innerWidth: nat, innerHeight: nat)
    requires 0.0 <= u < 1.0
    ensures var s := Initial(u, innerWidth, innerHeight);
      var g := GroundY(innerHeight);
      Fall(s, 654, g).animating && !Fall(s, 654, g).hasLanded && Fall(s, 654, g).y == g
    ensures var s := Initial(u, innerWidth, innerHeight);
      var g := GroundY(innerHeight);
      Fall(s, 655, g).hasLanded && !Fall(s, 655, g).animating && Fall(s, 655, g).y == g - LandOffset
  {
    var s := Initial(u, innerWidth, innerHeight);
    var g := GroundY(innerHeight);
    assert s.y + 654.0 * s.speed == g;
    FallProgress(s, 654, g);
    assert Fall(s, 654, g).y + s.speed > g;
  }

  /** Before frame 654 the paper has not reached the ground and has not landed. */
  lemma PaperFallingBeforeGround(u: real, innerWidth: nat, innerHeight: nat, n: nat)
    requires 0.0 <= u < 1.0
    requires n < 654
    ensures var s := Initial(u, innerWidth, innerHeight);
      var g := GroundY(innerHeight);
      Fall(s, n, g).animating && !Fall(s, n, g).hasLanded && Fall(s, n, g).y < g
  {
    var s := Initial(u, innerWidth, innerHeight);
    var g := GroundY(innerHeight);
    StillAbove(s, n, 654, g);
  }

  /** A paper that would reach the ground in `total` frames is still falling, and above it, after fewer. */
  lemma StillAbove(s: PaperState, n: nat, total: nat, groundY: real)
    requires s.animating && !s.hasLanded && s.speed > 0.0
    requires n < total && s.y + (total as real) * s.speed <= groundY
    ensures Fall(s, n, groundY).animating && !Fall(s, n, groundY).hasLanded
    ensures Fall(s, n, groundY).y < groundY
  {
    var k := n as real;
    assert k * s.speed < (total as real) * s.speed by {
      assert ((total as real) - k) * s.speed > 0.0;
    }
    FallProgress(s, n, groundY);
  }

  /** A paper that landed on ground `groundY` falls again after a resize exactly when the new
      ground is lower; it keeps its position and speed and restarts its frame loop. */
  lemma RefallIffGroundLowered(s: PaperState, groundY: real, innerHeight: nat)
    requires s.hasLanded && s.y == groundY - LandOffset
    ensures !AfterResize(s, innerHeight).hasLanded <==> GroundY(innerHeight) > groundY
    ensures !AfterResize(s, innerHeight).hasLanded ==>
      AfterResize(s, innerHeight).animating && AfterResize(s, innerHeight).y == s.y &&
      AfterResize(s, innerHeight).speed == s.speed
    ensures GroundY(innerHeight) <= groundY ==> AfterResize(s, innerHeight) == s
  {
  }

  /** A frame taken while a resize is in progress never lands the paper and leaves its loop stopped. */
  lemma ResizingFrameNeverLands(s: PaperState, u: real, innerWidth: nat, innerHeight: nat)
    requires 0.0 <= u < 1.0
    requires s.animating
    ensures PaperFrame(s, true, u, innerWidth, innerHeight).hasLanded == s.hasLanded
    ensures !PaperFrame(s, true, u, innerWidth, innerHeight).animating
    ensures PaperFrame(s, true, u, innerWidth, innerHeight).y == StartY
  {
  }
}
