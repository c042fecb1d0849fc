// The falling petal as values: how a reset draws its attributes, what one
// animation frame does to it, and what a run of frames does to it.
module PetalMotion {
  import opened Viewport

  /** The five Math.random() results a reset consumes, in the order it draws them. */
  datatype Draw = Draw(size: real, x: real, rotation: real, speed: real, wobble: real)

  /** Every component is a Math.random() result, that is, in [0, 1). */
  predicate IsDraw(d: Draw)
  {
    0.0 <= d.size < 1.0 && 0.0 <= d.x < 1.0 && 0.0 <= d.rotation < 1.0 &&
    0.0 <= d.speed < 1.0 && 0.0 <= d.wobble < 1.0
  }

  /** Size, position, rotation and motion of one petal, in pixels and degrees. */
  datatype Body = Body(size: real, x: real, y: real, rotation: real, speed: real, wobble: real)

  /** A petal's animation loop runs while it is Falling; Landed and Removed are final. */
  datatype Phase = Falling | Landed | Removed

  datatype PetalState = PetalState(body: Body, phase: Phase)

  /** The attributes a reset gives a petal for a viewport `innerWidth` pixels wide. */
  function Spawn(d: Draw, innerWidth: nat): (b: Body)
    requires IsDraw(d)
    ensures 10.0 <= b.size < 25.0
    ensures b.y == -b.size && b.y < 0.0
    ensures 0.0 <= b.x <= innerWidth as real
    ensures innerWidth > 0 ==> b.x < innerWidth as real
    ensures 0.0 <= b.rotation < 360.0
    ensures 1.0 <= b.speed < 3.0
    ensures -1.0 <= b.wobble < 1.0
  {
    var w := innerWidth as real;
    assert d.x * w <= w by { assert (1.0 - d.x) * w >= 0.0; }
    assert w > 0.0 ==> d.x * w < w by { if w > 0.0 { assert (1.0 - d.x) * w > 0.0; } }
    var size := d.size * 15.0 + 10.0;
    Body(size, d.x * w, -size, d.rotation * 360.0, d.speed * 2.0 + 1.0, d.wobble * 2.0 - 1.0)
  }

  /** How one frame ends for a falling petal. */
  datatype Exit = KeepsFalling | RemovedWhileResizing | RemovedBelowGround | Lands

  /** The body after one frame of motion: drop by `speed`, drift and turn by `wobble`. */
  function Advance(b: Body): Body
  {
    b.(y := b.y + b.speed, x := b.x + b.wobble, rotation := b.rotation + b.wobble)
  }

  /** The guards of a frame, tried in order: resizing, far below the ground, below the ground. */
  function FrameExit(b: Body, resizing: bool, groundY: real): (e: Exit)
    ensures e == RemovedWhileResizing <==> resizing
    ensures e == RemovedBelowGround <==> !resizing && b.y + b.speed > groundY + 100.0
    ensures e == Lands <==> !resizing && groundY < b.y + b.speed <= groundY + 100.0
    ensures e == KeepsFalling <==> !resizing && b.y + b.speed <= groundY
  {
    if resizing then RemovedWhileResizing
    else if Advance(b).y > groundY + 100.0 then RemovedBelowGround
    else if Advance(b).y > groundY then Lands
    else KeepsFalling
  }

  /** One animation frame. A petal that is no longer falling has no frame scheduled, so it is unchanged. */
  function PetalFrame(p: PetalState, resizing: bool, groundY: real): PetalState
  {
    if p.phase != Falling then p
    else match FrameExit(p.body, resizing, groundY)
      case RemovedWhileResizing => p.(phase := Removed)
      case RemovedBelowGround => PetalState(Advance(p.body), Removed)
      case Lands => PetalState(Advance(p.body), Landed)
      case KeepsFalling => PetalState(Advance(p.body), Falling)
  }

  /** What the world looks like at one display frame: the resizing flag and the ground line. */
  datatype FrameInput = FrameInput(resizing: bool, groundY: real)

  /** The petal after a sequence of display frames. */
  function Run(p: PetalState, ticks: seq<FrameInput>): PetalState
    decreases |ticks|
  {
    if ticks == [] then p else Run(PetalFrame(p, ticks[0].resizing, ticks[0].groundY), ticks[1..])
  }

  /** How many of those frames take the petal out of the Falling phase. */
  function Exits(p: PetalState, ticks: seq<FrameInput>): nat
    decreases |ticks|
  {
    if ticks == [] then 0
    else
      var q := PetalFrame(p, ticks[0].resizing, ticks[0].groundY);
      (if p.phase == Falling && q.phase != Falling then 1 else 0) + Exits(q, ticks[1..])
  }

  /** Every frame of `ticks` has no resize in progress and the ground at `groundY`. */
  predicate Calm(ticks: seq<FrameInput>, groundY: real)
  {
    forall i :: 0 <= i < |ticks| ==> ticks[i] == FrameInput(false, groundY)
  }

  /** Once a petal has landed or been removed, later frames leave it as it is. */
  lemma {:induction false} RunFrozen(p: PetalState, ticks: seq<FrameInput>)
    requires p.phase != Falling
    ensures Run(p, ticks) == p
    decreases |ticks|
  {
    if ticks != [] {
      RunFrozen(p, ticks[1..]);
    }
  }

  /** A petal leaves the Falling phase at most once, and exactly once when it ends outside it. */
  lemma {:induction false} LeavesFallingOnce(p: PetalState, ticks: seq<FrameInput>)
    ensures Exits(p, ticks) == if p.phase == Falling && Run(p, ticks).phase != Falling then 1 else 0
    decreases |ticks|
  {
    if ticks != [] {
      var q := PetalFrame(p, ticks[0].resizing, ticks[0].groundY);
      LeavesFallingOnce(q, ticks[1..]);
      if q.phase != Falling {
        RunFrozen(q, ticks[1..]);
      }
    }
  }

  /** Frames never lift a petal and never change its size, speed or drift. */
  lemma {:induction false} RunNeverLifts(p: PetalState, ticks: seq<FrameInput>)
    requires p.body.speed >= 0.0
    ensures Run(p, ticks).body.y >= p.body.y
    ensures Run(p, ticks).body.size == p.body.size
    ensures Run(p, ticks).body.speed == p.body.speed
    ensures Run(p, ticks).body.wobble == p.body.wobble
    decreases |ticks|
  {
    if ticks != [] {
      RunNeverLifts(PetalFrame(p, ticks[0].resizing, ticks[0].groundY), ticks[1..]);
    }
  }

  /** Each frame of a falling petal with no resize in progress moves it strictly down by its
      speed, and drifts and turns it by its wobble. */
  lemma FallingFrameDescends(p: PetalState, groundY: real)
    requires p.phase == Falling && p.body.speed > 0.0
    ensures PetalFrame(p, false, groundY).body.y > p.body.y
    ensures PetalFrame(p, false, groundY).body.y == p.body.y + p.body.speed
    ensures PetalFrame(p, false, groundY).body.x == p.body.x + p.body.wobble
    ensures PetalFrame(p, false, groundY).body.rotation == p.body.rotation + p.body.wobble
  {
  }

  /** With the ground fixed and no resize, a petal at or above the ground that drops less than
      100 pixels a frame lands before it could pass the lower margin: it is never removed. */
  lemma {:induction false} CalmRunNeverRemoves(p: PetalState, ticks: seq<FrameInput>, groundY: real)
    requires Calm(ticks, groundY)
    requires p.phase != Removed
    requires p.phase == Falling ==> p.body.y <= groundY
    requires 0.0 <= p.body.speed < 100.0
    ensures Run(p, ticks).phase != Removed
    decreases |ticks|
  {
    if ticks != [] {
      assert ticks[0] == FrameInput(false, groundY);
      var q := PetalFrame(p, false, groundY);
      assert Calm(ticks[1..], groundY) by {
        forall i | 0 <= i < |ticks[1..]| ensures ticks[1..][i] == FrameInput(false, groundY) {
          assert ticks[1..][i] == ticks[i + 1];
        }
      }
      CalmRunNeverRemoves(q, ticks[1..], groundY);
    }
  }

  /** With the ground fixed and no resize, a falling petal at or above the ground lands once
      the frames it is given could carry it past the ground. */
  lemma {:induction false} CalmRunLands(p: PetalState, ticks: seq<FrameInput>, groundY: real)
    requires Calm(ticks, groundY)
    requires p.phase == Falling && p.body.y <= groundY
    requires 0.0 < p.body.speed < 100.0
    requires p.body.y + (|ticks| as real) * p.body.speed > groundY
    ensures Run(p, ticks).phase == Landed
    decreases |ticks|
  {
    assert ticks != [];
    assert ticks[0] == FrameInput(false, groundY);
    var q := PetalFrame(p, false, groundY);
    assert Calm(ticks[1..], groundY) by {
      forall i | 0 <= i < |ticks[1..]| ensures ticks[1..][i] == FrameInput(false, groundY) {
        assert ticks[1..][i] == ticks[i + 1];
      }
    }
    if q.phase == Falling {
      var n := |ticks| as real;
      assert (n - 1.0) * p.body.speed == n * p.body.speed - p.body.speed;
      CalmRunLands(q, ticks[1..], groundY);
    } else {
      RunFrozen(q, ticks[1..]);
    }
  }

  /** A freshly reset petal, given more frames than 0.9H + 25 with a fixed ground and no resize,
      lands, and it leaves the Falling phase exactly once. */
  lemma SpawnedPetalLands(d: Draw, innerWidth: nat, innerHeight: nat, ticks: seq<FrameInput>)
    requires IsDraw(d)
    requires Calm(ticks, GroundY(innerHeight))
    requires |ticks| as real > GroundY(innerHeight) + 25.0
    ensures Run(PetalState(Spawn(d, innerWidth), Falling), ticks).phase == Landed
    ensures Exits(PetalState(Spawn(d, innerWidth), Falling), ticks) == 1
  {
    var p := PetalState(Spawn(d, innerWidth), Falling);
    var n := |ticks| as real;
    assert n * p.body.speed >= n by { assert n * (p.body.speed - 1.0) >= 0.0; }
    assert p.body.y > -25.0 && p.body.y <= GroundY(innerHeight);
    assert p.body.y + n * p.body.speed > GroundY(innerHeight);
    CalmRunLands(p, ticks, GroundY(innerHeight));
    LeavesFallingOnce(p, ticks);
  }
}
