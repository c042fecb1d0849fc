// The scene's objects and their callbacks: falling petals, the petal manager
// with its active set, the paced petal-creation loop, and the paper. Each
// timer or animation-frame callback is one method. The frame, reset and
// resize callbacks of petals and the paper are tied to the functions of
// PetalMotion and PaperMotion; the manager's and the creation loop's methods
// state their new petal set, paper slot, counter and flags directly.
//
// `resizing` parameters stand for the resize flag a callback reads at that
// moment; `innerWidth` and `innerHeight` for the window size at that moment;
// `Draw` values and `u` for the Math.random() results the callback consumes.
module Scene {
  import opened Viewport
  import opened PetalMotion
  import PaperMotion

  class Petal {
    const manager: PetalManager
    var size: real
    var x: real
    var y: real
    var rotation: real
    var speed: real
    var wobble: real
    var phase: Phase

    function Body(): PetalMotion.Body
      reads this
    {
      PetalMotion.Body(size, x, y, rotation, speed, wobble)
    }

    function State(): PetalState
      reads this
    {
      PetalState(Body(), phase)
    }

    /** A new petal: reset, and its frame loop requested. */
    constructor (manager: PetalManager, d: Draw, innerWidth: nat)
      requires IsDraw(d)
      ensures this.manager == manager
      ensures State() == PetalState(Spawn(d, innerWidth), Falling)
    {
      this.manager := manager;
      phase := Falling;
      new;
      Reset(d, innerWidth);
    }

    /** Draws fresh attributes for the petal. */
    method Reset(d: Draw, innerWidth: nat)
      requires IsDraw(d)
      modifies this`size, this`x, this`y, this`rotation, this`speed, this`wobble
      ensures Body() == Spawn(d, innerWidth)
    {
      var b := Spawn(d, innerWidth);
      size := b.size;
      x := b.x;
      rotation := b.rotation;
      y := -size;
      speed := b.speed;
      wobble := b.wobble;
    }

    /** One frame of the falling loop. A petal that leaves the Falling phase leaves the manager's
        active set in the same step; a landing petal brings in exactly one fresh petal, drawn
        from `d`, to take its place. */
    method Animate(resizing: bool, innerHeight: nat, d: Draw, innerWidth: nat)
      returns (replacement: Petal?)
      requires phase == Falling && IsDraw(d)
      requires manager.Consistent()
      modifies this, manager`activePetals
      ensures manager.Consistent()
      ensures State() == PetalFrame(old(State()), resizing, GroundY(innerHeight))
      ensures FrameExit(old(Body()), resizing, GroundY(innerHeight)) == KeepsFalling ==>
        replacement == null && manager.activePetals == old(manager.activePetals)
      ensures FrameExit(old(Body()), resizing, GroundY(innerHeight)) in {RemovedWhileResizing, RemovedBelowGround} ==>
        replacement == null && manager.activePetals == old(manager.activePetals) - {this}
      ensures FrameExit(old(Body()), resizing, GroundY(innerHeight)) == Lands ==>
        replacement != null && fresh(replacement) && replacement.manager == manager &&
        replacement.State() == PetalState(Spawn(d, innerWidth), Falling) &&
        manager.activePetals == old(manager.activePetals) - {this} + {replacement}
      ensures FrameExit(old(Body()), resizing, GroundY(innerHeight)) == Lands && this in old(manager.activePetals) ==>
        |manager.activePetals| == |old(manager.activePetals)|
    {
      replacement := null;
      if resizing {
        phase := Removed;
        manager.RemovePetal(this);
        return;
      }
      y := y + speed;
      x := x + wobble;
      rotation := rotation + wobble;
      var groundY := GroundY(innerHeight);
      if y > groundY + 100.0 {
        phase := Removed;
        manager.RemovePetal(this);
        return;
      }
      if y > groundY {
        replacement := Land(resizing, d, innerWidth);
        if this in old(manager.activePetals) {
          SwapKeepsSize(old(manager.activePetals), this, replacement);
        }
        return;
      }
    }

    /** Landing: the petal leaves the active set and, unless a resize is in progress, the manager
        adds one fresh petal drawn from `d`. */
    method Land(resizing: bool, d: Draw, innerWidth: nat) returns (replacement: Petal?)
      requires phase == Falling && IsDraw(d)
      requires manager.Consistent()
      modifies this`phase, manager`activePetals
      ensures manager.Consistent()
      ensures phase == if resizing then Removed else Landed
      ensures resizing ==> replacement == null && manager.activePetals == old(manager.activePetals) - {this}
      ensures !resizing ==>
        replacement != null && fresh(replacement) && replacement.manager == manager &&
        replacement.State() == PetalState(Spawn(d, innerWidth), Falling) &&
        manager.activePetals == old(manager.activePetals) - {this} + {replacement}
    {
      replacement := null;
      if resizing {
        phase := Removed;
        manager.RemovePetal(this);
        return;
      }
      phase := Landed;
      manager.RemovePetal(this);
      replacement := manager.AddPetal(d, innerWidth);
    }
  }

  /** Taking one element out of a set and putting a new one in keeps its size. */
  lemma SwapKeepsSize<T>(s: set<T>, gone: T, added: T)
    requires gone in s && added !in s
    ensures |s - {gone} + {added}| == |s|
  {
    assert |s - {gone}| == |s| - 1;
    assert added !in s - {gone};
  }

  class PetalManager {
    const petalCount: nat
    var hasStarted: bool
    var activePetals: set<Petal>
    var paper: Paper?
    var originalPetals: set<Petal>

    /** Every petal in the active set belongs to this manager and is still falling. */
    ghost predicate Consistent()
      reads this, activePetals
    {
      forall p :: p in activePetals ==> p.manager == this && p.phase == Falling
    }

    constructor (innerWidth: nat)
      ensures petalCount == PetalCount(innerWidth)
      ensures !hasStarted && activePetals == {} && paper == null && originalPetals == {}
      ensures Consistent()
    {
      petalCount := PetalCount(innerWidth);
      hasStarted := false;
      activePetals := {};
      paper := null;
      originalPetals := {};
    }

    /** Creates one petal, registers it and returns it. */
    method AddPetal(d: Draw, innerWidth: nat) returns (p: Petal)
      requires IsDraw(d)
      modifies this`activePetals
      ensures fresh(p) && p.manager == this
      ensures p.State() == PetalState(Spawn(d, innerWidth), Falling)
      ensures activePetals == old(activePetals) + {p}
      ensures |activePetals| == |old(activePetals)| + 1
      ensures old(Consistent()) ==> Consistent()
    {
      p := new Petal(this, d, innerWidth);
      activePetals := activePetals + {p};
    }

    /** Unregisters `p`; a petal that is not registered leaves the set as it is. */
    method RemovePetal(p: Petal)
      modifies this`activePetals
      ensures activePetals == old(activePetals) - {p}
      ensures p !in old(activePetals) ==> activePetals == old(activePetals)
      ensures old(Consistent()) ==> Consistent()
    {
      activePetals := activePetals - {p};
    }

    /** Forgets every active petal and the paper. */
    method ClearAllPetals()
      modifies this`activePetals, this`paper
      ensures activePetals == {} && paper == null
      ensures Consistent()
    {
      activePetals := {};
      if paper != null {
        paper := null;
      }
    }

    /** The play button's click handler. Only the first click starts the scene: it snapshots the
        active petals and sets the started flag; every later click changes nothing. */
    method Start() returns (began: bool)
      modifies this`hasStarted, this`originalPetals
      ensures began == !old(hasStarted)
      ensures hasStarted
      ensures began ==> originalPetals == old(activePetals)
      ensures !began ==> originalPetals == old(originalPetals)
    {
      if hasStarted {
        return false;
      }
      originalPetals := activePetals;
      hasStarted := true;
      began := true;
    }

    /** The timer that fires when the play overlay has faded: starts creating the configured
        number of petals. */
    method AfterFadeOut() returns (creation: PetalCreation)
      ensures fresh(creation) && creation.manager == this && creation.count == petalCount
      ensures creation.Valid() && creation.created == 0 && creation.running
    {
      creation := CreatePetals(petalCount);
    }

    /** Starts a paced creation of up to `count` petals, one per animation frame. */
    method CreatePetals(count: nat) returns (creation: PetalCreation)
      ensures fresh(creation) && creation.manager == this && creation.count == count
      ensures creation.Valid() && creation.created == 0 && creation.running
    {
      creation := new PetalCreation(this, count);
    }

    /** The paper timer: the paper is created only when there is none yet and no resize is in
        progress, so the scene never holds more than the one. */
    method PaperTimer(resizing: bool, u: real, innerWidth: nat, innerHeight: nat) returns (created: bool)
      requires 0.0 <= u < 1.0
      modifies this`paper
      ensures created == (old(paper) == null && !resizing)
      ensures created ==>
        paper != null && fresh(paper) && paper.manager == this &&
        paper.State() == PaperMotion.Initial(u, innerWidth, innerHeight)
      ensures !created ==> paper == old(paper)
    {
      created := paper == null && !resizing;
      if created {
        paper := new Paper(this, u, innerWidth, innerHeight);
      }
    }
  }

  /** The state of one paced creation: the target count and how many petals it has added. */
  class PetalCreation {
    const manager: PetalManager
    const count: nat
    var created: nat
    var running: bool
    ghost var added: set<Petal>

    ghost predicate Valid()
      reads this
    {
      created <= count && |added| == created
    }

    constructor (manager: PetalManager, count: nat)
      ensures this.manager == manager && this.count == count
      ensures Valid() && created == 0 && running && added == {}
    {
      this.manager := manager;
      this.count := count;
      created := 0;
      running := true;
      added := {};
    }

    /** One frame of the creation loop: adds a petal and asks for another frame while no resize
        is in progress and fewer than `count` have been added; otherwise the loop ends for good. */
    method Frame(resizing: bool, d: Draw, innerWidth: nat) returns (p: Petal?)
      requires Valid() && running && IsDraw(d)
      modifies this, manager`activePetals
      ensures Valid()
      ensures !resizing && old(created) < count ==>
        p != null && fresh(p) && p.manager == manager &&
        p.State() == PetalState(Spawn(d, innerWidth), Falling) &&
        manager.activePetals == old(manager.activePetals) + {p} &&
        created == old(created) + 1 && added == old(added) + {p} && running
      ensures resizing || old(created) >= count ==>
        p == null && manager.activePetals == old(manager.activePetals) &&
        created == old(created) && added == old(added) && !running
      ensures old(manager.Consistent()) ==> manager.Consistent()
    {
      if !resizing && created < count {
        p := manager.AddPetal(d, innerWidth);
        added := added + {p};
        created := created + 1;
      } else {
        p := null;
        running := false;
      }
    }
  }

  class Paper {
    const manager: PetalManager
    var x: real
    var y: real
    var rotation: real
    var speed: real
    var wobble: real
    var hasLanded: bool
    var animating: bool

    function State(): PaperMotion.PaperState
      reads this
    {
      PaperMotion.PaperState(x, y, rotation, speed, wobble, hasLanded, animating)
    }

    /** A landed paper has no frame loop running. */
    ghost predicate Valid()
      reads this
    {
      PaperMotion.LandedIsStill(State())
    }

    /** A new paper: not landed, reset for the current window, and its frame loop requested. */
    constructor (manager: PetalManager, u: real, innerWidth: nat, innerHeight: nat)
      requires 0.0 <= u < 1.0
      ensures this.manager == manager
      ensures State() == PaperMotion.Initial(u, innerWidth, innerHeight)
      ensures Valid()
    {
      this.manager := manager;
      hasLanded := false;
      animating := true;
      new;
      Reset(u, innerWidth, innerHeight);
    }

    /** Centres the paper above the top edge and sets the speed for the current height. */
    method Reset(u: real, innerWidth: nat, innerHeight: nat)
      requires 0.0 <= u < 1.0
      modifies this`x, this`y, this`rotation, this`speed, this`wobble
      ensures State() == PaperMotion.ResetState(old(State()), u, innerWidth, innerHeight)
    {
      x := (innerWidth as real) / 2.0;
      y := PaperMotion.StartY;
      rotation := 0.0;
      speed := PaperMotion.Speed(innerHeight);
      wobble := u * 0.5 - 0.25;
    }

    /** One frame of the falling loop. */
    method Animate(resizing: bool, u: real, innerWidth: nat, innerHeight: nat)
      requires Valid() && animating && 0.0 <= u < 1.0
      modifies this
      ensures Valid()
      ensures State() == PaperMotion.PaperFrame(old(State()), resizing, u, innerWidth, innerHeight)
    {
      if resizing {
        Reset(u, innerWidth, innerHeight);
        animating := false;
        return;
      }
      y := y + speed;
      x := x + wobble;
      rotation := rotation + wobble;
      var groundY := GroundY(innerHeight);
      if y > groundY {
        animating := false;
        Land(groundY);
        return;
      }
    }

    /** Flags the paper as landed and rests it just above the ground line. */
    method Land(groundY: real)
      modifies this`hasLanded, this`y
      ensures State() == PaperMotion.Landed(old(State()), groundY)
    {
      hasLanded := true;
      y := groundY - PaperMotion.LandOffset;
    }

    /** The resize listener's guard: only a landed paper of a started scene schedules the
        debounced callback. */
    predicate ResizeArmed()
      reads this, manager
      ensures Valid() && ResizeArmed() ==> hasLanded && !animating
    {
      manager.hasStarted && hasLanded
    }

    /** The debounced resize callback, scheduled only while the listener's guard holds: a paper
        resting above the new ground's rest position clears its landed flag and starts falling
        again from where it is. No other frame loop of the paper is running then. */
    method ResizeSettled(innerHeight: nat)
      requires Valid() && ResizeArmed()
      modifies this`hasLanded, this`animating
      ensures Valid()
      ensures State() == PaperMotion.AfterResize(old(State()), innerHeight)
      ensures !old(animating)
    {
      if y < GroundY(innerHeight) - PaperMotion.LandOffset {
        hasLanded := false;
        animating := true;
      }
    }
  }
}
