# Falling petals, paper and love letter — a Dafny model

This project models the animation logic of a small single-page Valentine scene (`script.js`):

- petals fall from above the viewport and land on a ground line at 90% of the window height;
- a petal manager keeps the set of falling petals, gates the start behind a play button, and creates at most one "paper";
- the paper falls at a constant speed and rests just above the ground; its own resize callback, taken alone, makes it fall again when a resize lowers the ground;
- clicking the paper opens a letter whose lines are typed out one character per 50 ms and which ends with a signature.

The source works by mutating objects from timer and animation-frame callbacks. The model keeps that form. Each callback is one method of a class: `Scene.Petal`, `Scene.PetalManager`, `Scene.PetalCreation` (the `created` counter of `createPetals`), `Scene.Paper` and `Typewriter.TypewriterLine`. The frame, reset and resize callbacks of petals and the paper, and the ticks of a typewriter line, are proved to leave their object in the state that a pure function gives:

- `PetalMotion.PetalFrame` and `PetalMotion.Spawn` for a petal;
- `PaperMotion.PaperFrame`, `PaperMotion.ResetState`, `PaperMotion.Landed` and `PaperMotion.AfterResize` for the paper;
- `Typewriter.Revealed` for a typewriter line.

The methods of the manager and of the creation loop (`Start`, `AfterFadeOut`, `CreatePetals`, `PaperTimer`, `AddPetal`, `RemovePetal`, `ClearAllPetals`, `PetalCreation.Frame`) state their new petal set, paper slot, counter and flags directly in their `ensures`. `Typewriter.StartTypewriter` states the start delay of each line and the fresh line it prepares for it. Lemmas then prove what the source promises over whole runs of frames.

Conventions:

- Window sizes (`innerWidth`, `innerHeight`) are `nat` parameters; pixel positions are `real`s.
- Each `Math.random()` result is a parameter in [0, 1): `PetalMotion.Draw` for a petal, `u` for the paper's drift.
- The resize flag a callback reads is a `resizing: bool` parameter. In the source, `Petal` and `Paper` read `manager.isResizing`, a property that is never defined (script.js:49, 88, 122, 127, 427, 489). The manager's own `state.isResizing` starts false and is never written (script.js:151, 208, 279). So in every run of the source each `resizing` parameter is false. The model states each property for both values because the source branches on it.
- A petal's `phase` and the paper's `animating` flag record whether the object's frame loop is still requesting frames. The step functions leave an object unchanged once its loop has ended.
- Typewriter times are whole milliseconds, counted from the moment `startTypewriter` runs. That call itself runs 750 ms after the click (script.js:525-527). Each timer is taken to fire exactly when it is due; late firing (a throttled background tab, a busy event loop) is not modelled, so the typewriter lemmas order due times.

Some behaviours of the code are easy to misread; the model follows the code:

- The paper's own resize callback, taken alone, makes a landed paper fall again only when the new ground is lower: its rest position must be above the new rest position (script.js:480). A resize that raises the ground leaves it where it is. The callback is scheduled only for a landed paper of a started scene (script.js:473), and, without the manager's resize callback, a landed paper has no frame loop running, so the fall it restarts is the paper's only loop.
- The resize callbacks debounce with 100 ms. The configured `resizeDelay` of 250 ms (script.js:145) is never used, and nor are `paperDelay` (500 ms, the paper timer's delay, script.js:144, 211) and `fadeOutDuration` (300 ms, the overlay fade, script.js:146, 212) beyond those two timers.
- A paper that falls again continues from its resting `y` at its old speed, without a reset (script.js:480-483).
- A frame taken while resizing resets the paper but requests no further frame (script.js:427-431), so its loop stops there.
- `clearAllPetals` empties the set but does not stop the petals' own frame loops. A cleared petal that later lands still adds a replacement. So `Scene.Petal.Animate` does not require the petal to be in the active set, and it keeps the count only when it was. `clearAllPetals` is called only from `restoreOriginalState` (script.js:292), which nothing calls, so in the running program this case never arises.

## Model

| member | source | states |
|---|---|---|
| `Viewport.PetalCount` | script.js:143 | the petal count is 10 exactly when the width is below 768, and 20 exactly otherwise |
| `PetalMotion.Spawn` | script.js:36-44 | a reset petal has size in [10, 25), y = −size < 0 (above the viewport), x in [0, width) (0 on a zero-width window), rotation in [0, 360), speed in [1, 3), wobble in [−1, 1) |
| `PetalMotion.FrameExit` | script.js:47-81 | the guards of a frame partition the cases in source order: resizing; otherwise y + speed > ground + 100; otherwise y + speed > ground; otherwise it keeps falling |
| `PetalMotion.RunFrozen` | script.js:46-84 | once a petal has landed or been removed no frame changes it, since its loop requests no further frame |
| `PetalMotion.LeavesFallingOnce` | script.js:46-84 | over any sequence of frames the petal leaves the falling state at most once, and exactly once when it ends landed or removed |
| `PetalMotion.RunNeverLifts` | script.js:55-58 | frames never decrease y and never change size, speed or wobble |
| `PetalMotion.FallingFrameDescends` | script.js:56-58 | a falling frame with no resize adds speed to y, so y strictly increases, and adds wobble to both x and rotation |
| `PetalMotion.CalmRunNeverRemoves` | script.js:64-77 | with a fixed ground, no resize and speed below 100, a petal starting at or above the ground is never removed: it lands before it could pass the lower margin |
| `PetalMotion.CalmRunLands` | script.js:64-77 | with a fixed ground and no resize, a falling petal lands once its frames could carry it past the ground |
| `PetalMotion.SpawnedPetalLands` | script.js:36-84 | a freshly reset petal given more than 0.9H + 25 calm frames lands, and leaves the falling state exactly once |
| `PaperMotion.Speed` | script.js:398-407 | the paper's speed is positive and covers the distance 0.9H + 100 in exactly 654 frames |
| `PaperMotion.ResetState` | script.js:390-411 | a reset centres the paper at x = width/2, y = −100, rotation 0, sets the speed for the current height and a drift in [−0.25, 0.25), and keeps the landed flag |
| `PaperMotion.Initial` | script.js:313-364 | a new paper starts at y = −100 with the height's speed, not landed, with its frame loop running |
| `PaperMotion.FallStep` | script.js:425-451 | each frame of `Fall` is one `PaperFrame` with no resize in progress, so the results about `Fall` are about runs of the paper's animation frame |
| `PaperMotion.FallProgress` | script.js:433-447 | while it stays above the ground, n frames move the paper by n·speed down and n·wobble sideways and in rotation |
| `PaperMotion.StillAbove` | script.js:433-447 | a paper that reaches the ground only after `total` frames is still falling, unlanded and above the ground after fewer |
| `PaperMotion.PaperFallingBeforeGround` | script.js:394-447 | from a reset the paper is still falling and above the ground for the first 653 frames |
| `PaperMotion.PaperLandsOnFrame655` | script.js:394-457 | from a reset the paper sits exactly on the ground after 654 frames, still falling; frame 655 is the first past the ground and lands it at ground − 40 with its loop ended |
| `PaperMotion.RefallIffGroundLowered` | script.js:476-484 | a paper landed on ground g falls again after a resize exactly when the new ground is below g; it keeps its y and speed and restarts its loop; a resize to the same height changes nothing |
| `PaperMotion.ResizingFrameNeverLands` | script.js:426-431 | a frame taken while resizing does not land the paper, moves it back to y = −100 and stops its loop |
| `Typewriter.NextStart` | script.js:574-576 | each line starts exactly len·50 + 500 ms after the line before it |
| `Typewriter.StartTypewriter` | script.js:550-577 | the `forEach` loop gives line i the start Σ_{j<i}(len_j·50 + 500) and prepares one distinct fresh line per text, empty and running, flagged last exactly when i is the final index |
| `Typewriter.StartsGrow` | script.js:576 | start delays never decrease along the letter |
| `Typewriter.LinesInSequence` | script.js:553-577 | every tick of a line, including the one that clears its interval, is due before any tick of a later line |
| `Typewriter.SignatureComesLast` | script.js:559-571 | a non-empty letter shows its signature; it is due 500 ms after the last line's interval ends, and after every tick of every line is due |
| `Typewriter.RevealedIsPrefix` | script.js:558-564 | after k ticks a line shows exactly the first min(k, len) characters of its text |
| `Typewriter.RevealedInFull` | script.js:560-563 | after len ticks a line shows its whole original text |
| `Typewriter.TypewriterLine.constructor` | script.js:554-558 | a line being typed starts empty with character index 0 and its interval running |
| `Typewriter.TypewriterLine.Tick` | script.js:560-573 | a tick appends exactly the next character and advances the index; with none left it clears the interval on tick `LastTick(text)` and schedules the signature exactly when it is the last line |
| `Scene.Petal.constructor` | script.js:2-21 | a new petal belongs to its manager, has the reset attributes and is falling |
| `Scene.Petal.Reset` | script.js:36-44 | the petal's attributes become those of `Spawn` |
| `Scene.Petal.Animate` | script.js:46-84 | one frame gives the state of `PetalMotion.PetalFrame`. A petal that stops falling leaves the active set in the same step. A landing swaps it for one fresh petal, so the set's size is unchanged when the petal was in it. Every member of the set stays a falling petal of this manager. |
| `Scene.Petal.Land` | script.js:86-136 | landing removes the petal from the set and, when not resizing, adds exactly one fresh falling petal; when resizing it only removes |
| `Scene.SwapKeepsSize` | script.js:94-96 | removing a member from a set and adding a new one keeps the set's size |
| `Scene.PetalManager.constructor` | script.js:140-161 | initial manager state: count from the width, not started, no petals, no paper |
| `Scene.PetalManager.AddPetal` | script.js:248-252 | creates one fresh falling petal, inserts it, returns it; the set grows by exactly one |
| `Scene.PetalManager.RemovePetal` | script.js:254-256 | removes the petal; for an absent petal the set is unchanged |
| `Scene.PetalManager.ClearAllPetals` | script.js:258-274 | the active set ends empty and the paper slot null |
| `Scene.PetalManager.Start` | script.js:187-198 | the first click starts the scene and snapshots the petals; once started, a click changes nothing |
| `Scene.PetalManager.AfterFadeOut` | script.js:201-204 | the fade-out timer starts a creation of exactly the configured petal count |
| `Scene.PetalManager.CreatePetals` | script.js:276-286 | a creation starts with nothing created and its loop running |
| `Scene.PetalManager.PaperTimer` | script.js:206-211 | a paper is created exactly when the slot is empty and no resize is in progress; otherwise the slot is unchanged |
| `Scene.PetalCreation.constructor` | script.js:277 | the creation counter starts at 0 |
| `Scene.PetalCreation.Frame` | script.js:278-284 | each frame adds exactly one petal while not resizing and below the count; otherwise the loop ends, the set is unchanged, and it never exceeds `count` petals |
| `Scene.Paper.constructor` | script.js:307-364 | a new paper belongs to its manager and has the `Initial` state |
| `Scene.Paper.Reset` | script.js:390-411 | the paper's state becomes `ResetState` of the old one |
| `Scene.Paper.Animate` | script.js:425-451 | one frame gives the state of `PaperMotion.PaperFrame` and keeps the rule that a landed paper has no frame loop |
| `Scene.Paper.Land` | script.js:453-459 | landing sets the landed flag and y = ground − 40 |
| `Scene.Paper.ResizeArmed` | script.js:473 | the paper's resize listener schedules its callback only for a landed paper of a started scene, and such a paper has no frame loop running |
| `Scene.Paper.ResizeSettled` | script.js:473-484 | the debounced resize callback, called only when the listener's guard held, gives the state of `AfterResize`, keeps the rule that a landed paper has no frame loop, and never restarts the fall beside a running loop |
| `PaperMotion.LandedStaysStill` | script.js:425-484 | a new paper, every frame and the resize callback of a landed paper keep "landed implies no frame loop", so the resize callback never starts a second loop |

## Left out

- DOM creation and styling: transform strings, the petal and landed-petal elements, card markup, class toggles, the ground container, `clearState` (script.js:7-33, 99-123, 169-179, 343-359, 413-416, 503-522). These are display only.
- The landed-petal visual: its random ground offset and rotation, and its 2 s and 1 s fade and remove timers (script.js:99-131). These have visual effects only.
- Audio: creating, configuring, playing and pausing it, its listeners, `clearAudio` and `destroy` (script.js:319-342, 365-373, 418-423, 461-467). It is a foreign media API whose failures are only logged. `ClearAllPetals` therefore drops the paper without modelling its `destroy`.
- The paper's `state.isPlaying` flag (script.js:316). Nothing reads it or writes it after construction.
- Event wiring: click and touch listeners, `preventDefault`, closing the overlay, and `handleInteraction`'s guards for resizing and a missing overlay (script.js:187, 215-221, 375-387, 488-544). These are UI plumbing. Of the listeners, only the guard of the paper's resize listener is modelled, as `Scene.Paper.ResizeArmed` (script.js:473).
- Timer and frame scheduling itself, and the debounce `clearTimeout`/`setTimeout` (script.js:224-231, 469-476). Each callback body is a method. Timers are taken at their due times; the order between timers of different objects is not modelled.
- The letter's fixed text (script.js:512-519) is a parameter of the typewriter schedule.
- Characters are Dafny `char`s. JavaScript's UTF-16 code units are not modelled.
- The manager's resize callback (script.js:233-243). It dereferences `this.paper` without a null check (script.js:236). On a landed paper it assigns `groundY - this.config.groundOffset`, and `groundOffset` is undefined, so `y` becomes NaN (script.js:241). A plain real cannot represent NaN. The callback would also reset a paper that is still falling and start a second frame loop beside the running one (script.js:237-238). Whichever of the two loops first sees `y > groundY` lands the paper and stops (script.js:442-445); the other keeps moving it on from ground − 40 (script.js:447). So in the full program a landed paper can still have a frame loop running, which `Scene.Paper.Valid` rules out. Leaving it out changes what the program does as a whole:
  - the manager registers its resize listener at start-up (script.js:165), before the paper registers its own (script.js:361);
  - both debounce by 100 ms, so after a resize the manager's callback runs first;
  - on a landed paper it sets `y` to NaN, and the paper's test `this.y < newGroundY - 40` (script.js:480) is then false;
  - so in the running program a landed paper never falls again. `PaperMotion.RefallIffGroundLowered` and `Scene.Paper.ResizeSettled` describe the paper's own callback taken alone.
- `restoreOriginalState` (script.js:288-303) has no caller. It is the only caller of `clearAllPetals` (script.js:292), so `Scene.PetalManager.ClearAllPetals` models code that never runs in the program. `originalPetals` is kept as a set snapshot: the array's insertion order is not modelled.
- `console.log` and `console.error` calls.
- Positions are exact reals rather than IEEE doubles. `10.9 * 60` is exactly 654 in double arithmetic too, but the speed and its repeated additions round. `PaperMotion.PaperLandsOnFrame655` holds for exact reals. In doubles the paper lands on frame 654 or 655 depending on the height: with H = 1000, 654 additions from −100 give y ≈ 900.0000000000045, just past the ground at 900, so it lands on frame 654; with H = 800 it lands on frame 655.
