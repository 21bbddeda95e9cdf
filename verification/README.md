# Face detector core: frame admission gate and bounds mapper

This project models the two pieces of logic inside the Android `FaceDetector`
class that do not depend on the camera, the detection engine or the UI toolkit:

- **Bounds mapper** (`Face.toFaceBounds`). It converts a detected face rectangle
  from the source frame's pixel space to the overlay's pixel space. For 90° and
  270° rotations it swaps the frame's width and height. For the front lens it
  mirrors left/right about the effective width. It then scales each axis by
  overlay size over effective size. The tracking identity is carried through.
  Module `BoundsMapper`, file `bounds_mapper.dfy`.
- **Frame admission gate** (`process`, `detectFaces` and the detector's
  success and failure callbacks). A busy flag lets at most one frame into
  detection at a time. Frames that arrive while busy are dropped. The first
  frame that arrives before the overlay is attached produces a configuration
  error. As written, it also leaves the gate busy for good, so every later
  frame is dropped (see Findings).
  Module `AdmissionGate`, file `admission_gate.dfy`.

Each `synchronized` block is one atomic step of a pure transition function.
The gate state is the busy flag, whether an executor was ever created, and the
one piece of outstanding work (a queued executor task or a running detection).
Completion callbacks can only fire for a detection that was started. An action
that is not enabled leaves the state unchanged. `Dropped` is only a marker in
the event log: a busy `process` leaves the gate exactly as it was.

The gate's steps take a `Policy`. `AsWritten` is the code's behaviour.
`ReleaseOnEarlyExit` also clears the flag on the two paths where the code
forgets to (see Findings). The gate is meant to stay usable after a
configuration error: the error message asks the caller to attach the overlay,
which only helps if a later frame can be admitted. Every accepted frame is also
meant to release the flag exactly once. The code does neither. The `AsWritten`
policy follows the code. The lemmas about the corrected policy state the
intended behaviour.

Supporting modules: `Wrappers` (the optional tracking id) and `Frames` (the
frame fields the detector reads: pixel data present or not, size, rotation,
lens).

## Model

| member | source | states |
|---|---|---|
| BoundsMapper.EffectiveSize | facedetector/src/main/java/avnishkumar/io/facedetector/FaceDetector.kt:90-92 | For rotation exactly 90 or 270 the effective width is the frame height and the effective height is the frame width. For any other rotation value both are unchanged. |
| BoundsMapper.QuarterTurnSwapsAxes | facedetector/src/main/java/avnishkumar/io/facedetector/FaceDetector.kt:90-92 | A quarter-turn frame has the same effective space as the frame held upright with its dimensions exchanged. It is the transpose of the same frame at a non-quarter rotation. |
| BoundsMapper.MappableIffNonZeroFrame | facedetector/src/main/java/avnishkumar/io/facedetector/FaceDetector.kt:91-94 | The scale factors' divisors are non-zero exactly when the frame has no zero dimension, whatever the rotation. |
| BoundsMapper.Mirror | facedetector/src/main/java/avnishkumar/io/facedetector/FaceDetector.kt:95-97 | Front lens: left becomes width − right and right becomes width − left. Back lens: the box passes through unchanged. Top and bottom are never touched, and the horizontal extent is preserved. |
| BoundsMapper.MirrorInvolution | facedetector/src/main/java/avnishkumar/io/facedetector/FaceDetector.kt:95-97 | Mirroring twice about the same width gives the original box. |
| BoundsMapper.MirrorKeepsBoxInFrame | facedetector/src/main/java/avnishkumar/io/facedetector/FaceDetector.kt:96-97 | Mirroring keeps left ≤ right, and a box inside [0, width] stays inside it. |
| BoundsMapper.MapBounds | facedetector/src/main/java/avnishkumar/io/facedetector/FaceDetector.kt:89-108 | The output keeps the tracking id. Top and bottom are only scaled by overlay height / effective height, never mirrored. Let scaleX be overlay width / effective width. Back lens: left and right are scaleX times the input left and right. Front lens: left is scaleX × (effective width − right) and right is scaleX × (effective width − left). This holds for every box, including boxes partly outside the frame. The output width is the input width times scaleX. |
| BoundsMapper.FrontIsMirroredBack | facedetector/src/main/java/avnishkumar/io/facedetector/FaceDetector.kt:93-103 | Mirroring and scaling commute. The front-lens box is the back-lens box reflected about the overlay width, with the same top and bottom. |
| BoundsMapper.FullFrameMapsToOverlay | facedetector/src/main/java/avnishkumar/io/facedetector/FaceDetector.kt:93-103 | A box covering the whole effective frame maps to the whole overlay, for either lens. |
| BoundsMapper.MapBoundsStaysInOverlay | facedetector/src/main/java/avnishkumar/io/facedetector/FaceDetector.kt:93-103 | Take a positive frame and a non-negative overlay. A well-ordered box inside the effective frame maps to a well-ordered box inside the overlay. |
| BoundsMapper.ExampleFrontQuarterTurn | facedetector/src/main/java/avnishkumar/io/facedetector/FaceDetector.kt:89-108 | A 1080×1920 frame at 90°, front lens, overlay 1920×1080: (100,200,300,400) maps to (1620,200,1820,400). |
| BoundsMapper.ExampleBackQuarterTurn | facedetector/src/main/java/avnishkumar/io/facedetector/FaceDetector.kt:89-108 | The same inputs with the back lens map (100,200,300,400) to itself. |
| BoundsMapper.ExampleDoubleScale | facedetector/src/main/java/avnishkumar/io/facedetector/FaceDetector.kt:89-108 | A 640×480 frame at 0°, back lens, overlay 1280×960: (10,10,20,20) maps to (20,20,40,40). |
| BoundsMapper.MapAll | facedetector/src/main/java/avnishkumar/io/facedetector/FaceDetector.kt:79 | The delivered list has one entry per detected face, in the engine's order. Each entry is that face mapped against the same frame and overlay. |
| BoundsMapper.MapAllKeepsIdentities | facedetector/src/main/java/avnishkumar/io/facedetector/FaceDetector.kt:79 | Position by position, the delivered list carries the detected faces' tracking ids. |
| AdmissionGate.Process | facedetector/src/main/java/avnishkumar/io/facedetector/FaceDetector.kt:55-69 | While busy: the gate is unchanged and nothing is dispatched or reported. While idle with an executor: the flag is set and the frame is dispatched exactly once. While idle without one: exactly one NotAttached error, no dispatch, and the flag stays set (as written). |
| AdmissionGate.DetectFaces | facedetector/src/main/java/avnishkumar/io/facedetector/FaceDetector.kt:71-74 | Running the queued task emits nothing. A frame with pixel data moves into detection. A frame without data ends the task and, as written, leaves the flag set. No path touches the executor. |
| AdmissionGate.Complete | facedetector/src/main/java/avnishkumar/io/facedetector/FaceDetector.kt:75-87 | A completion clears the flag and the outstanding work, and then emits exactly its one delivery or error. |
| AdmissionGate.Step | facedetector/src/main/java/avnishkumar/io/facedetector/FaceDetector.kt:41-87 | Every step keeps the reachable-state invariant. Outstanding work implies the flag is set and the frame is mappable. Only a submission sets the flag. As written, only a completion callback clears it. The corrected policy keeps "busy exactly while work is outstanding". |
| AdmissionGate.Run | facedetector/src/main/java/avnishkumar/io/facedetector/FaceDetector.kt:55-87 | A whole run keeps the same invariants and emits at most one event per action. |
| AdmissionGate.NextSubmitAcceptedAfterCompletion | facedetector/src/main/java/avnishkumar/io/facedetector/FaceDetector.kt:75-87 | After either callback the flag is clear. With an executor, the very next submitted frame is dispatched. |
| AdmissionGate.SuccessDeliversMappedFaces | facedetector/src/main/java/avnishkumar/io/facedetector/FaceDetector.kt:75-81 | A success delivers one list. It holds every detected face mapped against the frame that was detected, with tracking ids in order. |
| AdmissionGate.FailureReportsOnce | facedetector/src/main/java/avnishkumar/io/facedetector/FaceDetector.kt:82-87 | A detector failure clears the flag and reports exactly one DetectorFailed error. |
| AdmissionGate.NoExecutorSubmitWedges | facedetector/src/main/java/avnishkumar/io/facedetector/FaceDetector.kt:57-63 | As written, a submit without an executor reports NotAttached. It leaves the gate busy with nothing outstanding, so nothing can clear the flag. |
| AdmissionGate.MissingDataWedges | facedetector/src/main/java/avnishkumar/io/facedetector/FaceDetector.kt:72 | As written, a dispatched frame without pixel data silently leaves the gate busy with nothing outstanding. |
| AdmissionGate.WedgedDropsEverything | facedetector/src/main/java/avnishkumar/io/facedetector/FaceDetector.kt:56-67 | Once wedged, the gate stays wedged through any later run, including attaching the overlay. Every later frame is dropped: one Dropped per submission and no other event. |
| AdmissionGate.BusyDropsUntilCompletion | facedetector/src/main/java/avnishkumar/io/facedetector/FaceDetector.kt:56-67 | Admission exclusivity: as written, while busy and until a completion callback fires, every submitted frame is dropped and nothing else is emitted. |
| AdmissionGate.UnattachedNeverDispatches | facedetector/src/main/java/avnishkumar/io/facedetector/FaceDetector.kt:56-66 | Until the overlay is attached, no frame is ever dispatched, under either policy. |
| AdmissionGate.ReleasingGateRejectsUntilAttached | facedetector/src/main/java/avnishkumar/io/facedetector/FaceDetector.kt:57-63 | The corrected gate reports NotAttached once for every frame submitted before attach, with no other event. |
| AdmissionGate.ReleasingGateNeverWedges | facedetector/src/main/java/avnishkumar/io/facedetector/FaceDetector.kt:57-63 | From a consistent state, the corrected gate is never busy with nothing outstanding, whatever happens next. |
| AdmissionGate.ReleasingGateAcceptsWhenIdle | facedetector/src/main/java/avnishkumar/io/facedetector/FaceDetector.kt:56-66 | After any run of the corrected gate, if nothing is outstanding and an executor exists, the next frame is dispatched. |
| AdmissionGate.ExampleSubmitBeforeAttach | facedetector/src/main/java/avnishkumar/io/facedetector/FaceDetector.kt:55-69 | Submit, attach, submit: as written this gives NotAttached then Dropped. The corrected gate gives NotAttached then Dispatched. |
| AdmissionGate.ExampleFrameWithoutData | facedetector/src/main/java/avnishkumar/io/facedetector/FaceDetector.kt:55-74 | Submit a data-less frame, run it, submit a good frame: as written the good frame is dropped. The corrected gate dispatches it. |

## Left out

- The detection engine, its options builder and image construction (FaceDetector.kt:22-30, 73-74) are foreign library calls. A detection is reduced to "it succeeded with these candidates" or "it failed". A face is reduced to a tracking id and an integer box.
- The configuration constants (minimum face size 0.15, tracking enabled, accuracy and landmark modes) only configure the engine. The logging tag is unused by the core.
- Executors, the main-looper executor and the `synchronized` locks (lines 32-34, 42, 47, 65, 80) are not modelled. Each locked block is one atomic step. Results posted to the main thread are one `Delivered` event emitted by the completion step. The gap between clearing the flag and delivering is not modelled.
- Detach (lines 45-49) only shuts the executor down, and the executor stays "initialized". Detach therefore changes nothing in the modelled state and is not an action. A submit after detach calls `execute` on a shut-down executor. What that does is library behaviour outside the model.
- The failure listener is optional and set after construction (lines 31, 52-54, 110-111). `Error` stands for a call to `onError`, whether or not a listener is set. The log line (112) and the listener's default bodies (115-118) are omitted.
- The frame type, `FaceBounds` and the overlay view are not part of this model. Only the frame fields read here are kept. The pixel format is passed to the engine and is omitted.
- BoundsMapper.MapBounds: the scale factors and products are `Float` in the code and exact `real` here. No IEEE rounding, infinities or NaN are modelled. Division by zero is excluded by requiring non-zero effective dimensions (`Mappable`; frames must satisfy it to be submitted).
- BoundsMapper.Mirror: `width - right` is 32-bit `Int` arithmetic in the code and unbounded here. Wrap-around is not modelled.
- Rotation values other than 0/90/180/270 are not rejected. As in the code, any value other than exactly 90 or 270 leaves the axes unswapped.

## Findings

| source | as written | input that shows it | evidently intended | confidence | as-written member | corrected member |
|---|---|---|---|---|---|---|
| facedetector/src/main/java/avnishkumar/io/facedetector/FaceDetector.kt:57-63 | The flag is set before the executor check, and the missing-executor error path returns with it still set. No transition ever clears it. | From a fresh detector: submit a frame, attach the overlay, submit again. The second frame is dropped, and so is every frame after it. | The error path clears the flag, so a frame submitted after attaching is accepted. The error message tells the caller to attach and retry. | not executed; high | AdmissionGate.NoExecutorSubmitWedges | AdmissionGate.ReleasingGateNeverWedges |
| facedetector/src/main/java/avnishkumar/io/facedetector/FaceDetector.kt:72 | A dispatched frame with null data returns before any callback is registered, so the flag is never cleared. | With the overlay attached: submit a frame without data, let the executor run it, then submit a good frame. The good frame is dropped, and so is every frame after it. | A data-less frame is ignored without blocking the gate. | not executed; high | AdmissionGate.MissingDataWedges | AdmissionGate.ReleasingGateNeverWedges |
