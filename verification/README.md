# ShaCamera zoom and output-size core, in Dafny

This project models the numeric core of the ShaCamera Android app:

- **Pinch zoom** (`CameraRepository.Base`). A zoom state machine driven by two-finger touch events. It combines an optical zoom, sent to the sensor as a centred crop region, with a software "bitmap" zoom that takes over once the optical zoom is exhausted. The state has four fields: `fingerSpacing`, `zoomLevel`, `zoom` (the crop rectangle) and `bitmapZoom`. It is an immutable `ZoomState`, and `handleZoom`, `bitmapZoom`, `setZoom` and `setCameraZoomToMax` are pure functions over it. The crop rectangle each call writes into the capture request is returned with the new state.
- **Output-size selection** (`CameraService.Base`):
  - `getOptimalPreviewSize` filters the advertised sizes by an integer aspect test. It splits the matches into those that cover the viewport and those that do not, then picks a smallest or largest by area under one of two policies (`dlssIsOn`).
  - `getCaptureSize` picks a greatest JPEG size under a caller's comparator.

Files:

- `optional.dfy` (module `Optional`): the `Option` type for values that may be absent.
- `real_arith.dfy` (module `RealArith`): order facts about products and quotients of reals used by the zoom proofs.
- `kotlin_math.dfy` (module `KotlinMath`): Kotlin's `roundToInt`, `Float.toInt` and truncating `Int /`, written out over `int` and `real`.
- `camera_repository.dfy` (module `CameraRepository`): the zoom state machine.
- `zoom_properties.dfy` (module `ZoomProperties`): invariants and gesture-level properties of the state machine.
- `camera_service.dfy` (module `CameraService`): size selection.
- `selection_properties.dfy` (module `SelectionProperties`): what each selection policy picks.

Modelling decisions:

- `Float` becomes exact `real`.
- `roundToInt` is `(x + 0.5).Floor`: nearest integer, ties up.
- `Float.toInt()` truncates toward zero.
- Kotlin `Int` division truncates toward zero (`TruncDiv`). Dafny's own `/` is Euclidean, so the difference is written out.
- Finger spacing is an input real: the distance computation is not modelled.
- A camera characteristic that may be unreported is an `Option`. So is a configuration map that may be absent.
- `ComparableByArea` is not part of this model. It is assumed to order sizes by `width * height` (`CameraService.ByArea`). `ByAreaIsComparator` proves that this ordering satisfies the comparator laws the min/max scans rely on.
- `Collections.min`, `Collections.max` and `maxWith` are modelled as the left-to-right scans they are (`Least`, `Greatest`, `MaxWith`). `maxWith` is taken in its nullable form, which yields null on an empty list: that form is what the `?: Size(0, 0)` fallback of `getCaptureSize` is written against. Each result is proved to be a member of the list and extremal under any lawful comparator.

Behaviour of the code worth knowing (the model follows the code):

- Any pointer count other than two returns `(zoomLevel * bitmapZoom, true)`, not `false`.
- Such an event does not reset the spacing baseline. Lifting a finger and putting it back therefore applies a zoom step on the first sample of the new contact, measured against the old spacing. `RegripAppliesStaleBaseline` exhibits this.
- Equal spacing changes neither zoom field, but the crop region is still recomputed and written.
- `setCameraZoomToMax` writes the stored crop region. It does not recompute the region against the new sensor.
- The four fields outlive a camera switch, and no member re-clamps them against the new camera's maximum. A zoom level reached on one camera can therefore sit above the next camera's maximum.
  - A pinch step leaves it above exactly when the bitmap zoom is not 1 (then only the bitmap zoom shrinks) or when `zoomLevel - 0.8 > maxZoom` (`SwitchedPinchStaysAbove`).
  - A spreading step sets the optical zoom to `min(zoomLevel + 0.8, maxZoom)`, so it snaps down to the new maximum. The same step may grow the bitmap zoom by 1/25. The reported zoom therefore drops exactly when the bitmap zoom cannot grow (while recording, or when the growth test fails) or when the level exceeds the maximum by more than 1/25 of the maximum (`zoomLevel > 26/25 * maxZoom`) (`SwitchedSpreadSnapsDown`). Otherwise it does not drop: it rises unless `zoomLevel == 26/25 * maxZoom`, where it stays put (`SnapDownStepRises`).
  - `CameraSwitchLeavesZoomAboveMax` gives one instance of each.

## Model

| member | source | states |
|---|---|---|
| KotlinMath.RoundToInt | app/src/main/java/com/maxim/shacamera/camera/data/CameraRepository.kt:79-82 | `roundToInt` yields the nearest integer, a tie going up: `x - 1/2 < r <= x + 1/2` |
| KotlinMath.TruncToInt | app/src/main/java/com/maxim/shacamera/camera/data/CameraRepository.kt:61 | `Float.toInt()` drops the fraction toward zero: `abs(r) <= abs(x) < abs(r) + 1`, with the sign of `x` |
| KotlinMath.TruncDiv | app/src/main/java/com/maxim/shacamera/camera/data/CameraRepository.kt:83-86 | Kotlin `Int /`: the remainder is smaller than the divisor in magnitude and has the dividend's sign (truncation toward zero) |
| CameraRepository.CanGrowBitmapIff | app/src/main/java/com/maxim/shacamera/camera/data/CameraRepository.kt:61 | the test `(screenMinSize / (b + b/25)).toInt() != 0` holds exactly when `26b/25 <= abs(screenMinSize)` |
| CameraRepository.ZoomIn | app/src/main/java/com/maxim/shacamera/camera/data/CameraRepository.kt:58-64 | spreading sets the optical zoom to `min(zoomLevel + 0.8, maxZoom)`. The bitmap zoom never shrinks. It changes exactly when the headroom is at most 0.8, not recording, and the growth test passes. It then becomes `b*26/25` and stays at most the screen size. Spacing and crop are untouched |
| CameraRepository.ZoomOut | app/src/main/java/com/maxim/shacamera/camera/data/CameraRepository.kt:65-76 | pinching with bitmap zoom 1 sets the optical zoom to `max(zoomLevel - 0.8, 1)`. Otherwise the optical zoom holds and the bitmap zoom becomes `max(b*24/25, 1)` |
| CameraRepository.CropRegion | app/src/main/java/com/maxim/shacamera/camera/data/CameraRepository.kt:78-86 | the crop is centred: left margin equals right margin, top equals bottom. For zoom at least 1 it lies inside `[0,W]x[0,H]`, and each side is within `(side/zoom - 1/2, side/zoom + 3/2]` |
| CameraRepository.MarginFits | app/src/main/java/com/maxim/shacamera/camera/data/CameraRepository.kt:78-85 | for zoom at least 1 one side's margin lies in `[0, side/2]` and the kept span approximates `side/zoom` |
| CameraRepository.HandleZoom | app/src/main/java/com/maxim/shacamera/camera/data/CameraRepository.kt:38-99 | missing sensor data returns `(zoom, false)` with no change. Any other pointer count than two returns `(zoom, true)` with no change, baseline included. The first two-pointer sample only records the spacing. Later samples take a spreading, pinching or equal step. On a spreading step the optical zoom becomes `min(zoomLevel + 0.8, maxZoom)`, and the bitmap zoom becomes `b*26/25` exactly when the headroom is at most 0.8, not recording, and the growth test passes. Every later sample then writes and stores the recomputed crop. The returned factor is `zoomLevel*bitmapZoom` of the new state |
| CameraRepository.BitmapZoom | app/src/main/java/com/maxim/shacamera/camera/data/CameraRepository.kt:101 | the bitmap zoom is the factor by which the reported zoom exceeds the optical zoom |
| CameraRepository.SetZoom | app/src/main/java/com/maxim/shacamera/camera/data/CameraRepository.kt:102-105 | no field changes. It writes the stored crop and returns `zoomLevel*bitmapZoom` |
| CameraRepository.SetCameraZoomToMax | app/src/main/java/com/maxim/shacamera/camera/data/CameraRepository.kt:107-114 | the bitmap zoom becomes 1 and nothing else changes. It writes the stored (not recomputed) crop and returns the optical zoom, which is now the whole reported zoom |
| ZoomProperties.HandleZoomKeepsInvariant | app/src/main/java/com/maxim/shacamera/camera/data/CameraRepository.kt:56-76 | for one camera's characteristics with `maxZoom >= 1`, every event keeps `1 <= zoomLevel <= maxZoom` and `bitmapZoom >= 1` |
| ZoomProperties.ReplayKeepsInvariant | app/src/main/java/com/maxim/shacamera/camera/data/CameraRepository.kt:54-92 | any sequence of events delivered under one camera's characteristics keeps the clamping invariant for that camera |
| ZoomProperties.ReachableStatesKeepInvariant | app/src/main/java/com/maxim/shacamera/camera/data/CameraRepository.kt:33-36 | from the initial fields (`zoomLevel = 1`, `bitmapZoom = 1`) every state reachable by `handleZoom` events under one camera's characteristics satisfies the invariant |
| ZoomProperties.SetCameraZoomToMaxKeepsInvariant | app/src/main/java/com/maxim/shacamera/camera/data/CameraRepository.kt:102-114 | `setCameraZoomToMax`, the other member that writes the fields, keeps the clamping invariant, and `setZoom` changes no field |
| ZoomProperties.ZoomInNeverZoomsOut | app/src/main/java/com/maxim/shacamera/camera/data/CameraRepository.kt:58-64 | under the invariant a spreading step never lowers `zoomLevel*bitmapZoom` |
| ZoomProperties.ZoomOutNeverZoomsIn | app/src/main/java/com/maxim/shacamera/camera/data/CameraRepository.kt:65-76 | with both zooms at least 1 a pinching step never raises `zoomLevel*bitmapZoom` |
| ZoomProperties.BitmapGrowsOnlyAtOpticalMax | app/src/main/java/com/maxim/shacamera/camera/data/CameraRepository.kt:59-64 | digital zoom grows only on a step that leaves optical zoom at its maximum |
| ZoomProperties.SpreadSampleNeverZoomsOut | app/src/main/java/com/maxim/shacamera/camera/data/CameraRepository.kt:54-64 | one spreading `handleZoom` sample with a recorded baseline keeps the invariant and never lowers the reported zoom |
| ZoomProperties.PinchSampleNeverZoomsIn | app/src/main/java/com/maxim/shacamera/camera/data/CameraRepository.kt:54-76 | one pinching `handleZoom` sample with a recorded baseline keeps the invariant and never raises the reported zoom |
| ZoomProperties.SpreadGestureNeverZoomsOut | app/src/main/java/com/maxim/shacamera/camera/data/CameraRepository.kt:54-98 | under one camera's characteristics, over a whole gesture of strictly growing spacings the reported zoom never decreases, whether its first sample records the baseline or one is already recorded |
| ZoomProperties.PinchGestureNeverZoomsIn | app/src/main/java/com/maxim/shacamera/camera/data/CameraRepository.kt:54-98 | under one camera's characteristics, over a pinch with a recorded baseline and strictly shrinking non-negative spacings the reported zoom never increases |
| ZoomProperties.PinchGestureFromFresh | app/src/main/java/com/maxim/shacamera/camera/data/CameraRepository.kt:54-98 | a pinch gesture whose first sample records the baseline (fields fresh, spacing 0) never raises the reported zoom either |
| ZoomProperties.PinchKeepsDigitalUnwound | app/src/main/java/com/maxim/shacamera/camera/data/CameraRepository.kt:69-75 | once the bitmap zoom is 1, further pinching with a recorded baseline keeps it at 1 |
| ZoomProperties.PinchUnwindsDigitalFirst | app/src/main/java/com/maxim/shacamera/camera/data/CameraRepository.kt:65-76 | during a pinch with a recorded baseline, optical zoom falls below its starting value only once the digital zoom is fully unwound to 1 |
| ZoomProperties.MarginMonotone | app/src/main/java/com/maxim/shacamera/camera/data/CameraRepository.kt:78-85 | the margin cut from a side grows with the zoom level |
| ZoomProperties.CropNarrowsAsZoomGrows | app/src/main/java/com/maxim/shacamera/camera/data/CameraRepository.kt:78-86 | a higher zoom level never gives a wider or taller crop region |
| ZoomProperties.RegripAppliesStaleBaseline | app/src/main/java/com/maxim/shacamera/camera/data/CameraRepository.kt:54-92 | a one-pointer event keeps the old spacing, so the next two-pointer sample zooms (1 to 1.8) against it |
| ZoomProperties.SwitchedSpreadSnapsDown | app/src/main/java/com/maxim/shacamera/camera/data/CameraRepository.kt:54-64 | a spreading sample with the zoom level above the camera's maximum sets it to the maximum. The reported zoom drops exactly when the bitmap zoom does not grow (recording or a failed growth test) or the level exceeded the maximum by more than 1/25 of the maximum (`zoomLevel > maxZoom * 26/25`) |
| ZoomProperties.SnapDownStep | app/src/main/java/com/maxim/shacamera/camera/data/CameraRepository.kt:58-64 | the spreading step alone, from above the maximum: the reported zoom drops under the same condition |
| ZoomProperties.SnapDownStepRises | app/src/main/java/com/maxim/shacamera/camera/data/CameraRepository.kt:58-64 | from above the maximum, a spreading step raises the reported zoom exactly when the bitmap zoom grows and `zoomLevel < maxZoom * 26/25`; at equality it stays put |
| ZoomProperties.SwitchedPinchStaysAbove | app/src/main/java/com/maxim/shacamera/camera/data/CameraRepository.kt:54-76 | a pinching sample with the zoom level above the camera's maximum leaves it above exactly when the bitmap zoom is not 1 or the level exceeds the maximum by more than 0.8 |
| ZoomProperties.CameraSwitchLeavesZoomAboveMax | app/src/main/java/com/maxim/shacamera/camera/data/CameraRepository.kt:54-76 | after a switch from a camera with maximum 4 to one with maximum 2, zoom level 3 becomes 2.2 on a pinch, still above the new maximum, and 2 on a spread taken while recording, lowering the reported zoom from 3 to 2 |
| CameraService.Least | app/src/main/java/com/maxim/shacamera/camera/presentation/CameraService.kt:92-96 | `Collections.min` returns a member, and under a lawful comparator it is not greater than any member |
| CameraService.Greatest | app/src/main/java/com/maxim/shacamera/camera/presentation/CameraService.kt:97 | `Collections.max` returns a member, and under a lawful comparator no member is greater |
| CameraService.MaxWith | app/src/main/java/com/maxim/shacamera/camera/presentation/CameraService.kt:106 | `maxWith` yields nothing exactly for an empty list. Otherwise it yields a member that no member exceeds under a lawful comparator |
| CameraService.Partition | app/src/main/java/com/maxim/shacamera/camera/presentation/CameraService.kt:79-89 | `bigEnough` holds exactly the aspect matches covering the viewport, and `notBigEnough` exactly the other matches |
| CameraService.OptimalPreviewSize | app/src/main/java/com/maxim/shacamera/camera/presentation/CameraService.kt:67-101 | no configuration map gives `Size(0,0)`. Otherwise the result is a candidate. It passes the aspect test whenever any candidate does, and it is `choices[0]` when none does |
| CameraService.CaptureSize | app/src/main/java/com/maxim/shacamera/camera/presentation/CameraService.kt:103-107 | no map or no sizes gives `Size(0,0)`. Otherwise the result is a listed size that no size exceeds under a lawful comparator |
| SelectionProperties.ByAreaIsComparator | app/src/main/java/com/maxim/shacamera/camera/presentation/CameraService.kt:92-97 | the assumed area ordering is antisymmetric in sign and transitive |
| SelectionProperties.PolicyOffPicksSmallestCovering | app/src/main/java/com/maxim/shacamera/camera/presentation/CameraService.kt:95-96 | policy off with a covering match: the result is a covering match of least area among them |
| SelectionProperties.PolicyOffPicksLargestBelow | app/src/main/java/com/maxim/shacamera/camera/presentation/CameraService.kt:95-97 | policy off, no covering match but some other match: the result is a non-covering match of greatest area |
| SelectionProperties.PolicyOnPicksSmallestBelow | app/src/main/java/com/maxim/shacamera/camera/presentation/CameraService.kt:91-92 | policy on with a non-covering match: the result is a non-covering match of least area |
| SelectionProperties.PolicyOnPicksSmallestCovering | app/src/main/java/com/maxim/shacamera/camera/presentation/CameraService.kt:91-93 | policy on, only covering matches: the result is a covering match of least area |
| SelectionProperties.MaxSizeIsIgnored | app/src/main/java/com/maxim/shacamera/camera/presentation/CameraService.kt:67-100 | the result is the same for any `maxWidth` and `maxHeight` |
| SelectionProperties.CaptureSizeByAreaIsLargest | app/src/main/java/com/maxim/shacamera/camera/presentation/CameraService.kt:106 | under the area ordering the capture size is listed and has the greatest area |
| SelectionProperties.ExactCoveringMatch | app/src/main/java/com/maxim/shacamera/camera/presentation/CameraService.kt:82-96 | 640x480 viewport, 4:3, policy off, sizes {320x240, 640x480, 1280x960, 1920x1080}: the result is 640x480 |
| SelectionProperties.LargestBelowWhenNothingCovers | app/src/main/java/com/maxim/shacamera/camera/presentation/CameraService.kt:82-97 | same sizes, 1600x1200 viewport, policy off: the result is 1280x960 |

## Left out

- Camera I/O. `captureRequestBuilder.set(SCALER_CROP_REGION, …)` is modelled only as the returned crop value: `cropUpdate` of `handleZoom` (absent when nothing is written) and `cropRegion` of `setZoom` and `setCameraZoomToMax` (absent when a null region is written). `cameraCaptureSession.setRepeatingRequest` is not modelled.
- `getFingerSpacing`: the square root over `MotionEvent` coordinates. The spacing is an input real.
- IEEE-754 behaviour. Reals are exact, so for example `zoomLevel + (maxZoom - zoomLevel)` lands exactly on `maxZoom`.
- Division by zero yielding infinity or NaN. Instead, `HandleZoom` requires a positive zoom level and bitmap zoom, and a positive maximum zoom when one is reported. The initial fields and Android's guarantee that the maximum digital zoom is at least 1 meet these.
- Saturation of `roundToInt`/`toInt` at the 32-bit bounds, and `Int` overflow in `width * aspectRatio.height`.
- `OptimalPreviewSize` requires a non-empty size list and a non-zero aspect width when a configuration map exists. The source would throw on `choices[0]` or on the division.
- A null `getOutputSizes` result is not modelled.
- CameraService.CaptureSize: the `Size(0, 0)` result for an empty size list assumes the nullable `maxWith` of Kotlin before 1.5. From Kotlin 1.7 on, `maxWith` is non-null and throws `NoSuchElementException` on an empty list, so the fallback is dead code there and the source throws instead.
- The unused `cameraCharacteristics` parameter of `setCameraZoomToMax` is not modelled.
- `ComparableByArea` is not part of this model. Its by-area ordering is an assumption.
- Camera lifecycle in `CameraService.kt` (`openCamera`, `closeCamera`, `isOpen`, the state callback, session creation): asynchronous platform callbacks.
- `CameraFragment.kt`, `MainActivity.kt` and `core/sl/Core.kt`: UI wiring, permissions, file saving and a service locator, with no core logic.
