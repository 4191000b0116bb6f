/**
 Properties of the pinch-zoom state machine over single events and over
 whole gestures: the clamping invariant, monotonic effective zoom while
 spreading or pinching, digital zoom unwound before optical zoom, and the
 crop region narrowing as the zoom level grows.
 */
module ZoomProperties {
  import opened Optional
  import opened KotlinMath
  import opened RealArith
  import opened CameraRepository

  /** One delivered touch event together with the per-call inputs of `handleZoom`. */
  datatype Frame = Frame(touch: Touch, screenMinSize: int, isRecording: bool)

  /** The clamping invariant: optical zoom within [1, maxZoom], bitmap zoom at least 1. */
  predicate ZoomInvariant(s: ZoomState, maxZoom: real) {
    1.0 <= s.zoomLevel <= maxZoom && s.bitmapZoom >= 1.0
  }

  /** The state after delivering `frames` one by one to `handleZoom`. */
  function Replay(s: ZoomState, ch: Characteristics, frames: seq<Frame>): ZoomState
    requires Admissible(s, ch)
    decreases |frames|
  {
    if |frames| == 0 then s
    else
      var next := HandleZoom(s, ch, frames[0].touch, frames[0].screenMinSize, frames[0].isRecording).state;
      Replay(next, ch, frames[1..])
  }

  /** One `handleZoom` call under a camera's characteristics keeps the clamping
      invariant for that camera's maximum, whatever the event. */
  lemma HandleZoomKeepsInvariant(s: ZoomState, ch: Characteristics, touch: Touch, screenMinSize: int, isRecording: bool)
    requires ch.maxDigitalZoom.Some? && ch.maxDigitalZoom.value >= 1.0
    requires ZoomInvariant(s, ch.maxDigitalZoom.value)
    ensures ZoomInvariant(HandleZoom(s, ch, touch, screenMinSize, isRecording).state, ch.maxDigitalZoom.value)
  {
  }

  /** Any sequence of events delivered under one camera's characteristics keeps
      the clamping invariant for that camera's maximum. */
  lemma {:induction false} ReplayKeepsInvariant(s: ZoomState, ch: Characteristics, frames: seq<Frame>)
    requires ch.maxDigitalZoom.Some? && ch.maxDigitalZoom.value >= 1.0
    requires ZoomInvariant(s, ch.maxDigitalZoom.value)
    ensures ZoomInvariant(Replay(s, ch, frames), ch.maxDigitalZoom.value)
    decreases |frames|
  {
    if |frames| > 0 {
      var f := frames[0];
      HandleZoomKeepsInvariant(s, ch, f.touch, f.screenMinSize, f.isRecording);
      ReplayKeepsInvariant(HandleZoom(s, ch, f.touch, f.screenMinSize, f.isRecording).state, ch, frames[1..]);
    }
  }

  /** From the initial field values, every state reachable under one camera's
      characteristics satisfies the invariant. A camera switch is outside this
      promise: see `CameraSwitchLeavesZoomAboveMax`. */
  lemma ReachableStatesKeepInvariant(ch: Characteristics, frames: seq<Frame>)
    requires ch.maxDigitalZoom.Some? && ch.maxDigitalZoom.value >= 1.0
    ensures ZoomInvariant(Replay(Initial, ch, frames), ch.maxDigitalZoom.value)
  {
    ReplayKeepsInvariant(Initial, ch, frames);
  }

  /** `setCameraZoomToMax`, the other member that writes the fields, keeps the
      clamping invariant too; `setZoom` writes none. */
  lemma SetCameraZoomToMaxKeepsInvariant(s: ZoomState, maxZoom: real)
    requires ZoomInvariant(s, maxZoom)
    ensures ZoomInvariant(SetCameraZoomToMax(s).state, maxZoom)
    ensures SetZoom(s).state == s
  {
  }

  /** A spreading step never lowers the reported zoom. */
  lemma ZoomInNeverZoomsOut(s: ZoomState, maxZoom: real, screenMinSize: int, isRecording: bool)
    requires ZoomInvariant(s, maxZoom)
    ensures Effective(ZoomIn(s, maxZoom, screenMinSize, isRecording)) >= Effective(s)
  {
    var t := ZoomIn(s, maxZoom, screenMinSize, isRecording);
    ProductMonotone(s.zoomLevel, s.bitmapZoom, t.zoomLevel, t.bitmapZoom);
  }

  /** A pinching step never raises the reported zoom. */
  lemma ZoomOutNeverZoomsIn(s: ZoomState)
    requires s.zoomLevel >= 1.0 && s.bitmapZoom >= 1.0
    ensures Effective(ZoomOut(s)) <= Effective(s)
  {
    var t := ZoomOut(s);
    ProductMonotone(t.zoomLevel, t.bitmapZoom, s.zoomLevel, s.bitmapZoom);
  }

  /** The bitmap zoom grows only on a step that leaves the optical zoom at its maximum. */
  lemma BitmapGrowsOnlyAtOpticalMax(s: ZoomState, maxZoom: real, screenMinSize: int, isRecording: bool)
    requires s.bitmapZoom > 0.0
    ensures ZoomIn(s, maxZoom, screenMinSize, isRecording).bitmapZoom > s.bitmapZoom
            ==> ZoomIn(s, maxZoom, screenMinSize, isRecording).zoomLevel == maxZoom
  {
  }

  /** `frames` is the rest of a spreading gesture whose previous sample had spacing
      `prev`: two pointers throughout, each spacing larger than the one before. */
  predicate Spreading(prev: real, frames: seq<Frame>)
    decreases |frames|
  {
    |frames| == 0
    || (&& frames[0].touch.pointerCount == 2
        && frames[0].touch.spacing > prev
        && Spreading(frames[0].touch.spacing, frames[1..]))
  }

  /** `frames` is the rest of a pinching gesture whose previous sample had spacing
      `prev`: two pointers throughout, each spacing smaller than the one before.
      Spacings are distances and so never negative; a sample at spacing 0 can
      therefore only end the gesture. */
  predicate Pinching(prev: real, frames: seq<Frame>)
    decreases |frames|
  {
    |frames| == 0
    || (&& frames[0].touch.pointerCount == 2
        && 0.0 <= frames[0].touch.spacing < prev
        && Pinching(frames[0].touch.spacing, frames[1..]))
  }

  /** One spreading sample with a baseline recorded never lowers the reported zoom. */
  lemma SpreadSampleNeverZoomsOut(s: ZoomState, ch: Characteristics, touch: Touch, screenMinSize: int, isRecording: bool)
    requires SensorComplete(ch) && ch.maxDigitalZoom.value >= 1.0
    requires ZoomInvariant(s, ch.maxDigitalZoom.value)
    requires s.fingerSpacing != 0.0 && touch.pointerCount == 2 && touch.spacing > s.fingerSpacing
    ensures ZoomInvariant(HandleZoom(s, ch, touch, screenMinSize, isRecording).state, ch.maxDigitalZoom.value)
    ensures Effective(HandleZoom(s, ch, touch, screenMinSize, isRecording).state) >= Effective(s)
  {
    var next := HandleZoom(s, ch, touch, screenMinSize, isRecording).state;
    ProductMonotone(s.zoomLevel, s.bitmapZoom, next.zoomLevel, next.bitmapZoom);
  }

  /** One pinching sample with a baseline recorded never raises the reported zoom. */
  lemma PinchSampleNeverZoomsIn(s: ZoomState, ch: Characteristics, touch: Touch, screenMinSize: int, isRecording: bool)
    requires SensorComplete(ch) && ch.maxDigitalZoom.value >= 1.0
    requires ZoomInvariant(s, ch.maxDigitalZoom.value)
    requires s.fingerSpacing != 0.0 && touch.pointerCount == 2 && touch.spacing < s.fingerSpacing
    ensures ZoomInvariant(HandleZoom(s, ch, touch, screenMinSize, isRecording).state, ch.maxDigitalZoom.value)
    ensures Effective(HandleZoom(s, ch, touch, screenMinSize, isRecording).state) <= Effective(s)
  {
    var next := HandleZoom(s, ch, touch, screenMinSize, isRecording).state;
    ProductMonotone(next.zoomLevel, next.bitmapZoom, s.zoomLevel, s.bitmapZoom);
  }

  /** Throughout a spreading gesture under one camera's characteristics the
      reported zoom never decreases, whether a baseline is already recorded or
      the first sample records it. */
  lemma {:induction false} SpreadGestureNeverZoomsOut(s: ZoomState, ch: Characteristics, frames: seq<Frame>)
    requires SensorComplete(ch) && ch.maxDigitalZoom.value >= 1.0
    requires ZoomInvariant(s, ch.maxDigitalZoom.value)
    requires s.fingerSpacing >= 0.0 && Spreading(s.fingerSpacing, frames)
    ensures Effective(Replay(s, ch, frames)) >= Effective(s)
    decreases |frames|
  {
    if |frames| > 0 {
      var f := frames[0];
      if s.fingerSpacing == 0.0 {
        ReplayFromFresh(s, ch, frames);
        SpreadGestureNeverZoomsOut(s.(fingerSpacing := f.touch.spacing), ch, frames[1..]);
      } else {
        var next := HandleZoom(s, ch, f.touch, f.screenMinSize, f.isRecording).state;
        SpreadSampleNeverZoomsOut(s, ch, f.touch, f.screenMinSize, f.isRecording);
        SpreadGestureNeverZoomsOut(next, ch, frames[1..]);
      }
    }
  }

  /** Throughout a pinching gesture under way under one camera's characteristics
      the reported zoom never increases. */
  lemma {:induction false} PinchGestureNeverZoomsIn(s: ZoomState, ch: Characteristics, frames: seq<Frame>)
    requires SensorComplete(ch) && ch.maxDigitalZoom.value >= 1.0
    requires ZoomInvariant(s, ch.maxDigitalZoom.value)
    requires s.fingerSpacing >= 0.0 && Pinching(s.fingerSpacing, frames)
    ensures Effective(Replay(s, ch, frames)) <= Effective(s)
    decreases |frames|
  {
    if |frames| > 0 {
      var f := frames[0];
      var next := HandleZoom(s, ch, f.touch, f.screenMinSize, f.isRecording).state;
      PinchSampleNeverZoomsIn(s, ch, f.touch, f.screenMinSize, f.isRecording);
      PinchGestureNeverZoomsIn(next, ch, frames[1..]);
    }
  }

  /** A pinching gesture whose first sample only records the baseline: that
      sample changes no zoom, and the rest is a pinch under way, so the
      reported zoom never increases over the whole gesture either. */
  lemma PinchGestureFromFresh(s: ZoomState, ch: Characteristics, frames: seq<Frame>)
    requires SensorComplete(ch) && ch.maxDigitalZoom.value >= 1.0
    requires ZoomInvariant(s, ch.maxDigitalZoom.value)
    requires s.fingerSpacing == 0.0 && |frames| > 0 && frames[0].touch.pointerCount == 2
    requires frames[0].touch.spacing > 0.0 && Pinching(frames[0].touch.spacing, frames[1..])
    ensures Effective(Replay(s, ch, frames)) <= Effective(s)
  {
    var t := s.(fingerSpacing := frames[0].touch.spacing);
    assert ZoomInvariant(t, ch.maxDigitalZoom.value) && Effective(t) == Effective(s);
    ReplayFromFresh(s, ch, frames);
    PinchGestureNeverZoomsIn(t, ch, frames[1..]);
  }

  /** Replaying from fresh fields: the first two-pointer sample only records
      its spacing, and the rest replays from there. */
  lemma ReplayFromFresh(s: ZoomState, ch: Characteristics, frames: seq<Frame>)
    requires SensorComplete(ch) && Admissible(s, ch)
    requires s.fingerSpacing == 0.0 && |frames| > 0 && frames[0].touch.pointerCount == 2
    ensures Replay(s, ch, frames) == Replay(s.(fingerSpacing := frames[0].touch.spacing), ch, frames[1..])
  {
    var f := frames[0];
    assert HandleZoom(s, ch, f.touch, f.screenMinSize, f.isRecording).state == s.(fingerSpacing := f.touch.spacing);
  }

  /** Once the bitmap zoom is back at 1, pinching never raises it again. */
  lemma {:induction false} PinchKeepsDigitalUnwound(s: ZoomState, ch: Characteristics, frames: seq<Frame>)
    requires SensorComplete(ch) && Admissible(s, ch)
    requires s.fingerSpacing >= 0.0 && Pinching(s.fingerSpacing, frames)
    requires s.bitmapZoom == 1.0
    ensures Replay(s, ch, frames).bitmapZoom == 1.0
    decreases |frames|
  {
    if |frames| > 0 {
      var f := frames[0];
      var next := HandleZoom(s, ch, f.touch, f.screenMinSize, f.isRecording).state;
      PinchKeepsDigitalUnwound(next, ch, frames[1..]);
    }
  }

  /** Pinching never lowers the optical zoom below where the gesture found it
      before the bitmap zoom has been fully unwound to 1. */
  lemma {:induction false} PinchUnwindsDigitalFirst(s: ZoomState, ch: Characteristics, frames: seq<Frame>)
    requires SensorComplete(ch) && Admissible(s, ch)
    requires s.fingerSpacing >= 0.0 && Pinching(s.fingerSpacing, frames)
    ensures Replay(s, ch, frames).zoomLevel < s.zoomLevel ==> Replay(s, ch, frames).bitmapZoom == 1.0
    decreases |frames|
  {
    if |frames| > 0 {
      var f := frames[0];
      var next := HandleZoom(s, ch, f.touch, f.screenMinSize, f.isRecording).state;
      var last := Replay(s, ch, frames);
      assert last == Replay(next, ch, frames[1..]);
      PinchUnwindsDigitalFirst(next, ch, frames[1..]);
      if last.zoomLevel < s.zoomLevel && last.zoomLevel >= next.zoomLevel {
        assert next.zoomLevel < s.zoomLevel;
        assert next.bitmapZoom == 1.0;
        PinchKeepsDigitalUnwound(next, ch, frames[1..]);
      }
    }
  }

  /** The margin cut from one side grows with the zoom level. */
  lemma MarginMonotone(side: int, z1: real, z2: real)
    requires side >= 0 && 1.0 <= z1 <= z2
    ensures Margin(side, z1) <= Margin(side, z2)
  {
    var k1 := side as real * (1.0 / z1);
    var k2 := side as real * (1.0 / z2);
    assert k1 == side as real / z1 && k2 == side as real / z2;
    DivAntitone(side as real, z1, z2);
    RoundMonotone(k2, k1);
    MarginFits(side, z1);
    HalfMonotone(side - RoundToInt(k1), side - RoundToInt(k2));
  }

  /** A higher zoom level never gives a wider or taller crop region. */
  lemma CropNarrowsAsZoomGrows(activeArray: Rect, z1: real, z2: real)
    requires activeArray.Width() >= 0 && activeArray.Height() >= 0
    requires 1.0 <= z1 <= z2
    ensures CropRegion(activeArray, z2).Width() <= CropRegion(activeArray, z1).Width()
    ensures CropRegion(activeArray, z2).Height() <= CropRegion(activeArray, z1).Height()
  {
    MarginMonotone(activeArray.Width(), z1, z2);
    MarginMonotone(activeArray.Height(), z1, z2);
  }

  /** The code keeps the spacing baseline while fewer than two pointers are down:
      lifting a finger and putting it back applies a zoom step on the very first
      sample of the new contact, measured against the spacing of the old one. */
  lemma RegripAppliesStaleBaseline()
    ensures
      var ch := Characteristics(Some(Rect(0, 0, 4000, 3000)), Some(4.0));
      var held := ZoomState(100.0, 1.0, None, 1.0);
      var lifted := HandleZoom(held, ch, Touch(1, 0.0), 1080, false).state;
      var regrip := HandleZoom(lifted, ch, Touch(2, 150.0), 1080, false).state;
      lifted.fingerSpacing == 100.0 && regrip.zoomLevel == 1.8
  {
  }

  /** A spreading sample with the zoom level above the camera's maximum (left
      there by another camera) sets the optical zoom to the maximum. The
      reported zoom then drops exactly when the bitmap zoom does not grow on
      the same step, or when the level exceeded the maximum by more than 1/25
      of the maximum (`zoomLevel > maxZoom * 26/25`). */
  lemma SwitchedSpreadSnapsDown(s: ZoomState, ch: Characteristics, touch: Touch, screenMinSize: int, isRecording: bool)
    requires SensorComplete(ch) && Admissible(s, ch)
    requires s.zoomLevel > ch.maxDigitalZoom.value
    requires s.fingerSpacing != 0.0 && touch.pointerCount == 2 && touch.spacing > s.fingerSpacing
    ensures HandleZoom(s, ch, touch, screenMinSize, isRecording).state.zoomLevel == ch.maxDigitalZoom.value
    ensures Effective(HandleZoom(s, ch, touch, screenMinSize, isRecording).state) < Effective(s)
            <==> || isRecording
                 || !CanGrowBitmap(screenMinSize, s.bitmapZoom)
                 || ch.maxDigitalZoom.value * 26.0 / 25.0 < s.zoomLevel
  {
    var t := HandleZoom(s, ch, touch, screenMinSize, isRecording).state;
    var step := ZoomIn(s, ch.maxDigitalZoom.value, screenMinSize, isRecording);
    assert t.zoomLevel == step.zoomLevel && t.bitmapZoom == step.bitmapZoom;
    SnapDownStep(s, ch.maxDigitalZoom.value, screenMinSize, isRecording);
  }

  /** The spreading step of `SwitchedSpreadSnapsDown` on its own. */
  lemma SnapDownStep(s: ZoomState, maxZoom: real, screenMinSize: int, isRecording: bool)
    requires s.bitmapZoom > 0.0 && s.zoomLevel > maxZoom
    ensures Effective(ZoomIn(s, maxZoom, screenMinSize, isRecording)) < Effective(s)
            <==> isRecording || !CanGrowBitmap(screenMinSize, s.bitmapZoom) || maxZoom * 26.0 / 25.0 < s.zoomLevel
  {
    var t := ZoomIn(s, maxZoom, screenMinSize, isRecording);
    if t.bitmapZoom == s.bitmapZoom {
      MulStrictIff(s.bitmapZoom, maxZoom, s.zoomLevel);
      assert Effective(t) == s.bitmapZoom * maxZoom && Effective(s) == s.bitmapZoom * s.zoomLevel;
    } else {
      MulStrictIff(s.bitmapZoom, maxZoom * 26.0 / 25.0, s.zoomLevel);
      assert Effective(t) == s.bitmapZoom * (maxZoom * 26.0 / 25.0) && Effective(s) == s.bitmapZoom * s.zoomLevel;
    }
  }

  /** The converse of `SnapDownStep`: from above the maximum the reported zoom
      rises exactly when the bitmap zoom grows and the level was below
      `maxZoom * 26/25`; at exactly that level it stays put. */
  lemma SnapDownStepRises(s: ZoomState, maxZoom: real, screenMinSize: int, isRecording: bool)
    requires s.bitmapZoom > 0.0 && s.zoomLevel > maxZoom
    ensures Effective(ZoomIn(s, maxZoom, screenMinSize, isRecording)) > Effective(s)
            <==> !isRecording && CanGrowBitmap(screenMinSize, s.bitmapZoom) && s.zoomLevel < maxZoom * 26.0 / 25.0
  {
    var t := ZoomIn(s, maxZoom, screenMinSize, isRecording);
    if t.bitmapZoom == s.bitmapZoom {
      MulStrictIff(s.bitmapZoom, maxZoom, s.zoomLevel);
      assert Effective(t) == s.bitmapZoom * maxZoom && Effective(s) == s.bitmapZoom * s.zoomLevel;
    } else {
      MulStrictIff(s.bitmapZoom, s.zoomLevel, maxZoom * 26.0 / 25.0);
      assert Effective(t) == s.bitmapZoom * (maxZoom * 26.0 / 25.0) && Effective(s) == s.bitmapZoom * s.zoomLevel;
    }
  }

  /** A pinching sample with the zoom level above the camera's maximum leaves it
      above exactly when the bitmap zoom is still active (only that shrinks) or
      the level exceeds the maximum by more than one step. */
  lemma SwitchedPinchStaysAbove(s: ZoomState, ch: Characteristics, touch: Touch, screenMinSize: int, isRecording: bool)
    requires SensorComplete(ch) && Admissible(s, ch) && ch.maxDigitalZoom.value >= 1.0
    requires s.zoomLevel > ch.maxDigitalZoom.value
    requires s.fingerSpacing != 0.0 && touch.pointerCount == 2 && touch.spacing < s.fingerSpacing
    ensures HandleZoom(s, ch, touch, screenMinSize, isRecording).state.zoomLevel > ch.maxDigitalZoom.value
            <==> s.bitmapZoom != 1.0 || s.zoomLevel - Delta > ch.maxDigitalZoom.value
  {
  }

  /** A concrete camera switch: zoom level 3, reached under a maximum of 4,
      stays above a new camera's maximum of 2 after a pinch sample
      (3 - 0.8 = 2.2), while a spread sample taken during a recording (so the
      bitmap zoom holds) snaps it down to 2 and lowers the reported zoom from
      3 to 2. The two states are parameters fixed by `requires` rather than
      literals in the contract: given literal arguments the verifier evaluates
      the whole of `HandleZoom`, crop arithmetic included, and the proof no
      longer fits its resource budget. */
  lemma CameraSwitchLeavesZoomAboveMax(before: ZoomState, switched: Characteristics)
    requires before == ZoomState(100.0, 3.0, None, 1.0)
    requires switched == Characteristics(Some(Rect(0, 0, 4000, 3000)), Some(2.0))
    ensures ZoomInvariant(before, 4.0)
    ensures
      var pinch := HandleZoom(before, switched, Touch(2, 50.0), 1080, false);
      pinch.state.zoomLevel == 2.2 && !ZoomInvariant(pinch.state, 2.0)
    ensures
      var spread := HandleZoom(before, switched, Touch(2, 150.0), 1080, true);
      spread.state.zoomLevel == 2.0 && spread.factor == 2.0 && spread.factor < Effective(before)
  {
    PinchAfterSwitch(before, switched);
    SpreadAfterSwitch(before, switched);
  }

  /** The pinch half of `CameraSwitchLeavesZoomAboveMax`. */
  lemma PinchAfterSwitch(before: ZoomState, switched: Characteristics)
    requires before == ZoomState(100.0, 3.0, None, 1.0)
    requires switched == Characteristics(Some(Rect(0, 0, 4000, 3000)), Some(2.0))
    ensures HandleZoom(before, switched, Touch(2, 50.0), 1080, false).state.zoomLevel == 2.2
  {
  }

  /** The spread half of `CameraSwitchLeavesZoomAboveMax`. */
  lemma SpreadAfterSwitch(before: ZoomState, switched: Characteristics)
    requires before == ZoomState(100.0, 3.0, None, 1.0)
    requires switched == Characteristics(Some(Rect(0, 0, 4000, 3000)), Some(2.0))
    ensures HandleZoom(before, switched, Touch(2, 150.0), 1080, true).state.zoomLevel == 2.0
    ensures HandleZoom(before, switched, Touch(2, 150.0), 1080, true).factor == 2.0
  {
    var spread := HandleZoom(before, switched, Touch(2, 150.0), 1080, true);
    assert spread.state.zoomLevel == 2.0;
    assert spread.state.bitmapZoom == 1.0;
  }
}
