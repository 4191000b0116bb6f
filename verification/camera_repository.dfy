/**
 The pinch-zoom state machine of `CameraRepository.Base`.

 The repository keeps four fields across touch events: the finger spacing of
 the previous two-pointer sample (0 meaning "no baseline yet"), the optical
 zoom level sent to the sensor as a crop region, that crop region itself
 (absent until the first zoom step), and a software "bitmap" zoom applied to
 the preview once optical zoom is exhausted. Each touch event is one pure
 transition of an immutable `ZoomState`; the values the source writes into a
 capture request are returned alongside the new state.
 */
module CameraRepository {
  import opened Optional
  import opened KotlinMath
  import opened RealArith

  /** An `android.graphics.Rect`: edges in sensor pixel coordinates. */
  datatype Rect = Rect(left: int, top: int, right: int, bottom: int) {
    function Width(): int { right - left }
    function Height(): int { bottom - top }
  }

  /** The two camera characteristics `handleZoom` reads; either may be unreported. */
  datatype Characteristics = Characteristics(activeArraySize: Option<Rect>, maxDigitalZoom: Option<real>)

  /** One touch event: how many pointers are down, and the distance between the first two. */
  datatype Touch = Touch(pointerCount: int, spacing: real)

  datatype ZoomState = ZoomState(fingerSpacing: real, zoomLevel: real, zoom: Option<Rect>, bitmapZoom: real)

  /** What one `handleZoom` call yields: the new state, the returned pair, and the
      update of the capture request's crop region (None when the call leaves the
      request untouched; a call that writes always writes a rectangle). */
  datatype ZoomOutcome = ZoomOutcome(state: ZoomState, factor: real, consumed: bool, cropUpdate: Option<Rect>)

  /** What `setZoom` / `setCameraZoomToMax` yield: the new state, the returned zoom,
      and the crop-region value they always write into the capture request
      (None standing for a null region being written). */
  datatype AccessOutcome = AccessOutcome(state: ZoomState, factor: real, cropRegion: Option<Rect>)

  /** The field initialisers of `CameraRepository.Base`. */
  const Initial: ZoomState := ZoomState(0.0, 1.0, None, 1.0)

  /** Optical zoom step per pinch sample (the zooming sensibility). */
  const Delta: real := 0.8

  /** The bitmap zoom moves by one part in this many per pinch sample. */
  const BitmapDivisor: real := 25.0

  /** The zoom factor the source reports to callers. */
  function Effective(s: ZoomState): real {
    s.zoomLevel * s.bitmapZoom
  }

  predicate SensorComplete(ch: Characteristics) {
    ch.activeArraySize.Some? && ch.maxDigitalZoom.Some?
  }

  /** The states `handleZoom` accepts: the divisions it performs stay defined. */
  predicate Admissible(s: ZoomState, ch: Characteristics) {
    && s.zoomLevel > 0.0
    && s.bitmapZoom > 0.0
    && (ch.maxDigitalZoom.Some? ==> ch.maxDigitalZoom.value > 0.0)
  }

  /** The bitmap zoom may grow only while the screen can still show at least one
      pixel after one more step: `(screenMinSize / (b + b / 25)).toInt() != 0`. */
  predicate CanGrowBitmap(screenMinSize: int, bitmapZoom: real)
    requires bitmapZoom > 0.0
  {
    TruncToInt(screenMinSize as real / (bitmapZoom + bitmapZoom / BitmapDivisor)) != 0
  }

  /** The growth test holds exactly when the grown bitmap zoom is at most the screen size. */
  lemma CanGrowBitmapIff(screenMinSize: int, b: real)
    requires b > 0.0
    ensures CanGrowBitmap(screenMinSize, b) <==> b * 26.0 / 25.0 <= Abs(screenMinSize) as real
  {
    var g := b + b / BitmapDivisor;
    assert g == b * 26.0 / 25.0;
    var q := screenMinSize as real / g;
    if screenMinSize >= 0 {
      QuotientAtLeastOne(screenMinSize as real, g);
    } else {
      assert -q == Abs(screenMinSize) as real / g;
      QuotientAtLeastOne(Abs(screenMinSize) as real, g);
    }
  }

  lemma QuotientAtLeastOne(x: real, g: real)
    requires g > 0.0
    ensures x / g >= 1.0 <==> x >= g
  {
    var q := x / g;
    assert q * g == x;
    if q >= 1.0 {
      MulMonotone(g, 1.0, q);
    } else {
      MulStrict(g, q, 1.0);
    }
  }

  /** The spreading branch: optical zoom moves up by `Delta`, clamped to the
      maximum; once the headroom is at most `Delta` the bitmap zoom also grows by
      1/25 unless recording or the screen cannot shrink any further. */
  function ZoomIn(s: ZoomState, maxZoom: real, screenMinSize: int, isRecording: bool): (t: ZoomState)
    requires s.bitmapZoom > 0.0
    ensures t.zoomLevel == MinReal(s.zoomLevel + Delta, maxZoom)
    ensures t.bitmapZoom >= s.bitmapZoom
    ensures t.bitmapZoom != s.bitmapZoom
            <==> maxZoom - s.zoomLevel <= Delta && !isRecording && CanGrowBitmap(screenMinSize, s.bitmapZoom)
    ensures t.bitmapZoom != s.bitmapZoom
            ==> t.bitmapZoom == s.bitmapZoom * 26.0 / 25.0 && t.bitmapZoom <= Abs(screenMinSize) as real
    ensures t.fingerSpacing == s.fingerSpacing && t.zoom == s.zoom
  {
    if maxZoom - s.zoomLevel <= Delta then
      var grow := CanGrowBitmap(screenMinSize, s.bitmapZoom) && !isRecording;
      var b := if grow then s.bitmapZoom + s.bitmapZoom / BitmapDivisor else s.bitmapZoom;
      CanGrowBitmapIff(screenMinSize, s.bitmapZoom);
      s.(zoomLevel := s.zoomLevel + (maxZoom - s.zoomLevel), bitmapZoom := b)
    else
      s.(zoomLevel := s.zoomLevel + Delta)
  }

  /** The pinching branch: with no bitmap zoom active the optical zoom moves down
      by `Delta`, never below 1; otherwise only the bitmap zoom shrinks by 1/25,
      never below 1, and the optical zoom holds. */
  function ZoomOut(s: ZoomState): (t: ZoomState)
    ensures s.bitmapZoom == 1.0 ==> t.zoomLevel == MaxReal(s.zoomLevel - Delta, 1.0) && t.bitmapZoom == 1.0
    ensures s.bitmapZoom != 1.0
            ==> t.zoomLevel == s.zoomLevel && t.bitmapZoom == MaxReal(s.bitmapZoom * 24.0 / 25.0, 1.0)
    ensures t.fingerSpacing == s.fingerSpacing && t.zoom == s.zoom
  {
    var delta := if s.zoomLevel - Delta < 1.0 then s.zoomLevel - 1.0 else Delta;
    if s.bitmapZoom == 1.0 then
      s.(zoomLevel := s.zoomLevel - delta)
    else
      var b := s.bitmapZoom - s.bitmapZoom / BitmapDivisor;
      s.(bitmapZoom := if b < 1.0 then 1.0 else b)
  }

  /** The margin left on each end of one side of the active array: the side
      minus its share at this zoom level (rounded to whole pixels), halved. */
  function Margin(side: int, zoomLevel: real): int
    requires zoomLevel != 0.0
  {
    var ratio := 1.0 / zoomLevel;
    TruncDiv(side - RoundToInt(side as real * ratio), 2)
  }

  /** The crop region for a zoom level: the active array shrunk by the zoom
      factor and centred, with origin at the array's top-left corner. */
  function CropRegion(activeArray: Rect, zoomLevel: real): (r: Rect)
    requires zoomLevel != 0.0
    ensures r.left == activeArray.Width() - r.right && r.top == activeArray.Height() - r.bottom
    ensures zoomLevel >= 1.0 && activeArray.Width() >= 0
            ==> 0 <= r.left <= r.right <= activeArray.Width()
                && activeArray.Width() as real / zoomLevel - 0.5 < r.Width() as real
                && r.Width() as real <= activeArray.Width() as real / zoomLevel + 1.5
    ensures zoomLevel >= 1.0 && activeArray.Height() >= 0
            ==> 0 <= r.top <= r.bottom <= activeArray.Height()
                && activeArray.Height() as real / zoomLevel - 0.5 < r.Height() as real
                && r.Height() as real <= activeArray.Height() as real / zoomLevel + 1.5
  {
    var w := activeArray.Width();
    var h := activeArray.Height();
    var mw := Margin(w, zoomLevel);
    var mh := Margin(h, zoomLevel);
    MarginFits(w, zoomLevel);
    MarginFits(h, zoomLevel);
    Rect(mw, mh, w - mw, h - mh)
  }

  /** On one side of the crop, for a zoom level of at least 1, the margin lies
      in [0, side/2] and what is kept between the margins is within
      (side/zoom - 1/2, side/zoom + 3/2]. */
  lemma MarginFits(side: int, zoomLevel: real)
    requires zoomLevel != 0.0
    ensures zoomLevel >= 1.0 && side >= 0 ==>
              && 0 <= Margin(side, zoomLevel) <= side - Margin(side, zoomLevel)
              && side as real / zoomLevel - 0.5 < (side - 2 * Margin(side, zoomLevel)) as real
              && (side - 2 * Margin(side, zoomLevel)) as real <= side as real / zoomLevel + 1.5
  {
    if zoomLevel >= 1.0 && side >= 0 {
      var kept := side as real * (1.0 / zoomLevel);
      assert kept == side as real / zoomLevel;
      assert 0.0 <= kept <= side as real by {
        assert kept * zoomLevel == side as real;
        MulMonotone(kept, 1.0, zoomLevel);
      }
      var cut := side - RoundToInt(kept);
      assert 0 <= cut <= side;
      HalfBounds(cut);
    }
  }

  /** `handleZoom`: one touch event. Missing sensor data leaves everything as it
      is and reports `false`; any pointer count other than two leaves everything
      as it is (the spacing baseline included) and reports `true`; the first
      two-pointer sample only records the spacing; every later one takes a zoom
      step, recomputes and writes the crop region, and records the spacing. */
  function HandleZoom(s: ZoomState, ch: Characteristics, touch: Touch, screenMinSize: int, isRecording: bool)
    : (r: ZoomOutcome)
    requires Admissible(s, ch)
    ensures r.factor == Effective(r.state)
    ensures Admissible(r.state, ch)
    ensures !SensorComplete(ch) ==> r.state == s && !r.consumed && r.cropUpdate.None?
    ensures SensorComplete(ch) ==> r.consumed
    ensures SensorComplete(ch) && touch.pointerCount != 2 ==> r.state == s && r.cropUpdate.None?
    ensures SensorComplete(ch) && touch.pointerCount == 2 ==> r.state.fingerSpacing == touch.spacing
    ensures SensorComplete(ch) && touch.pointerCount == 2 && s.fingerSpacing == 0.0
            ==> r.state == s.(fingerSpacing := touch.spacing) && r.cropUpdate.None?
    ensures SensorComplete(ch) && touch.pointerCount == 2 && s.fingerSpacing != 0.0
            ==> && r.cropUpdate.Some?
                && r.state.zoom == r.cropUpdate
                && r.cropUpdate.value == CropRegion(ch.activeArraySize.value, r.state.zoomLevel)
    ensures SensorComplete(ch) && touch.pointerCount == 2 && s.fingerSpacing != 0.0 && touch.spacing > s.fingerSpacing
            ==> && r.state.zoomLevel == MinReal(s.zoomLevel + Delta, ch.maxDigitalZoom.value)
                && r.state.bitmapZoom >= s.bitmapZoom
                && (r.state.bitmapZoom != s.bitmapZoom
                    <==> && ch.maxDigitalZoom.value - s.zoomLevel <= Delta
                         && !isRecording
                         && CanGrowBitmap(screenMinSize, s.bitmapZoom))
                && (r.state.bitmapZoom != s.bitmapZoom ==> r.state.bitmapZoom == s.bitmapZoom * 26.0 / 25.0)
    ensures SensorComplete(ch) && touch.pointerCount == 2 && s.fingerSpacing != 0.0 && touch.spacing < s.fingerSpacing
            ==> if s.bitmapZoom == 1.0
                then r.state.zoomLevel == MaxReal(s.zoomLevel - Delta, 1.0) && r.state.bitmapZoom == 1.0
                else r.state.zoomLevel == s.zoomLevel && r.state.bitmapZoom == MaxReal(s.bitmapZoom * 24.0 / 25.0, 1.0)
    ensures SensorComplete(ch) && touch.pointerCount == 2 && s.fingerSpacing != 0.0 && touch.spacing == s.fingerSpacing
            ==> r.state.zoomLevel == s.zoomLevel && r.state.bitmapZoom == s.bitmapZoom
  {
    match ch.activeArraySize
    case None => ZoomOutcome(s, Effective(s), false, None)
    case Some(rect) =>
      match ch.maxDigitalZoom
      case None => ZoomOutcome(s, Effective(s), false, None)
      case Some(maxZoom) =>
        if touch.pointerCount != 2 then
          ZoomOutcome(s, Effective(s), true, None)
        else if s.fingerSpacing == 0.0 then
          var t := s.(fingerSpacing := touch.spacing);
          ZoomOutcome(t, Effective(t), true, None)
        else
          var stepped :=
            if touch.spacing > s.fingerSpacing then ZoomIn(s, maxZoom, screenMinSize, isRecording)
            else if touch.spacing < s.fingerSpacing then ZoomOut(s)
            else s;
          var crop := CropRegion(rect, stepped.zoomLevel);
          var t := stepped.(zoom := Some(crop), fingerSpacing := touch.spacing);
          ZoomOutcome(t, Effective(t), true, Some(crop))
  }

  /** `bitmapZoom()`: the software magnification, the factor by which the
      reported zoom exceeds the optical one. */
  function BitmapZoom(s: ZoomState): (r: real)
    ensures Effective(s) == s.zoomLevel * r
  {
    s.bitmapZoom
  }

  /** `setZoom`: re-sends the stored crop region and reports the zoom; no field changes. */
  function SetZoom(s: ZoomState): (r: AccessOutcome)
    ensures r.state == s
    ensures r.factor == s.zoomLevel * s.bitmapZoom
    ensures r.cropRegion == s.zoom
  {
    AccessOutcome(s, Effective(s), s.zoom)
  }

  /** `setCameraZoomToMax`: drops the bitmap zoom to 1, re-sends the stored
      (not recomputed) crop region, and reports the optical zoom, which is now
      the whole of the reported zoom. */
  function SetCameraZoomToMax(s: ZoomState): (r: AccessOutcome)
    ensures r.state.bitmapZoom == 1.0
    ensures r.state.zoomLevel == s.zoomLevel && r.state.zoom == s.zoom && r.state.fingerSpacing == s.fingerSpacing
    ensures r.factor == s.zoomLevel && r.factor == Effective(r.state)
    ensures r.cropRegion == s.zoom
  {
    AccessOutcome(s.(bitmapZoom := 1.0), s.zoomLevel, s.zoom)
  }
}
