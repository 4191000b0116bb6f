/**
 Output-size selection of `CameraService.Base`: choosing a preview size for a
 viewport and aspect ratio under two policies, and a still-capture size under
 a caller's comparator.

 Comparators are modelled as `java.util.Comparator<Size>`: a function whose
 sign orders two sizes. `ComparableByArea`, whose source is not part of this
 model, is assumed to compare by pixel area (`ByArea`).
 */
module CameraService {
  import opened Optional
  import opened KotlinMath

  /** An `android.util.Size`. */
  datatype Size = Size(width: int, height: int)

  /** The sentinel returned when no configuration map is available. */
  const NoSize: Size := Size(0, 0)

  function Area(s: Size): int {
    s.width * s.height
  }

  /** `ComparableByArea` (assumed): orders sizes by their pixel area. */
  function ByArea(a: Size, b: Size): int {
    if Area(a) < Area(b) then -1 else if Area(a) > Area(b) then 1 else 0
  }

  /** The laws of `Comparator` that min/max scans rely on: the sign is
      antisymmetric and "not greater" is transitive. */
  ghost predicate IsComparator(cmp: (Size, Size) -> int) {
    && (forall a, b :: cmp(a, b) < 0 <==> cmp(b, a) > 0)
    && (forall a, b, c :: cmp(a, b) <= 0 && cmp(b, c) <= 0 ==> cmp(a, c) <= 0)
  }

  /** `Collections.min(xs, cmp)`: scans left to right, replacing the candidate
      only by a strictly smaller element. */
  function Least(xs: seq<Size>, cmp: (Size, Size) -> int): (r: Size)
    requires |xs| > 0
    ensures r in xs
    ensures IsComparator(cmp) ==> forall x :: x in xs ==> cmp(r, x) <= 0
    decreases |xs|
  {
    if |xs| == 1 then xs[0]
    else
      var init := xs[..|xs| - 1];
      var candidate := Least(init, cmp);
      var next := xs[|xs| - 1];
      assert xs == init + [next];
      if cmp(next, candidate) < 0 then next else candidate
  }

  /** `Collections.max(xs, cmp)`: scans left to right, replacing the candidate
      only by a strictly greater element. */
  function Greatest(xs: seq<Size>, cmp: (Size, Size) -> int): (r: Size)
    requires |xs| > 0
    ensures r in xs
    ensures IsComparator(cmp) ==> forall x :: x in xs ==> cmp(x, r) <= 0
    decreases |xs|
  {
    if |xs| == 1 then xs[0]
    else
      var init := xs[..|xs| - 1];
      var candidate := Greatest(init, cmp);
      var next := xs[|xs| - 1];
      assert xs == init + [next];
      if cmp(next, candidate) > 0 then next else candidate
  }

  /** `maxWith(cmp)` in its nullable form (Kotlin before 1.5, and `maxWithOrNull`
      since): None for an empty list, otherwise the left-to-right scan replacing
      the candidate when it compares below the next element. */
  function MaxWith(xs: seq<Size>, cmp: (Size, Size) -> int): (r: Option<Size>)
    ensures r.None? <==> |xs| == 0
    ensures r.Some? ==> r.value in xs
    ensures r.Some? && IsComparator(cmp) ==> forall x :: x in xs ==> cmp(x, r.value) <= 0
    decreases |xs|
  {
    if |xs| == 0 then None
    else
      var init := xs[..|xs| - 1];
      var next := xs[|xs| - 1];
      assert xs == init + [next];
      match MaxWith(init, cmp)
      case None => Some(next)
      case Some(candidate) => if cmp(candidate, next) < 0 then Some(next) else Some(candidate)
  }

  /** The aspect test `height == width * aspect.height / aspect.width`, with
      Kotlin's truncating integer division. */
  predicate MatchesAspect(o: Size, aspect: Size) {
    aspect.width != 0 && o.height == TruncDiv(o.width * aspect.height, aspect.width)
  }

  /** The size covers the viewport in both dimensions. */
  predicate Covers(o: Size, viewWidth: int, viewHeight: int) {
    o.width >= viewWidth && o.height >= viewHeight
  }

  /** The two lists the selection loop builds, in the order of `choices`. */
  datatype Split = Split(bigEnough: seq<Size>, notBigEnough: seq<Size>)

  /** The selection loop: every aspect match goes to `bigEnough` when it covers
      the viewport and to `notBigEnough` otherwise; other sizes are dropped. */
  function Partition(choices: seq<Size>, viewWidth: int, viewHeight: int, aspect: Size): (p: Split)
    ensures forall o :: o in p.bigEnough
                        <==> o in choices && MatchesAspect(o, aspect) && Covers(o, viewWidth, viewHeight)
    ensures forall o :: o in p.notBigEnough
                        <==> o in choices && MatchesAspect(o, aspect) && !Covers(o, viewWidth, viewHeight)
    ensures |p.bigEnough| + |p.notBigEnough| <= |choices|
    decreases |choices|
  {
    if |choices| == 0 then Split([], [])
    else
      var init := choices[..|choices| - 1];
      var option := choices[|choices| - 1];
      assert choices == init + [option];
      var p := Partition(init, viewWidth, viewHeight, aspect);
      if MatchesAspect(option, aspect) then
        if Covers(option, viewWidth, viewHeight) then Split(p.bigEnough + [option], p.notBigEnough)
        else Split(p.bigEnough, p.notBigEnough + [option])
      else p
  }

  /** `getOptimalPreviewSize`. `outputSizes` is the configuration map's list of
      SurfaceTexture output sizes, None when the camera reports no map.
      `maxWidth` and `maxHeight` are accepted and never read. With
      `dlssIsOn` the smallest size below the viewport is preferred, then the
      smallest covering one; otherwise the smallest covering size, then the
      largest size below the viewport; with no aspect match, the first choice. */
  function OptimalPreviewSize(outputSizes: Option<seq<Size>>, textureViewWidth: int, textureViewHeight: int,
                              maxWidth: int, maxHeight: int, aspectRatio: Size, dlssIsOn: bool): (r: Size)
    requires outputSizes.Some? ==> |outputSizes.value| > 0 && aspectRatio.width != 0
    ensures outputSizes.None? ==> r == NoSize
    ensures outputSizes.Some? ==> r in outputSizes.value
    ensures outputSizes.Some? && (exists o :: o in outputSizes.value && MatchesAspect(o, aspectRatio))
            ==> MatchesAspect(r, aspectRatio)
    ensures outputSizes.Some? && (forall o :: o in outputSizes.value ==> !MatchesAspect(o, aspectRatio))
            ==> r == outputSizes.value[0]
  {
    match outputSizes
    case None => NoSize
    case Some(choices) =>
      var p := Partition(choices, textureViewWidth, textureViewHeight, aspectRatio);
      if dlssIsOn then
        if |p.notBigEnough| > 0 then Least(p.notBigEnough, ByArea)
        else if |p.bigEnough| > 0 then Least(p.bigEnough, ByArea)
        else choices[0]
      else
        if |p.bigEnough| > 0 then Least(p.bigEnough, ByArea)
        else if |p.notBigEnough| > 0 then Greatest(p.notBigEnough, ByArea)
        else choices[0]
  }

  /** `getCaptureSize`. `jpegSizes` is the configuration map's list of JPEG
      output sizes, None when the camera reports no map. The result is a
      greatest size under `comparator`, or the zero sentinel when there is none. */
  function CaptureSize(jpegSizes: Option<seq<Size>>, comparator: (Size, Size) -> int): (r: Size)
    ensures jpegSizes.None? || |jpegSizes.value| == 0 ==> r == NoSize
    ensures jpegSizes.Some? && |jpegSizes.value| > 0 ==> r in jpegSizes.value
    ensures jpegSizes.Some? && |jpegSizes.value| > 0 && IsComparator(comparator)
            ==> forall x :: x in jpegSizes.value ==> comparator(x, r) <= 0
  {
    match jpegSizes
    case None => NoSize
    case Some(sizes) =>
      match MaxWith(sizes, comparator)
      case None => NoSize
      case Some(s) => s
  }
}
