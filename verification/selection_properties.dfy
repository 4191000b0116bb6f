/**
 What the two selection policies of `getOptimalPreviewSize` choose, stated
 over the candidate list rather than over the intermediate lists, and the
 corresponding promise of `getCaptureSize` under the by-area ordering.
 */
module SelectionProperties {
  import opened Optional
  import opened KotlinMath
  import opened CameraService

  /** The by-area ordering satisfies the comparator laws. */
  lemma ByAreaIsComparator()
    ensures IsComparator(ByArea)
  {
  }

  /** A candidate of the preview search: it passes the aspect test and lies on
      the given side of the viewport. */
  predicate Candidate(o: Size, choices: seq<Size>, aspect: Size, viewWidth: int, viewHeight: int, covering: bool) {
    o in choices && MatchesAspect(o, aspect) && Covers(o, viewWidth, viewHeight) == covering
  }

  /** Policy off, something covers the viewport: the result is a covering match
      of least area among the covering matches. */
  lemma PolicyOffPicksSmallestCovering(choices: seq<Size>, viewWidth: int, viewHeight: int,
                                       maxWidth: int, maxHeight: int, aspect: Size)
    requires |choices| > 0 && aspect.width != 0
    requires exists o :: Candidate(o, choices, aspect, viewWidth, viewHeight, true)
    ensures var r := OptimalPreviewSize(Some(choices), viewWidth, viewHeight, maxWidth, maxHeight, aspect, false);
            && Candidate(r, choices, aspect, viewWidth, viewHeight, true)
            && forall o :: Candidate(o, choices, aspect, viewWidth, viewHeight, true) ==> Area(r) <= Area(o)
  {
    ByAreaIsComparator();
    var p := Partition(choices, viewWidth, viewHeight, aspect);
    var o :| Candidate(o, choices, aspect, viewWidth, viewHeight, true);
    assert o in p.bigEnough;
  }

  /** Policy off, nothing covers the viewport: the result is a match below the
      viewport of greatest area among those. */
  lemma PolicyOffPicksLargestBelow(choices: seq<Size>, viewWidth: int, viewHeight: int,
                                   maxWidth: int, maxHeight: int, aspect: Size)
    requires |choices| > 0 && aspect.width != 0
    requires forall o :: !Candidate(o, choices, aspect, viewWidth, viewHeight, true)
    requires exists o :: Candidate(o, choices, aspect, viewWidth, viewHeight, false)
    ensures var r := OptimalPreviewSize(Some(choices), viewWidth, viewHeight, maxWidth, maxHeight, aspect, false);
            && Candidate(r, choices, aspect, viewWidth, viewHeight, false)
            && forall o :: Candidate(o, choices, aspect, viewWidth, viewHeight, false) ==> Area(o) <= Area(r)
  {
    ByAreaIsComparator();
    var p := Partition(choices, viewWidth, viewHeight, aspect);
    var o :| Candidate(o, choices, aspect, viewWidth, viewHeight, false);
    assert o in p.notBigEnough;
    if |p.bigEnough| > 0 {
      assert Candidate(p.bigEnough[0], choices, aspect, viewWidth, viewHeight, true);
    }
  }

  /** Policy on, something lies below the viewport: the result is a match below
      the viewport of least area among those. */
  lemma PolicyOnPicksSmallestBelow(choices: seq<Size>, viewWidth: int, viewHeight: int,
                                   maxWidth: int, maxHeight: int, aspect: Size)
    requires |choices| > 0 && aspect.width != 0
    requires exists o :: Candidate(o, choices, aspect, viewWidth, viewHeight, false)
    ensures var r := OptimalPreviewSize(Some(choices), viewWidth, viewHeight, maxWidth, maxHeight, aspect, true);
            && Candidate(r, choices, aspect, viewWidth, viewHeight, false)
            && forall o :: Candidate(o, choices, aspect, viewWidth, viewHeight, false) ==> Area(r) <= Area(o)
  {
    ByAreaIsComparator();
    var p := Partition(choices, viewWidth, viewHeight, aspect);
    var o :| Candidate(o, choices, aspect, viewWidth, viewHeight, false);
    assert o in p.notBigEnough;
  }

  /** Policy on, nothing lies below the viewport: the result is a covering match
      of least area among the covering matches. */
  lemma PolicyOnPicksSmallestCovering(choices: seq<Size>, viewWidth: int, viewHeight: int,
                                      maxWidth: int, maxHeight: int, aspect: Size)
    requires |choices| > 0 && aspect.width != 0
    requires forall o :: !Candidate(o, choices, aspect, viewWidth, viewHeight, false)
    requires exists o :: Candidate(o, choices, aspect, viewWidth, viewHeight, true)
    ensures var r := OptimalPreviewSize(Some(choices), viewWidth, viewHeight, maxWidth, maxHeight, aspect, true);
            && Candidate(r, choices, aspect, viewWidth, viewHeight, true)
            && forall o :: Candidate(o, choices, aspect, viewWidth, viewHeight, true) ==> Area(r) <= Area(o)
  {
    ByAreaIsComparator();
    var p := Partition(choices, viewWidth, viewHeight, aspect);
    var o :| Candidate(o, choices, aspect, viewWidth, viewHeight, true);
    assert o in p.bigEnough;
    if |p.notBigEnough| > 0 {
      assert Candidate(p.notBigEnough[0], choices, aspect, viewWidth, viewHeight, false);
    }
  }

  /** The size limits are never read: any two limits give the same result. */
  lemma MaxSizeIsIgnored(outputSizes: Option<seq<Size>>, viewWidth: int, viewHeight: int,
                         maxWidth: int, maxHeight: int, otherMaxWidth: int, otherMaxHeight: int,
                         aspect: Size, dlssIsOn: bool)
    requires outputSizes.Some? ==> |outputSizes.value| > 0 && aspect.width != 0
    ensures OptimalPreviewSize(outputSizes, viewWidth, viewHeight, maxWidth, maxHeight, aspect, dlssIsOn)
            == OptimalPreviewSize(outputSizes, viewWidth, viewHeight, otherMaxWidth, otherMaxHeight, aspect, dlssIsOn)
  {
  }

  /** Under the by-area ordering the capture size has the greatest area on offer. */
  lemma CaptureSizeByAreaIsLargest(sizes: seq<Size>)
    requires |sizes| > 0
    ensures CaptureSize(Some(sizes), ByArea) in sizes
    ensures forall x :: x in sizes ==> Area(x) <= Area(CaptureSize(Some(sizes), ByArea))
  {
    ByAreaIsComparator();
  }

  /** A 4:3 viewport of 640x480 with the policy off gets the exact covering match;
      1920x1080 is not 4:3 and is never considered. */
  lemma ExactCoveringMatch()
    ensures OptimalPreviewSize(Some([Size(320, 240), Size(640, 480), Size(1280, 960), Size(1920, 1080)]),
                               640, 480, 1920, 1080, Size(4, 3), false) == Size(640, 480)
  {
    var choices := [Size(320, 240), Size(640, 480), Size(1280, 960), Size(1920, 1080)];
    assert Candidate(Size(640, 480), choices, Size(4, 3), 640, 480, true);
    PolicyOffPicksSmallestCovering(choices, 640, 480, 1920, 1080, Size(4, 3));
    var r := OptimalPreviewSize(Some(choices), 640, 480, 1920, 1080, Size(4, 3), false);
    assert r in choices;
    assert !MatchesAspect(Size(1920, 1080), Size(4, 3));
  }

  /** A 1600x1200 viewport that no 4:3 size covers, policy off: the largest 4:3 size below it. */
  lemma LargestBelowWhenNothingCovers()
    ensures OptimalPreviewSize(Some([Size(320, 240), Size(640, 480), Size(1280, 960), Size(1920, 1080)]),
                               1600, 1200, 1920, 1080, Size(4, 3), false) == Size(1280, 960)
  {
    var choices := [Size(320, 240), Size(640, 480), Size(1280, 960), Size(1920, 1080)];
    assert !MatchesAspect(Size(1920, 1080), Size(4, 3));
    assert forall o :: o in choices ==> !Covers(o, 1600, 1200) || o == Size(1920, 1080);
    assert Candidate(Size(1280, 960), choices, Size(4, 3), 1600, 1200, false);
    PolicyOffPicksLargestBelow(choices, 1600, 1200, 1920, 1080, Size(4, 3));
    var r := OptimalPreviewSize(Some(choices), 1600, 1200, 1920, 1080, Size(4, 3), false);
    OnlyLargestBelow(r);
  }

  lemma OnlyLargestBelow(r: Size)
    requires Candidate(r, [Size(320, 240), Size(640, 480), Size(1280, 960), Size(1920, 1080)], Size(4, 3), 1600, 1200, false)
    requires Area(Size(1280, 960)) <= Area(r)
    ensures r == Size(1280, 960)
  {
    assert !MatchesAspect(Size(1920, 1080), Size(4, 3));
  }
}
