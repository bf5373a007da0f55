/**
 From a click on the shared picture to a position on the sharer's desktop
 (server/assets/rtc_common.js, desktop/src/inject.rs), over the reals.
 */
module Coords {
  import opened Wrappers

  datatype Rect = Rect(left: real, top: real, width: real, height: real)

  /** The pixels of the video; the browser reports whole numbers, 0 before the first frame. */
  datatype Video = Video(width: nat, height: nat)

  datatype Point = Point(x: real, y: real)

  function Times(x: real, y: real): real {
    x * y
  }

  function Over(x: real, y: real): real
    requires y != 0.0
  {
    x / y
  }

  function Min(a: real, b: real): real {
    if a <= b then a else b
  }

  predicate Visible(v: Video, r: Rect) {
    v.width > 0 && v.height > 0 && r.width > 0.0 && r.height > 0.0
  }

  function Scale(v: Video, r: Rect): real
    requires Visible(v, r)
  {
    Min(Over(r.width, v.width as real), Over(r.height, v.height as real))
  }

  /** Where an object-contain video shows its picture. */
  function Picture(v: Video, r: Rect): Rect
    requires Visible(v, r)
  {
    var w, h := Times(v.width as real, Scale(v, r)), Times(v.height as real, Scale(v, r));
    Rect(r.left + (r.width - w) / 2.0, r.top + (r.height - h) / 2.0, w, h)
  }

  /** Of the element's rectangle, sizes are never negative. */
  function NormCoords(video: Option<Video>, r: Rect, click: Point): Option<Point>
    requires r.width >= 0.0 && r.height >= 0.0
  {
    if video.None? then
      None
    else if video.value.width == 0 || video.value.height == 0 then
      None
    else if r.width == 0.0 || r.height == 0.0 then
      None
    else
      var v := video.value;
      var scale := Scale(v, r);
      var dispW, dispH := Times(v.width as real, scale), Times(v.height as real, scale);
      var offX, offY := (r.width - dispW) / 2.0, (r.height - dispH) / 2.0;
      PictureHasSize(v, r);
      var x, y := Over(click.x - r.left - offX, dispW), Over(click.y - r.top - offY, dispH);
      if x < 0.0 || x > 1.0 || y < 0.0 || y > 1.0 then None else Some(Point(x, y))
  }

  // ----- arithmetic -----

  lemma OverTimes(x: real, y: real)
    requires y > 0.0
    ensures Times(Over(x, y), y) == x && Times(y, Over(x, y)) == x
  {
  }

  lemma TimesOver(x: real, y: real)
    requires y > 0.0
    ensures Over(Times(x, y), y) == x
  {
  }

  lemma TimesMonotone(x: real, y: real, k: real)
    requires x <= y && k > 0.0
    ensures Times(k, x) <= Times(k, y)
    ensures x > 0.0 ==> Times(k, x) > 0.0
  {
  }

  lemma OverPositive(x: real, y: real)
    requires x > 0.0 && y > 0.0
    ensures Over(x, y) > 0.0
  {
  }

  /** A fraction is between 0 and 1 exactly when the part is between nothing and the whole. */
  lemma Fraction(x: real, y: real)
    requires y > 0.0
    ensures 0.0 <= Over(x, y) <= 1.0 <==> 0.0 <= x <= y
  {
    OverTimes(x, y);
    var q := Over(x, y);
    if q < 0.0 {
      NegativeTimes(q, y);
    } else if q > 1.0 {
      LargerTimes(q, y);
    } else {
      BetweenTimes(q, y);
    }
  }

  lemma NegativeTimes(q: real, y: real)
    requires q < 0.0 && y > 0.0
    ensures Times(q, y) < 0.0
  {
  }

  lemma LargerTimes(q: real, y: real)
    requires q > 1.0 && y > 0.0
    ensures Times(q, y) > y
  {
  }

  lemma BetweenTimes(q: real, y: real)
    requires 0.0 <= q <= 1.0 && y > 0.0
    ensures 0.0 <= Times(q, y) <= y
  {
  }

  // ----- the picture -----

  /** The picture fits into the element, is centred in it, keeps the video's proportions, and fills it one way. */
  lemma PictureIsContained(v: Video, r: Rect)
    requires Visible(v, r)
    ensures var p := Picture(v, r);
            && 0.0 < p.width <= r.width && 0.0 < p.height <= r.height
            && (p.width == r.width || p.height == r.height)
            && p.left - r.left == (r.left + r.width) - (p.left + p.width)
            && p.top - r.top == (r.top + r.height) - (p.top + p.height)
            && Times(p.width, v.height as real) == Times(p.height, v.width as real)
  {
    var w, h := v.width as real, v.height as real;
    var sx, sy := Over(r.width, w), Over(r.height, h);
    OverTimes(r.width, w);
    OverTimes(r.height, h);
    OverPositive(r.width, w);
    OverPositive(r.height, h);
    var s := Scale(v, r);
    SameProportions(w, h, s);
    hide Times, Over;
    TimesMonotone(s, sx, w);
    TimesMonotone(s, sy, h);
  }

  lemma SameProportions(w: real, h: real, s: real)
    ensures Times(Times(w, s), h) == Times(Times(h, s), w)
  {
  }

  lemma PictureHasSize(v: Video, r: Rect)
    requires Visible(v, r)
    ensures Times(v.width as real, Scale(v, r)) > 0.0 && Times(v.height as real, Scale(v, r)) > 0.0
  {
    PictureIsContained(v, r);
  }

  // ----- clicks -----

  predicate Inside(p: Rect, click: Point) {
    p.left <= click.x <= p.left + p.width && p.top <= click.y <= p.top + p.height
  }

  /** The point of the picture at a fraction of its width and height. */
  function PointAt(p: Rect, at: Point): Point {
    Point(p.left + Times(at.x, p.width), p.top + Times(at.y, p.height))
  }

  /** A click counts exactly when a picture is shown and the click is not in the bars beside it; it is then where it was made. */
  lemma ClicksOnThePicture(video: Option<Video>, r: Rect, click: Point)
    requires r.width >= 0.0 && r.height >= 0.0
    ensures NormCoords(video, r, click).Some? <==> video.Some? && Visible(video.value, r) && Inside(Picture(video.value, r), click)
    ensures NormCoords(video, r, click).Some? ==> PointAt(Picture(video.value, r), NormCoords(video, r, click).value) == click
  {
    if video.Some? && Visible(video.value, r) {
      var v := video.value;
      PictureHasSize(v, r);
      var p := Picture(v, r);
      Fraction(click.x - p.left, p.width);
      Fraction(click.y - p.top, p.height);
      OverTimes(click.x - p.left, p.width);
      OverTimes(click.y - p.top, p.height);
      hide Times, Over, Scale;
    }
  }

  /**
   Every point of the picture can be sent, and what is sent is the same in every window: a click on
   the same place of the picture, shown however large and wherever, gives the same coordinates.
   */
  lemma WindowDoesNotMatter(v: Video, r: Rect, at: Point)
    requires Visible(v, r) && 0.0 <= at.x <= 1.0 && 0.0 <= at.y <= 1.0
    ensures NormCoords(Some(v), r, PointAt(Picture(v, r), at)) == Some(at)
  {
    PictureHasSize(v, r);
    var p := Picture(v, r);
    TimesOver(at.x, p.width);
    TimesOver(at.y, p.height);
    hide Times, Over, Scale;
  }

  // ----- the sharer's desktop -----

  const Top := 65535

  function Clamp(x: real): real {
    if x < 0.0 then 0.0 else if x > 1.0 then 1.0 else x
  }

  /** Rust rounds halves away from zero; what is rounded here is not negative. */
  function Abs(x: real): int {
    (Clamp(x) * 65535.0 + 0.5).Floor
  }

  /** The desktop position is in range, at most half a step off, and keeps the order; every position can be reached. */
  lemma AbsIsFaithful(x: real, y: real, i: int)
    ensures 0 <= Abs(x) <= Top
    ensures 0.0 <= x <= 1.0 ==> -0.5 <= Abs(x) as real - x * 65535.0 <= 0.5
    ensures x <= y ==> Abs(x) <= Abs(y)
    ensures 0 <= i <= Top ==> Abs(i as real / 65535.0) == i
    ensures x <= 0.0 ==> Abs(x) == 0
    ensures x >= 1.0 ==> Abs(x) == Top
  {
    AbsInRange(x);
    AbsOrdered(x, y);
    if 0 <= i <= Top {
      AbsReaches(i);
    }
  }

  lemma AbsInRange(x: real)
    ensures 0 <= Abs(x) <= Top
  {
    assert 0.0 <= Clamp(x) * 65535.0 <= 65535.0;
  }

  lemma FloorOrdered(x: real, y: real)
    requires x <= y
    ensures x.Floor <= y.Floor
  {
  }

  lemma AbsOrdered(x: real, y: real)
    ensures x <= y ==> Abs(x) <= Abs(y)
  {
    if x <= y {
      FloorOrdered(Clamp(x) * 65535.0 + 0.5, Clamp(y) * 65535.0 + 0.5);
    }
  }

  lemma AbsReaches(i: int)
    requires 0 <= i <= Top
    ensures Abs(i as real / 65535.0) == i
  {
    var x := i as real / 65535.0;
    assert x * 65535.0 == i as real;
    assert 0.0 <= x <= 1.0;
  }

  /** A click on the picture and the position the sharer's desktop is told, however the viewer's window looks. */
  lemma ClickToDesktop(v: Video, r: Rect, r': Rect, at: Point)
    requires Visible(v, r) && Visible(v, r') && 0.0 <= at.x <= 1.0 && 0.0 <= at.y <= 1.0
    ensures var sent := NormCoords(Some(v), r, PointAt(Picture(v, r), at));
            && sent == NormCoords(Some(v), r', PointAt(Picture(v, r'), at))
            && sent.Some?
            && -0.5 <= Abs(sent.value.x) as real - at.x * 65535.0 <= 0.5
            && -0.5 <= Abs(sent.value.y) as real - at.y * 65535.0 <= 0.5
  {
    WindowDoesNotMatter(v, r, at);
    WindowDoesNotMatter(v, r', at);
    AbsIsFaithful(at.x, at.x, 0);
    AbsIsFaithful(at.y, at.y, 0);
  }
}
