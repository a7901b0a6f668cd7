/** The values the policy container passes to and receives from imgaug:
    the image (only its height and width are ever read), axis-aligned
    bounding boxes, the box set tied to an image's shape, and the two
    output conversions of the container (`_bbs_to_pixel` and
    `_bbs_to_percent`). Coordinates are Dafny `real`s; the source's
    floating-point rounding is not modelled. */
module Boxes {
  import opened Exceptions

  /** An image array; `height` is `image.shape[0]`, `width` is `image.shape[1]`.
      The pixel values are carried along and never inspected. */
  datatype Image = Image(height: nat, width: nat, pixels: seq<int>)

  /** imgaug's `BoundingBox`, with its derived size and centre. */
  datatype Box = Box(x1: real, y1: real, x2: real, y2: real) {
    function Width(): real { x2 - x1 }
    function Height(): real { y2 - y1 }
    function CenterX(): real { x1 + Width() / 2.0 }
    function CenterY(): real { y1 + Height() / 2.0 }
  }

  /** imgaug's `BoundingBoxesOnImage`: the boxes and the image shape they refer to. */
  datatype BoxSet = BoxSet(boxes: seq<Box>, height: nat, width: nat)

  /** A box as integer pixel corners `[x_min, y_min, x_max, y_max]`: the
      caller's input format and the pixel output format. */
  datatype PixelBox = PixelBox(x1: int, y1: int, x2: int, y2: int)

  /** A box in YOLO format `[x_centre, y_centre, box_width, box_height]`,
      each a fraction of the image's width or height. */
  datatype YoloBox = YoloBox(cx: real, cy: real, w: real, h: real)

  /** `BoundingBoxesOnImage([BoundingBox(*bb) for bb in boxes], image.shape)`.
      imgaug's `BoundingBox` constructor swaps the two x corners when
      `x1 > x2`, and the two y corners when `y1 > y2`, so every stored box
      has its corners in order. */
  function FromPixels(boxes: seq<PixelBox>, image: Image): (bbs: BoxSet)
    ensures |bbs.boxes| == |boxes|
    ensures bbs.height == image.height && bbs.width == image.width
    ensures forall i :: 0 <= i < |boxes| ==>
      bbs.boxes[i].x1 <= bbs.boxes[i].x2 && bbs.boxes[i].y1 <= bbs.boxes[i].y2
    ensures forall i :: 0 <= i < |boxes| ==>
      bbs.boxes[i].x1 == Min(boxes[i].x1, boxes[i].x2) as real &&
      bbs.boxes[i].x2 == Max(boxes[i].x1, boxes[i].x2) as real &&
      bbs.boxes[i].y1 == Min(boxes[i].y1, boxes[i].y2) as real &&
      bbs.boxes[i].y2 == Max(boxes[i].y1, boxes[i].y2) as real
  {
    BoxSet(seq(|boxes|, i requires 0 <= i < |boxes| => FromPixel(boxes[i])), image.height, image.width)
  }

  function Min(a: int, b: int): int { if a <= b then a else b }
  function Max(a: int, b: int): int { if a <= b then b else a }

  /** `BoundingBox(x1, y1, x2, y2)`. */
  function FromPixel(b: PixelBox): Box {
    var (x1, x2) := if b.x1 > b.x2 then (b.x2, b.x1) else (b.x1, b.x2);
    var (y1, y2) := if b.y1 > b.y2 then (b.y2, b.y1) else (b.y1, b.y2);
    Box(x1 as real, y1 as real, x2 as real, y2 as real)
  }

  /** An input box with its corners put in order, as imgaug stores it. */
  function Ordered(b: PixelBox): (o: PixelBox)
    ensures o.x1 <= o.x2 && o.y1 <= o.y2
    ensures (b.x1 <= b.x2 && b.y1 <= b.y2) <==> o == b
  {
    PixelBox(Min(b.x1, b.x2), Min(b.y1, b.y2), Max(b.x1, b.x2), Max(b.y1, b.y2))
  }

  /** Lies in the range of NumPy's `int32`. */
  predicate InInt32(n: int) {
    -0x8000_0000 <= n < 0x8000_0000
  }

  predicate CornersInInt32(b: PixelBox) {
    InInt32(b.x1) && InInt32(b.y1) && InInt32(b.x2) && InInt32(b.y2)
  }

  /** NumPy's cast of a float to `int32`: the fractional part is dropped,
      towards zero, so the result is never further from zero than `x`. */
  function Truncate(x: real): (n: int)
    ensures 0.0 <= x ==> 0 <= n && n as real <= x < n as real + 1.0
    ensures x < 0.0 ==> n <= 0 && n as real - 1.0 < x <= n as real
  {
    if x >= 0.0 then x.Floor else -((-x).Floor)
  }

  /** Truncation is not rounding and not flooring. */
  lemma TruncateIsNotRounding()
    ensures Truncate(2.7) == 2 && Truncate(-2.7) == -2
  {
  }

  function ToPixel(b: Box): PixelBox {
    PixelBox(Truncate(b.x1), Truncate(b.y1), Truncate(b.x2), Truncate(b.y2))
  }

  /** `_bbs_to_pixel`: one row per box, in order, each corner truncated to an int. */
  function BbsToPixel(boxes: seq<Box>): (rows: seq<PixelBox>)
    ensures |rows| == |boxes|
    ensures forall i :: 0 <= i < |boxes| ==> rows[i] == ToPixel(boxes[i])
  {
    seq(|boxes|, i requires 0 <= i < |boxes| => ToPixel(boxes[i]))
  }

  /** Integer input boxes that no step touched come back in pixel format
      with their corners in order, so unchanged when they were in order
      already; stated for corners in the `int32` range, outside which the
      cast does not keep the value. */
  lemma PixelRoundTrip(boxes: seq<PixelBox>, image: Image)
    requires forall i :: 0 <= i < |boxes| ==> CornersInInt32(boxes[i])
    ensures BbsToPixel(FromPixels(boxes, image).boxes) == seq(|boxes|, i requires 0 <= i < |boxes| => Ordered(boxes[i]))
    ensures (forall i :: 0 <= i < |boxes| ==> boxes[i].x1 <= boxes[i].x2 && boxes[i].y1 <= boxes[i].y2) ==>
            BbsToPixel(FromPixels(boxes, image).boxes) == boxes
  {
    var rows := BbsToPixel(FromPixels(boxes, image).boxes);
    var ordered := seq(|boxes|, i requires 0 <= i < |boxes| => Ordered(boxes[i]));
    assert |rows| == |boxes|;
    forall i | 0 <= i < |boxes|
      ensures rows[i] == ordered[i]
    {
      assert FromPixels(boxes, image).boxes[i] == FromPixel(boxes[i]);
    }
    assert rows == ordered;
    if forall i :: 0 <= i < |boxes| ==> boxes[i].x1 <= boxes[i].x2 && boxes[i].y1 <= boxes[i].y2 {
      assert ordered == boxes;
    }
  }

  /** A box given with its x corners the wrong way round comes back ordered. */
  lemma SwappedCornersExample(image: Image)
    ensures BbsToPixel(FromPixels([PixelBox(50, 0, 0, 50)], image).boxes) == [PixelBox(0, 0, 50, 50)]
  {
    PixelRoundTrip([PixelBox(50, 0, 0, 50)], image);
  }

  /** One box in YOLO format; `imageHeight` and `imageWidth` must be non-zero,
      as Python's `/` raises otherwise. The result determines the box again. */
  function ToYolo(b: Box, imageHeight: nat, imageWidth: nat): (y: YoloBox)
    requires imageHeight > 0 && imageWidth > 0
    ensures YoloToBox(y, imageHeight, imageWidth) == b
  {
    var hr, wr := imageHeight as real, imageWidth as real;
    var y := YoloBox(b.CenterX() / wr, b.CenterY() / hr, b.Width() / wr, b.Height() / hr);
    DivMul(b.CenterX(), wr);
    DivMul(b.CenterY(), hr);
    DivMul(b.Width(), wr);
    DivMul(b.Height(), hr);
    y
  }

  /** The inverse reading of a YOLO row: back to corner coordinates in pixels. */
  function YoloToBox(y: YoloBox, imageHeight: nat, imageWidth: nat): Box {
    var hr, wr := imageHeight as real, imageWidth as real;
    Box(y.cx * wr - y.w * wr / 2.0, y.cy * hr - y.h * hr / 2.0,
        y.cx * wr + y.w * wr / 2.0, y.cy * hr + y.h * hr / 2.0)
  }

  lemma DivMul(a: real, d: real)
    requires d != 0.0
    ensures a / d * d == a
  {
  }

  /** `_bbs_to_percent`: one YOLO row per box, in order. A zero image side
      raises ZeroDivisionError, but only when there is a box to divide. */
  function BbsToPercent(boxes: seq<Box>, imageHeight: nat, imageWidth: nat): (r: Result<seq<YoloBox>>)
    ensures r.Err? <==> |boxes| > 0 && (imageHeight == 0 || imageWidth == 0)
    ensures r.Err? ==> r.error == ZeroDivisionError
    ensures r.Ok? ==> |r.value| == |boxes|
    ensures r.Ok? ==> forall i :: 0 <= i < |boxes| ==>
      YoloToBox(r.value[i], imageHeight, imageWidth) == boxes[i]
  {
    if |boxes| == 0 then Ok([])
    else if imageHeight == 0 || imageWidth == 0 then Err(ZeroDivisionError)
    else Ok(seq(|boxes|, i requires 0 <= i < |boxes| => ToYolo(boxes[i], imageHeight, imageWidth)))
  }

  lemma DivUnit(a: real, d: real)
    requires 0.0 <= a <= d && d > 0.0
    ensures 0.0 <= a / d <= 1.0
  {
  }

  /** A box lying within the image (as clipping leaves it) has all four
      YOLO values in [0, 1]. */
  lemma YoloInUnitRange(b: Box, imageHeight: nat, imageWidth: nat)
    requires imageHeight > 0 && imageWidth > 0
    requires 0.0 <= b.x1 <= b.x2 <= imageWidth as real
    requires 0.0 <= b.y1 <= b.y2 <= imageHeight as real
    ensures var y := ToYolo(b, imageHeight, imageWidth);
      0.0 <= y.cx <= 1.0 && 0.0 <= y.cy <= 1.0 && 0.0 <= y.w <= 1.0 && 0.0 <= y.h <= 1.0
  {
    DivUnit(b.CenterX(), imageWidth as real);
    DivUnit(b.CenterY(), imageHeight as real);
    DivUnit(b.Width(), imageWidth as real);
    DivUnit(b.Height(), imageHeight as real);
  }

  /** The box (10, 20, 110, 220) on an image 200 wide and 300 high. */
  lemma YoloExample()
    ensures ToYolo(Box(10.0, 20.0, 110.0, 220.0), 300, 200) == YoloBox(0.3, 0.4, 0.5, 2.0 / 3.0)
  {
  }
}
