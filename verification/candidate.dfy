/**
 * Per-frame candidate selection: the scan of the OCR results in
 * detect_plate_easyocr and the integer box it builds from a plate's corners.
 */
module Candidate {
  import opened Wrappers
  import opened PlateText

  /** A corner of the quadrilateral the OCR engine reports, in pixels. */
  datatype Point = Point(x: int, y: int)

  /**
   * One OCR result (bbox, text, prob). `saveFails` stands for the outcome of
   * the crop-and-save work done for a plausible item (making the detections
   * directory, slicing the frame, writing the image): true when it raises.
   */
  datatype OcrItem = OcrItem(bbox: seq<Point>, text: string, confidence: real, saveFails: bool)

  /** What the OCR call produced for a frame: it raised, or it read these items. */
  datatype OcrOutcome = OcrRaised | OcrRead(items: seq<OcrItem>)

  /** The axis-aligned box (x, y, w, h) returned with a plate. */
  datatype Box = Box(x: int, y: int, w: int, h: int)

  datatype Detection = Detection(plate: string, box: Box)

  /** Items with a confidence below this are skipped. */
  const MinConfidence: real := 0.6

  /** The number of corners an item's box must have. */
  const Corners: nat := 4

  function Xs(pts: seq<Point>): (xs: seq<int>)
    ensures |xs| == |pts| && forall k :: 0 <= k < |pts| ==> xs[k] == pts[k].x
  {
    seq(|pts|, k requires 0 <= k < |pts| => pts[k].x)
  }

  function Ys(pts: seq<Point>): (ys: seq<int>)
    ensures |ys| == |pts| && forall k :: 0 <= k < |pts| ==> ys[k] == pts[k].y
  {
    seq(|pts|, k requires 0 <= k < |pts| => pts[k].y)
  }

  /** Python's min over a non-empty list. */
  function Min(s: seq<int>): (m: int)
    requires |s| > 0
    ensures m in s && forall k :: 0 <= k < |s| ==> m <= s[k]
  {
    if |s| == 1 then s[0]
    else if s[0] <= Min(s[1..]) then s[0] else Min(s[1..])
  }

  /** Python's max over a non-empty list. */
  function Max(s: seq<int>): (m: int)
    requires |s| > 0
    ensures m in s && forall k :: 0 <= k < |s| ==> s[k] <= m
  {
    if |s| == 1 then s[0]
    else if s[0] >= Max(s[1..]) then s[0] else Max(s[1..])
  }

  /** The point lies inside the box, edges included. */
  predicate Inside(p: Point, b: Box) {
    b.x <= p.x <= b.x + b.w && b.y <= p.y <= b.y + b.h
  }

  /**
   * The box built from the corners: x and y are the least coordinates, w and h
   * the spans. It contains every corner and each of its edges touches one.
   */
  function BoundingBox(pts: seq<Point>): (b: Box)
    requires |pts| > 0
    ensures b.w >= 0 && b.h >= 0
    ensures forall k :: 0 <= k < |pts| ==> Inside(pts[k], b)
    ensures exists k :: 0 <= k < |pts| && pts[k].x == b.x
    ensures exists k :: 0 <= k < |pts| && pts[k].y == b.y
    ensures exists k :: 0 <= k < |pts| && pts[k].x == b.x + b.w
    ensures exists k :: 0 <= k < |pts| && pts[k].y == b.y + b.h
  {
    var xs, ys := Xs(pts), Ys(pts);
    var x, y := Min(xs), Min(ys);
    Box(x, y, Max(xs) - x, Max(ys) - y)
  }

  /** Every box that holds all the corners holds the bounding box. */
  lemma BoundingBoxIsSmallest(pts: seq<Point>, b: Box)
    requires |pts| > 0
    requires forall k :: 0 <= k < |pts| ==> Inside(pts[k], b)
    ensures var bb := BoundingBox(pts);
      b.x <= bb.x && b.y <= bb.y && bb.x + bb.w <= b.x + b.w && bb.y + bb.h <= b.y + b.h
  {
    var bb := BoundingBox(pts);
    var i :| 0 <= i < |pts| && pts[i].x == bb.x;
    var j :| 0 <= j < |pts| && pts[j].y == bb.y;
    var m :| 0 <= m < |pts| && pts[m].x == bb.x + bb.w;
    var n :| 0 <= n < |pts| && pts[n].y == bb.y + bb.h;
    assert Inside(pts[i], b) && Inside(pts[j], b) && Inside(pts[m], b) && Inside(pts[n], b);
  }

  /**
   * The item is the one the scan returns if it gets to it: confident enough,
   * its text yields a plate, its box has four corners, and saving it does not raise.
   */
  predicate Survives(item: OcrItem) {
    !(item.confidence < MinConfidence)
    && CleanText(item.text).Some?
    && |item.bbox| == Corners
    && !item.saveFails
  }

  /** What the scan returns for a surviving item. */
  function DetectionOf(item: OcrItem): Detection
    requires Survives(item)
  {
    Detection(CleanText(item.text).value, BoundingBox(item.bbox))
  }

  /** The scan as a function: the first surviving item, in order. */
  function Select(items: seq<OcrItem>): Option<Detection>
  {
    if items == [] then None
    else if Survives(items[0]) then Some(DetectionOf(items[0]))
    else Select(items[1..])
  }

  function SelectFrame(ocr: OcrOutcome): Option<Detection>
  {
    match ocr
    case OcrRaised => None
    case OcrRead(items) => Select(items)
  }

  /** k is the first surviving item. */
  predicate FirstSurvivor(items: seq<OcrItem>, k: int) {
    0 <= k < |items| && Survives(items[k]) && forall j :: 0 <= j < k ==> !Survives(items[j])
  }

  /**
   * The scan returns the first item in scan order that survives, whatever the
   * confidences of later items, and nothing when no item survives.
   */
  lemma {:induction false} SelectIsFirstSurvivor(items: seq<OcrItem>) returns (k: int)
    ensures Select(items).None? <==> forall j :: 0 <= j < |items| ==> !Survives(items[j])
    ensures Select(items).Some? ==> FirstSurvivor(items, k) && Select(items).value == DetectionOf(items[k])
  {
    if items == [] {
      k := 0;
    } else if Survives(items[0]) {
      k := 0;
    } else {
      var rest := items[1..];
      var k' := SelectIsFirstSurvivor(rest);
      assert Select(items) == Select(rest);
      if Select(rest).Some? {
        k := k' + 1;
        assert items[k] == rest[k'];
        forall j | 0 <= j < k ensures !Survives(items[j]) {
          if j > 0 {
            assert items[j] == rest[j - 1];
          }
        }
      } else {
        k := 0;
        forall j | 0 <= j < |items| ensures !Survives(items[j]) {
          if j > 0 {
            assert items[j] == rest[j - 1];
          }
        }
      }
    }
  }

  /** A returned plate came from an item of confidence at least 0.6 whose text yields it. */
  lemma {:induction false} SelectedIsConfidentPlate(items: seq<OcrItem>)
    requires Select(items).Some?
    ensures IsPlate(Select(items).value.plate)
    ensures exists k :: (0 <= k < |items| && items[k].confidence >= MinConfidence
                         && CleanText(items[k].text) == Some(Select(items).value.plate))
  {
    var k := SelectIsFirstSurvivor(items);
    CleanTextResultIsPlate(items[k].text);
  }

  /**
   * detect_plate_easyocr after the OCR call: scan the items in order, skip
   * the ones that fail a check or raise while being saved, return the first
   * plate with its box, or (None, None).
   */
  method DetectPlate(ocr: OcrOutcome) returns (plate: Option<string>, box: Option<Box>)
    ensures plate.None? <==> box.None?
    ensures ocr.OcrRaised? ==> plate.None?
    ensures SelectFrame(ocr) == if plate.Some? then Some(Detection(plate.value, box.value)) else None
  {
    if ocr.OcrRaised? {
      return None, None;
    }
    var items := ocr.items;
    var i := 0;
    while i < |items|
      invariant 0 <= i <= |items|
      invariant Select(items) == Select(items[i..])
    {
      var item := items[i];
      if item.confidence < MinConfidence {
        i := i + 1;
        assert items[i..] == items[i - 1..][1..];
        continue;
      }
      var text := CleanText(item.text);
      if text.Some? && |item.bbox| == Corners {
        if !item.saveFails {
          var b := BoundingBox(item.bbox);
          assert Survives(items[i]);
          return text, Some(b);
        }
      }
      i := i + 1;
      assert items[i..] == items[i - 1..][1..];
    }
    return None, None;
  }
}
