/** The eight output transforms (src/transform-util.c) and the damage area (src/pixels.c).

A transform turns a picture a quarter at a time and then may mirror it. `Moved` says so for one pixel; the
tables and the bit arithmetic of the source are proved to agree with it. */
module Transforms {
  import opened Reals
  import opened Regions

  /** The wl_output_transform enumeration: bits 0 and 1 count quarter turns, bit 2 is the flip. */
  type Transform = t: bv32 | t < 8

  const NORMAL: Transform := 0
  const ROTATED_90: Transform := 1
  const ROTATED_180: Transform := 2
  const ROTATED_270: Transform := 3
  const FLIPPED: Transform := 4
  const FLIPPED_90: Transform := 5
  const FLIPPED_180: Transform := 6
  const FLIPPED_270: Transform := 7

  /** Coordinates of a box are stored in sixteen bits. */
  type Short = x: int | -0x8000 <= x < 0x8000

  function Narrow(x: int): (r: Short)
    ensures -0x8000 <= x < 0x8000 ==> r == x
  {
    (x + 0x8000) % 0x10000 - 0x8000
  }

  /** The pixels with x1 <= x < x2 and y1 <= y < y2. */
  datatype Box = Box(x1: Short, y1: Short, x2: Short, y2: Short)

  /** The width and the height of the picture after the transform. */
  function WidthAfter(t: Transform, w: int, h: int): int { if t & 1 == 1 then h else w }

  function HeightAfter(t: Transform, w: int, h: int): int { if t & 1 == 1 then w else h }

  // ---------------------------------------------------------------------------------------------------
  // The source's operations

  function TransformBox(t: Transform, w: int, h: int, b: Box): (r: Box)
  {
    if t == NORMAL then b
    else if t == ROTATED_90 then Box(Narrow(h - b.y2), b.x1, Narrow(h - b.y1), b.x2)
    else if t == ROTATED_180 then Box(Narrow(w - b.x2), Narrow(h - b.y2), Narrow(w - b.x1), Narrow(h - b.y1))
    else if t == ROTATED_270 then Box(b.y1, Narrow(w - b.x2), b.y2, Narrow(w - b.x1))
    else if t == FLIPPED then Box(Narrow(w - b.x2), b.y1, Narrow(w - b.x1), b.y2)
    else if t == FLIPPED_90 then Box(b.y1, b.x1, b.y2, b.x2)
    else if t == FLIPPED_180 then Box(b.x1, Narrow(h - b.y2), b.x2, Narrow(h - b.y1))
    else Box(Narrow(h - b.y2), Narrow(w - b.x2), Narrow(h - b.y1), Narrow(w - b.x1))
  }

  function TransformRegion(t: Transform, w: int, h: int, boxes: seq<Box>): (r: seq<Box>)
    ensures |r| == |boxes| && forall i | 0 <= i < |r| :: r[i] == TransformBox(t, w, h, boxes[i])
  {
    seq(|boxes|, i requires 0 <= i < |boxes| => TransformBox(t, w, h, boxes[i]))
  }

  function Invert(t: Transform): (r: Transform)
  {
    if t & ROTATED_90 != 0 && t & FLIPPED == 0 then t ^ ROTATED_180 else t
  }

  function Compose(a: Transform, b: Transform): (r: Transform)
  {
    var flipped := (a ^ b) & FLIPPED;
    var mask := ROTATED_90 | ROTATED_180;
    var rotated := if b & FLIPPED != 0 then (b - a) & mask else (a + b) & mask;
    flipped | rotated
  }

  // ---------------------------------------------------------------------------------------------------
  // What a transform means

  function Turn(h: int, p: Pixel): Pixel { (h - 1 - p.1, p.0) }

  function Mirror(w: int, p: Pixel): Pixel { (w - 1 - p.0, p.1) }

  /** A number of quarter turns of a picture of width w and height h. */
  function Turned(quarters: nat, w: int, h: int, p: Pixel): Pixel
    decreases quarters
  {
    if quarters == 0 then p else Turned(quarters - 1, h, w, Turn(h, p))
  }

  function Quarters(t: Transform): nat
  {
    var k := t & 3; if k == 0 then 0 else if k == 1 then 1 else if k == 2 then 2 else 3
  }

  /** Where the transform takes a pixel. */
  function Moved(t: Transform, w: int, h: int, p: Pixel): Pixel
  {
    var q := Turned(Quarters(t), w, h, p);
    if t & FLIPPED != 0 then Mirror(WidthAfter(t, w, h), q) else q
  }

  lemma EightCases(t: Transform)
    ensures t == 0 || t == 1 || t == 2 || t == 3 || t == 4 || t == 5 || t == 6 || t == 7
  {
  }

  lemma TurnedThrice(w: int, h: int, p: Pixel)
    ensures Turned(1, w, h, p) == (h - 1 - p.1, p.0)
    ensures Turned(2, w, h, p) == (w - 1 - p.0, h - 1 - p.1)
    ensures Turned(3, w, h, p) == (p.1, w - 1 - p.0)
  {
    assert Turned(2, h, w, Turn(h, p)) == Turned(1, w, h, Turn(w, Turn(h, p)));
  }

  /** The same as a table. */
  lemma MovedTable(t: Transform, w: int, h: int, p: Pixel)
    ensures var (x, y) := p;
            Moved(t, w, h, p) ==
            (if t == NORMAL then (x, y)
             else if t == ROTATED_90 then (h - 1 - y, x)
             else if t == ROTATED_180 then (w - 1 - x, h - 1 - y)
             else if t == ROTATED_270 then (y, w - 1 - x)
             else if t == FLIPPED then (w - 1 - x, y)
             else if t == FLIPPED_90 then (y, x)
             else if t == FLIPPED_180 then (x, h - 1 - y)
             else (h - 1 - y, w - 1 - x))
  {
    EightCases(t);
    TurnedThrice(w, h, p);
  }

  // ---------------------------------------------------------------------------------------------------
  // Composition

  /** b and then a is one transform, compose(a, b): on pixels, for every size. */
  lemma ComposeMoves(a: Transform, b: Transform, w: int, h: int, p: Pixel)
    ensures Moved(Compose(a, b), w, h, p) == Moved(a, WidthAfter(b, w, h), HeightAfter(b, w, h), Moved(b, w, h, p))
    ensures WidthAfter(Compose(a, b), w, h) == WidthAfter(a, WidthAfter(b, w, h), HeightAfter(b, w, h))
  {
    EightCases(a);
    EightCases(b);
    MovedTable(b, w, h, p);
    MovedTable(Compose(a, b), w, h, p);
    MovedTable(a, WidthAfter(b, w, h), HeightAfter(b, w, h), Moved(b, w, h, p));
  }

  lemma NarrowTwice(size: int, x: Short)
    ensures Narrow(size - Narrow(size - x)) == x
  {
    var y := size - x;
    assert Narrow(y) == y - (y + 0x8000) / 0x10000 * 0x10000;
    assert size - Narrow(y) == x + (y + 0x8000) / 0x10000 * 0x10000;
  }

  /** The same on boxes, for every size and with the sixteen-bit coordinates. */
  lemma ComposeBoxes(a: Transform, b: Transform, w: int, h: int, box: Box)
    ensures TransformBox(a, WidthAfter(b, w, h), HeightAfter(b, w, h), TransformBox(b, w, h, box)) ==
            TransformBox(Compose(a, b), w, h, box)
  {
    hide Narrow;
    EightCases(a);
    EightCases(b);
    NarrowTwice(w, box.x1);
    NarrowTwice(w, box.x2);
    NarrowTwice(h, box.y1);
    NarrowTwice(h, box.y2);
  }

  lemma ComposeRegions(a: Transform, b: Transform, w: int, h: int, boxes: seq<Box>)
    ensures TransformRegion(a, WidthAfter(b, w, h), HeightAfter(b, w, h), TransformRegion(b, w, h, boxes)) ==
            TransformRegion(Compose(a, b), w, h, boxes)
  {
    forall i | 0 <= i < |boxes| {
      ComposeBoxes(a, b, w, h, boxes[i]);
    }
  }

  /** invert gives the two-sided inverse. */
  lemma InvertComposes(t: Transform)
    ensures Compose(t, Invert(t)) == NORMAL && Compose(Invert(t), t) == NORMAL && Invert(Invert(t)) == t
    ensures t & 1 == Invert(t) & 1
  {
    EightCases(t);
  }

  lemma InvertUndoes(t: Transform, w: int, h: int, boxes: seq<Box>)
    ensures TransformRegion(Invert(t), WidthAfter(t, w, h), HeightAfter(t, w, h), TransformRegion(t, w, h, boxes)) ==
            boxes
    ensures TransformRegion(t, WidthAfter(t, w, h), HeightAfter(t, w, h), TransformRegion(Invert(t), w, h, boxes)) ==
            boxes
  {
    InvertComposes(t);
    ComposeRegions(Invert(t), t, w, h, boxes);
    ComposeRegions(t, Invert(t), w, h, boxes);
  }

  // ---------------------------------------------------------------------------------------------------
  // The region transform on the grid

  function BoxPixels(b: Box): (r: Region)
    ensures forall x, y :: (x, y) in r <==> b.x1 <= x < b.x2 && b.y1 <= y < b.y2
  {
    Rectangle(b.x1, b.y1, b.x2 - b.x1, b.y2 - b.y1)
  }

  function RegionPixels(boxes: seq<Box>): (r: Region)
  {
    if boxes == [] then {} else BoxPixels(boxes[0]) + RegionPixels(boxes[1..])
  }

  function MovedRegion(t: Transform, w: int, h: int, region: Region): (r: Region)
  {
    set p | p in region :: Moved(t, w, h, p)
  }

  predicate IsShort(x: int) { -0x8000 <= x < 0x8000 }

  /** The box may reach outside the picture, as long as its distances from the far edges can be stored. */
  predicate Measurable(w: int, h: int, b: Box)
  {
    IsShort(w - b.x1) && IsShort(w - b.x2) && IsShort(h - b.y1) && IsShort(h - b.y2)
  }

  predicate AllMeasurable(w: int, h: int, boxes: seq<Box>)
  {
    forall i | 0 <= i < |boxes| :: Measurable(w, h, boxes[i])
  }

  predicate Inside(w: int, h: int, b: Box) { 0 <= b.x1 <= b.x2 <= w && 0 <= b.y1 <= b.y2 <= h }

  predicate AllInside(w: int, h: int, boxes: seq<Box>)
  {
    forall i | 0 <= i < |boxes| :: Inside(w, h, boxes[i])
  }

  /** That is every box of a picture whose size can be stored. */
  lemma InsideIsMeasurable(w: int, h: int, boxes: seq<Box>)
    requires w < 0x8000 && h < 0x8000 && AllInside(w, h, boxes)
    ensures AllMeasurable(w, h, boxes)
  {
    forall i | 0 <= i < |boxes| ensures Measurable(w, h, boxes[i]) { assert Inside(w, h, boxes[i]); }
  }

  /** Undoing a move with the inverse transform. */
  lemma MovedBack(t: Transform, w: int, h: int, p: Pixel)
    ensures Moved(Invert(t), WidthAfter(t, w, h), HeightAfter(t, w, h), Moved(t, w, h, p)) == p
    ensures Moved(t, WidthAfter(t, w, h), HeightAfter(t, w, h), Moved(Invert(t), w, h, p)) == p
  {
    InvertComposes(t);
    ComposeMoves(Invert(t), t, w, h, p);
    ComposeMoves(t, Invert(t), w, h, p);
  }

  lemma BoxOfPixel(t: Transform, w: int, h: int, b: Box, p: Pixel)
    requires Measurable(w, h, b)
    ensures Measurable(WidthAfter(t, w, h), HeightAfter(t, w, h), TransformBox(t, w, h, b))
    ensures Inside(w, h, b) ==> Inside(WidthAfter(t, w, h), HeightAfter(t, w, h), TransformBox(t, w, h, b))
    ensures p in BoxPixels(b) <==> Moved(t, w, h, p) in BoxPixels(TransformBox(t, w, h, b))
  {
    hide Narrow, BoxPixels;
    EightCases(t);
    MovedTable(t, w, h, p);
    var (x, y) := p;
  }

  /** The pixels of a transformed box are exactly those where the transform takes the pixels of the box. */
  lemma BoxIsExact(t: Transform, w: int, h: int, b: Box)
    requires Measurable(w, h, b)
    ensures BoxPixels(TransformBox(t, w, h, b)) == MovedRegion(t, w, h, BoxPixels(b))
  {
    forall q: Pixel
      ensures q in BoxPixels(TransformBox(t, w, h, b)) <==> q in MovedRegion(t, w, h, BoxPixels(b))
    {
      InvertComposes(t);
      var p := Moved(Invert(t), WidthAfter(t, w, h), HeightAfter(t, w, h), q);
      MovedBack(Invert(t), WidthAfter(t, w, h), HeightAfter(t, w, h), q);
      BoxOfPixel(t, w, h, b, p);
      assert Moved(t, w, h, p) == q;
      if q in MovedRegion(t, w, h, BoxPixels(b)) {
        var p1 :| p1 in BoxPixels(b) && Moved(t, w, h, p1) == q;
        MovedBack(t, w, h, p1);
      }
    }
  }

  /** The damage after the transform is the damage before it, moved pixel by pixel. */
  lemma {:induction false} RegionIsExact(t: Transform, w: int, h: int, boxes: seq<Box>)
    requires AllMeasurable(w, h, boxes)
    ensures RegionPixels(TransformRegion(t, w, h, boxes)) == MovedRegion(t, w, h, RegionPixels(boxes))
    ensures AllMeasurable(WidthAfter(t, w, h), HeightAfter(t, w, h), TransformRegion(t, w, h, boxes))
    ensures AllInside(w, h, boxes) ==>
              AllInside(WidthAfter(t, w, h), HeightAfter(t, w, h), TransformRegion(t, w, h, boxes))
  {
    hide TransformBox, BoxPixels, Moved;
    forall i | 0 <= i < |boxes| {
      BoxOfPixel(t, w, h, boxes[i], (0, 0));
    }
    if boxes != [] {
      BoxIsExact(t, w, h, boxes[0]);
      RegionIsExact(t, w, h, boxes[1..]);
      assert TransformRegion(t, w, h, boxes)[1..] == TransformRegion(t, w, h, boxes[1..]);
    }
  }

  /** The transform maps the grid of the picture one-to-one onto the grid of the transformed picture. */
  lemma GridBijection(t: Transform, w: int, h: int, p: Pixel, q: Pixel)
    ensures MovedRegion(t, w, h, Rectangle(0, 0, w, h)) == Rectangle(0, 0, WidthAfter(t, w, h), HeightAfter(t, w, h))
    ensures Moved(t, w, h, p) == Moved(t, w, h, q) ==> p == q
  {
    MovedBack(t, w, h, p);
    MovedBack(t, w, h, q);
    var w1, h1 := WidthAfter(t, w, h), HeightAfter(t, w, h);
    forall r: Pixel
      ensures r in MovedRegion(t, w, h, Rectangle(0, 0, w, h)) <==> r in Rectangle(0, 0, w1, h1)
    {
      InvertComposes(t);
      EightCases(t);
      var s := Moved(Invert(t), w1, h1, r);
      MovedBack(Invert(t), w1, h1, r);
      MovedTable(Invert(t), w1, h1, r);
      assert Moved(t, w, h, s) == r;
      if r in MovedRegion(t, w, h, Rectangle(0, 0, w, h)) {
        var s1 :| s1 in Rectangle(0, 0, w, h) && Moved(t, w, h, s1) == r;
        MovedBack(t, w, h, s1);
      }
    }
  }

  // ---------------------------------------------------------------------------------------------------
  // Area

  function BoxArea(b: Box): int { (b.x2 - b.x1) * (b.y2 - b.y1) }

  function Area(boxes: seq<Box>): (r: int)
  {
    if boxes == [] then 0 else BoxArea(boxes[0]) + Area(boxes[1..])
  }

  /** The corners of a box are in order. */
  predicate Proper(b: Box) { b.x1 <= b.x2 && b.y1 <= b.y2 }

  /** A region holds its boxes without overlap. */
  predicate Disjoint(boxes: seq<Box>)
  {
    boxes == [] || (BoxPixels(boxes[0]) !! RegionPixels(boxes[1..]) && Disjoint(boxes[1..]))
  }

  lemma {:induction false} RowSize(x: int, y: int, width: nat)
    ensures |Rectangle(x, y, width, 1)| == width
  {
    if width == 0 {
      assert Rectangle(x, y, 0, 1) == {};
    } else {
      RowSize(x, y, width - 1);
      assert Rectangle(x, y, width, 1) == Rectangle(x, y, width - 1, 1) + {(x + width - 1, y)};
    }
  }

  lemma RectangleRows(x: int, y: int, width: nat, height: nat)
    ensures Rectangle(x, y, width, 0) == {}
    ensures height > 0 ==> var above, row := Rectangle(x, y, width, height - 1), Rectangle(x, y + height - 1, width, 1);
                           Rectangle(x, y, width, height) == above + row && above !! row
  {
  }

  lemma {:induction false} RectangleSize(x: int, y: int, width: nat, height: nat)
    ensures |Rectangle(x, y, width, height)| == width * height
  {
    hide Rectangle;
    RectangleRows(x, y, width, height);
    if height > 0 {
      RectangleSize(x, y, width, height - 1);
      RowSize(x, y + height - 1, width);
      var above, row := Rectangle(x, y, width, height - 1), Rectangle(x, y + height - 1, width, 1);
      assert |above + row| == |above| + |row|;
      assert width * height == width * (height - 1) + width;
    }
  }

  lemma BoxSize(b: Box)
    requires Proper(b)
    ensures |BoxPixels(b)| == BoxArea(b)
  {
    hide Rectangle;
    RectangleSize(b.x1, b.y1, b.x2 - b.x1, b.y2 - b.y1);
  }

  /** The area is the number of damaged pixels. */
  lemma {:induction false} AreaCountsPixels(boxes: seq<Box>)
    requires (forall i | 0 <= i < |boxes| :: Proper(boxes[i])) && Disjoint(boxes)
    ensures Area(boxes) == |RegionPixels(boxes)|
  {
    hide BoxArea, BoxPixels;
    if boxes != [] {
      BoxSize(boxes[0]);
      AreaCountsPixels(boxes[1..]);
      assert |BoxPixels(boxes[0]) + RegionPixels(boxes[1..])| == |BoxPixels(boxes[0])| + |RegionPixels(boxes[1..])|;
    }
  }

  lemma MovedDisjoint(t: Transform, w: int, h: int, a: Region, b: Region)
    requires a !! b
    ensures MovedRegion(t, w, h, a) !! MovedRegion(t, w, h, b)
  {
    forall p, q | p in a && q in b
      ensures Moved(t, w, h, p) != Moved(t, w, h, q)
    {
      GridBijection(t, w, h, p, q);
    }
  }

  /** Boxes that do not overlap do not overlap after the transform, and cover as many pixels. */
  lemma {:induction false} TransformKeepsArea(t: Transform, w: int, h: int, boxes: seq<Box>)
    requires AllMeasurable(w, h, boxes) && Disjoint(boxes)
    ensures Disjoint(TransformRegion(t, w, h, boxes))
    ensures Area(TransformRegion(t, w, h, boxes)) == Area(boxes)
  {
    if boxes != [] {
      var after, rest := TransformRegion(t, w, h, boxes), boxes[1..];
      assert after[1..] == TransformRegion(t, w, h, rest);
      TransformKeepsArea(t, w, h, rest);
      BoxIsExact(t, w, h, boxes[0]);
      RegionIsExact(t, w, h, rest);
      MovedDisjoint(t, w, h, BoxPixels(boxes[0]), RegionPixels(rest));
      BoxKeepsArea(t, w, h, boxes[0]);
    }
  }

  lemma BoxKeepsArea(t: Transform, w: int, h: int, b: Box)
    requires Measurable(w, h, b)
    ensures BoxArea(TransformBox(t, w, h, b)) == BoxArea(b)
  {
    hide TransformBox;
    var r := TransformBox(t, w, h, b);
    BoxSides(t, w, h, b);
    if t & 1 == 1 { assert BoxArea(r) == (b.y2 - b.y1) * (b.x2 - b.x1); }
  }

  lemma BoxSides(t: Transform, w: int, h: int, b: Box)
    requires Measurable(w, h, b)
    ensures var r := TransformBox(t, w, h, b);
            && r.x2 - r.x1 == WidthAfter(t, b.x2 - b.x1, b.y2 - b.y1)
            && r.y2 - r.y1 == HeightAfter(t, b.x2 - b.x1, b.y2 - b.y1)
  {
    hide Narrow;
    EightCases(t);
  }

  // ---------------------------------------------------------------------------------------------------
  // Points

  type Point = (real, real)

  function TurnPoint(h: real, p: Point): Point { (h - p.1, p.0) }

  function TurnedPoint(quarters: nat, w: real, h: real, p: Point): Point
    decreases quarters
  {
    if quarters == 0 then p else TurnedPoint(quarters - 1, h, w, TurnPoint(h, p))
  }

  /** Where the transform takes a point of a canvas of width w and height h. */
  function MovedPoint(t: Transform, w: real, h: real, p: Point): Point
  {
    var q := TurnedPoint(Quarters(t), w, h, p);
    if t & FLIPPED != 0 then ((if t & 1 == 1 then h else w) - q.0, q.1) else q
  }

  lemma MovedPointTable(t: Transform, w: real, h: real, p: Point)
    ensures var (x, y) := p;
            MovedPoint(t, w, h, p) ==
            (if t == NORMAL then (x, y)
             else if t == ROTATED_90 then (h - y, x)
             else if t == ROTATED_180 then (w - x, h - y)
             else if t == ROTATED_270 then (y, w - x)
             else if t == FLIPPED then (w - x, y)
             else if t == FLIPPED_90 then (y, x)
             else if t == FLIPPED_180 then (x, h - y)
             else (h - y, w - x))
  {
    EightCases(t);
    assert TurnedPoint(1, w, h, p) == TurnPoint(h, p);
    assert TurnedPoint(2, w, h, p) == TurnedPoint(1, h, w, TurnPoint(h, p));
    assert TurnedPoint(2, h, w, TurnPoint(h, p)) == TurnedPoint(1, w, h, TurnPoint(w, TurnPoint(h, p)));
  }

  predicate WithinPixel(q: Point, p: Pixel)
  {
    p.0 as real < q.0 < p.0 as real + 1.0 && p.1 as real < q.1 < p.1 as real + 1.0
  }

  /** Points move with the pixel they lie in. */
  lemma PointsFollowPixels(t: Transform, w: int, h: int, p: Pixel, q: Point)
    ensures WithinPixel(q, p) <==> WithinPixel(MovedPoint(t, w as real, h as real, q), Moved(t, w, h, p))
  {
    EightCases(t);
    MovedTable(t, w, h, p);
    MovedPointTable(t, w as real, h as real, q);
  }

  /** The centre of a pixel, on the unit square. */
  function Centre(w: int, h: int, p: Pixel): (r: Point)
    requires w > 0 && h > 0
  {
    ((p.0 as real + 0.5) / w as real, (p.1 as real + 0.5) / h as real)
  }

  lemma CentreFlips(size: int, x: int)
    requires size > 0
    ensures 1.0 - (x as real + 0.5) / size as real == ((size - 1 - x) as real + 0.5) / size as real
  {
    var s, c := size as real, x as real + 0.5;
    assert (size - 1 - x) as real + 0.5 == s - c;
    QuotientSum(s - c, c, s);
    assert s - c + c == s && s / s == 1.0;
  }

  /** On the unit square the transform takes the centre of every pixel to the centre of the moved pixel. */
  lemma CentresMove(t: Transform, w: int, h: int, p: Pixel)
    requires w > 0 && h > 0
    ensures MovedPoint(t, 1.0, 1.0, Centre(w, h, p)) ==
            Centre(WidthAfter(t, w, h), HeightAfter(t, w, h), Moved(t, w, h, p))
  {
    EightCases(t);
    MovedTable(t, w, h, p);
    MovedPointTable(t, 1.0, 1.0, Centre(w, h, p));
    CentreFlips(w, p.0);
    CentreFlips(h, p.1);
  }

  /** A pointer at the pixel where the viewer sees p is taken back to p. */
  lemma PointerReachesPixel(t: Transform, w: int, h: int, p: Pixel)
    requires w > 0 && h > 0
    ensures MovedPoint(Invert(t), 1.0, 1.0, Centre(WidthAfter(t, w, h), HeightAfter(t, w, h), Moved(t, w, h, p))) ==
            Centre(w, h, p)
  {
    CentresMove(Invert(t), WidthAfter(t, w, h), HeightAfter(t, w, h), Moved(t, w, h, p));
    InvertComposes(t);
    MovedBack(t, w, h, p);
  }
}
