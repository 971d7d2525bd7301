/** The geometry of the whole desktop (src/desktop.c, src/image-source.c, src/output.c, and the placing of the
displays in src/main.c), over the reals. The desktop is scaled so that the output with the densest buffer keeps
its resolution. */
module Desktop {
  import opened Wrappers
  import opened Reals
  import opened Regions
  import opened Transforms

  datatype Output = Output(x: int, y: int, logicalWidth: int, logicalHeight: int,
                           bufferWidth: nat, bufferHeight: nat, transform: Transform)
  {
    /** The size of the buffer as it stands on the desktop. */
    function Width(): nat { if transform & 1 == 1 then bufferHeight else bufferWidth }

    function Height(): nat { if transform & 1 == 1 then bufferWidth else bufferHeight }

    /** Without a buffer size there is no scale. */
    predicate Known() { Width() != 0 && Height() != 0 }

    function HScale(): real
      requires Known()
    {
      logicalWidth as real / Width() as real
    }

    function VScale(): real
      requires Known()
    {
      logicalHeight as real / Height() as real
    }

    function Scale(): real
      requires Known()
    {
      if HScale() <= VScale() then HScale() else VScale()
    }
  }

  /** The scale is the smallest of the known ones, and 1 when there are none. */
  ghost predicate IsMinScale(outputs: seq<Output>, scale: real)
  {
    && ((forall o | o in outputs :: !o.Known()) ==> scale == 1.0)
    && (forall o | o in outputs && o.Known() :: scale <= o.Scale())
    && ((exists o :: o in outputs && o.Known()) ==> exists o :: o in outputs && o.Known() && scale == o.Scale())
  }

  method MinScale(outputs: seq<Output>) returns (scale: real)
    ensures IsMinScale(outputs, scale)
  {
    var infinite := true;
    scale := 1.0;
    for i := 0 to |outputs|
      invariant infinite <==> forall o | o in outputs[..i] :: !o.Known()
      invariant infinite ==> scale == 1.0
      invariant forall o | o in outputs[..i] && o.Known() :: scale <= o.Scale()
      invariant !infinite ==> exists o :: o in outputs[..i] && o.Known() && scale == o.Scale()
    {
      var o := outputs[i];
      assert outputs[..i + 1] == outputs[..i] + [o];
      if !o.Known() { continue; }
      if infinite || o.Scale() < scale {
        infinite, scale := false, o.Scale();
        assert o in outputs[..i + 1];
      }
    }
    assert outputs[..|outputs|] == outputs;
  }

  predicate Sized(o: Output)
  {
    o.bufferWidth != 0 && o.bufferHeight != 0 ==> o.logicalWidth > 0 && o.logicalHeight > 0
  }

  lemma ScaleSign(o: Output)
    requires o.Known()
    ensures o.Scale() > 0.0 <==> Sized(o)
  {
    QuotientOrder(0.0, o.logicalWidth as real, o.Width() as real);
    QuotientOrder(0.0, o.logicalHeight as real, o.Height() as real);
  }

  /** The division by the scale is safe exactly when the known outputs have positive logical sizes. */
  lemma MinScaleIsPositive(outputs: seq<Output>, scale: real)
    requires IsMinScale(outputs, scale)
    ensures scale > 0.0 <==> forall o | o in outputs :: Sized(o)
  {
    forall o | o in outputs && o.Known() { ScaleSign(o); }
  }

  /** A size in one axis: the rounded far edge of the outputs that reach furthest, and at least 0. */
  ghost predicate IsExtent(edges: seq<int>, scale: real, extent: int)
    requires scale != 0.0
  {
    && extent >= 0
    && (forall i | 0 <= i < |edges| :: Round(edges[i] as real / scale) <= extent)
    && (extent == 0 || exists i | 0 <= i < |edges| :: extent == Round(edges[i] as real / scale))
  }

  function Rights(outputs: seq<Output>): (r: seq<int>)
    ensures |r| == |outputs| && forall i | 0 <= i < |r| :: r[i] == outputs[i].x + outputs[i].logicalWidth
  {
    seq(|outputs|, i requires 0 <= i < |outputs| => outputs[i].x + outputs[i].logicalWidth)
  }

  function Bottoms(outputs: seq<Output>): (r: seq<int>)
    ensures |r| == |outputs| && forall i | 0 <= i < |r| :: r[i] == outputs[i].y + outputs[i].logicalHeight
  {
    seq(|outputs|, i requires 0 <= i < |outputs| => outputs[i].y + outputs[i].logicalHeight)
  }

  /** None when the scale is zero, where the source divides by zero. */
  method LogicalSize(outputs: seq<Output>) returns (size: Option<(int, int)>, scale: real)
    ensures IsMinScale(outputs, scale) && (size.None? <==> scale == 0.0)
    ensures size.Some? ==>
              IsExtent(Rights(outputs), scale, size.value.0) && IsExtent(Bottoms(outputs), scale, size.value.1)
  {
    scale := MinScale(outputs);
    if scale == 0.0 { return None, scale; }
    var width, height := 0, 0;
    for i := 0 to |outputs|
      invariant IsExtent(Rights(outputs)[..i], scale, width) && IsExtent(Bottoms(outputs)[..i], scale, height)
    {
      width := Extend(Rights(outputs), i, scale, width);
      height := Extend(Bottoms(outputs), i, scale, height);
    }
    assert Rights(outputs)[..|outputs|] == Rights(outputs) && Bottoms(outputs)[..|outputs|] == Bottoms(outputs);
    size := Some((width, height));
  }

  method Extend(edges: seq<int>, i: nat, scale: real, extent: int) returns (r: int)
    requires scale != 0.0 && i < |edges| && IsExtent(edges[..i], scale, extent)
    ensures IsExtent(edges[..i + 1], scale, r)
  {
    var e := Round(edges[i] as real / scale);
    r := if e > extent then e else extent;
    assert edges[..i + 1][i] == edges[i];
    if r == extent && extent != 0 {
      var k :| 0 <= k < i && extent == Round(edges[..i][k] as real / scale);
      assert edges[..i + 1][k] == edges[..i][k];
    }
  }

  // ---------------------------------------------------------------------------------------------------
  // What the geometry is for

  lemma AxisIsCovered(logical: int, buffer: nat, scale: real)
    requires buffer > 0 && scale > 0.0
    ensures scale <= logical as real / buffer as real ==> buffer <= Round(logical as real / scale)
    ensures scale == logical as real / buffer as real ==> buffer == Round(logical as real / scale)
  {
    var l, b := logical as real, buffer as real;
    QuotientOrder(scale, l, b);
    QuotientOrder(b, l, scale);
    RoundKeepsWhole(l / scale, buffer);
  }

  /** The pixels of the buffer after the transform, as they stand on the desktop. */
  ghost function Standing(o: Output): (r: Region)
  {
    MovedRegion(o.transform, o.bufferWidth, o.bufferHeight, Rectangle(0, 0, o.bufferWidth, o.bufferHeight))
  }

  /** They fill a rectangle of the width and height. */
  lemma BufferStands(o: Output)
    ensures Standing(o) == Rectangle(0, 0, o.Width(), o.Height())
    ensures o.Width() == WidthAfter(o.transform, o.bufferWidth, o.bufferHeight)
    ensures o.Height() == HeightAfter(o.transform, o.bufferWidth, o.bufferHeight)
  {
    GridBijection(o.transform, o.bufferWidth, o.bufferHeight, (0, 0), (0, 0));
  }

  /** No output loses resolution: every pixel of its buffer has a place on its display, which is at least as large
      in both axes. */
  lemma NoOutputShrinks(outputs: seq<Output>, scale: real, o: Output)
    requires IsMinScale(outputs, scale) && scale > 0.0 && o in outputs && o.bufferWidth != 0 && o.bufferHeight != 0
    ensures var width, height := Round(o.logicalWidth as real / scale), Round(o.logicalHeight as real / scale);
            && width >= WidthAfter(o.transform, o.bufferWidth, o.bufferHeight)
            && height >= HeightAfter(o.transform, o.bufferWidth, o.bufferHeight)
            && Standing(o) <= Rectangle(0, 0, width, height)
  {
    BufferStands(o);
    AxisIsCovered(o.logicalWidth, o.Width(), scale);
    AxisIsCovered(o.logicalHeight, o.Height(), scale);
  }

  /** The scale is no larger than it must be: some output keeps its exact size in one axis. */
  lemma SomeOutputMatches(outputs: seq<Output>, scale: real) returns (o: Output)
    requires IsMinScale(outputs, scale) && scale > 0.0
    requires exists o :: o in outputs && o.bufferWidth != 0 && o.bufferHeight != 0
    ensures o in outputs && o.bufferWidth != 0 && o.bufferHeight != 0
    ensures || Round(o.logicalWidth as real / scale) == WidthAfter(o.transform, o.bufferWidth, o.bufferHeight)
            || Round(o.logicalHeight as real / scale) == HeightAfter(o.transform, o.bufferWidth, o.bufferHeight)
  {
    o :| o in outputs && o.Known() && scale == o.Scale();
    AxisIsCovered(o.logicalWidth, o.Width(), scale);
    AxisIsCovered(o.logicalHeight, o.Height(), scale);
  }

  /** The far edge of a display is at most one pixel off the rounded far edge of its output. */
  lemma FarEdge(near: int, size: int, scale: real)
    requires scale > 0.0
    ensures -1 <= Round(near as real / scale) + Round(size as real / scale) - Round((near + size) as real / scale) <= 1
  {
    var a, b := near as real, size as real;
    assert (near + size) as real == a + b;
    QuotientSum(a, b, scale);
    RoundedParts(a / scale, b / scale);
  }

  /** Every display ends at most one pixel beyond the desktop. */
  lemma DisplaysFit(outputs: seq<Output>, scale: real, width: int, height: int, i: nat)
    requires scale > 0.0 && i < |outputs|
    requires IsExtent(Rights(outputs), scale, width) && IsExtent(Bottoms(outputs), scale, height)
    ensures var o := outputs[i];
            && Round(o.x as real / scale) + Round(o.logicalWidth as real / scale) <= width + 1
            && Round(o.y as real / scale) + Round(o.logicalHeight as real / scale) <= height + 1
  {
    var o := outputs[i];
    assert Rights(outputs)[i] == o.x + o.logicalWidth && Bottoms(outputs)[i] == o.y + o.logicalHeight;
    FarEdge(o.x, o.logicalWidth, scale);
    FarEdge(o.y, o.logicalHeight, scale);
  }

  /** Outputs that meet on the desktop have displays that overlap or part by at most one pixel. */
  lemma NeighboursMeet(a: Output, b: Output, scale: real)
    requires scale > 0.0
    ensures var (x, width) := (Round(a.x as real / scale), Round(a.logicalWidth as real / scale));
            b.x == a.x + a.logicalWidth ==> -1 <= x + width - Round(b.x as real / scale) <= 1
    ensures var (y, height) := (Round(a.y as real / scale), Round(a.logicalHeight as real / scale));
            b.y == a.y + a.logicalHeight ==> -1 <= y + height - Round(b.y as real / scale) <= 1
  {
    FarEdge(a.x, a.logicalWidth, scale);
    FarEdge(a.y, a.logicalHeight, scale);
  }

  /** In one axis: the output reaches as far as any, its position and its size are both rounded up, and its far
      edge is not. */
  predicate SticksOut(near: int, size: int, scale: real, extent: int)
    requires scale > 0.0
  {
    && near + size >= 0 && Round((near + size) as real / scale) == extent
    && RoundsUp(near as real / scale) && RoundsUp(size as real / scale)
    && Frac(near as real / scale) + Frac(size as real / scale) < 1.5
  }

  lemma AxisSticksOut(near: int, size: int, scale: real, extent: int)
    requires scale > 0.0 && extent >= 0 && Round((near + size) as real / scale) <= extent
    ensures Round(near as real / scale) + Round(size as real / scale) > extent <==> SticksOut(near, size, scale, extent)
  {
    var a, b := near as real / scale, size as real / scale;
    QuotientSum(near as real, size as real, scale);
    assert (near + size) as real / scale == a + b;
    QuotientOrder(0.0, (near + size) as real, scale);
    FarEdge(near, size, scale);
    if near + size >= 0 {
      PartsExceed(a, b);
    } else {
      NegativeParts(a, b);
    }
  }

  /** Exactly when a display ends beyond the desktop, in each axis. */
  lemma DisplaysFitExactly(outputs: seq<Output>, scale: real, width: int, height: int, i: nat)
    requires scale > 0.0 && i < |outputs|
    requires IsExtent(Rights(outputs), scale, width) && IsExtent(Bottoms(outputs), scale, height)
    ensures var o := outputs[i];
            && (Round(o.x as real / scale) + Round(o.logicalWidth as real / scale) > width <==>
                SticksOut(o.x, o.logicalWidth, scale, width))
            && (Round(o.y as real / scale) + Round(o.logicalHeight as real / scale) > height <==>
                SticksOut(o.y, o.logicalHeight, scale, height))
  {
    var o := outputs[i];
    assert Rights(outputs)[i] == o.x + o.logicalWidth && Bottoms(outputs)[i] == o.y + o.logicalHeight;
    AxisSticksOut(o.x, o.logicalWidth, scale, width);
    AxisSticksOut(o.y, o.logicalHeight, scale, height);
  }

  /** The condition can be met: a display does end beyond the desktop. */
  lemma DisplayCanStickOut()
    ensures var outputs := [Output(0, 0, 2, 2, 1, 1, NORMAL), Output(1, 0, 3, 2, 1, 1, NORMAL)];
            && IsMinScale(outputs, 2.0) && IsExtent(Rights(outputs), 2.0, 2)
            && SticksOut(outputs[1].x, outputs[1].logicalWidth, 2.0, 2)
  {
    var outputs := [Output(0, 0, 2, 2, 1, 1, NORMAL), Output(1, 0, 3, 2, 1, 1, NORMAL)];
    assert outputs[0] in outputs && outputs[0].Known() && outputs[0].Scale() == 2.0;
    assert outputs[1].Known() && outputs[1].Scale() == 2.0;
    assert Round(2.0 / 2.0) == 1 && Round(4.0 / 2.0) == 2 && Round(1.0 / 2.0) == 1 && Round(3.0 / 2.0) == 2;
    assert Rights(outputs)[1] == 4;
  }

  /** A display of the VNC server. */
  class Display {
    var x: int
    var y: int
    var width: int
    var height: int

    /** The display of an output is placed and sized so that it holds the whole buffer, and ends within a pixel of
        where the output ends. */
    method SetDesktopGeometry(o: Output, scale: real, ghost outputs: seq<Output>)
      requires scale > 0.0 && IsMinScale(outputs, scale) && o in outputs
      modifies this
      ensures o.bufferWidth != 0 && o.bufferHeight != 0 ==> Standing(o) <= Rectangle(0, 0, width, height)
      ensures -1 <= x + width - Round((o.x + o.logicalWidth) as real / scale) <= 1
      ensures -1 <= y + height - Round((o.y + o.logicalHeight) as real / scale) <= 1
      ensures x == Round(o.x as real / scale) && y == Round(o.y as real / scale)
    {
      x, y := Round(o.x as real / scale), Round(o.y as real / scale);
      width, height := Round(o.logicalWidth as real / scale), Round(o.logicalHeight as real / scale);
      if o.Known() { NoOutputShrinks(outputs, scale, o); }
      FarEdge(o.x, o.logicalWidth, scale);
      FarEdge(o.y, o.logicalHeight, scale);
    }
  }
}
