/** The transforms and the damage area as they are computed: in loops, and through pointers. */
module TransformProgram {
  import opened Transforms

  /** The region's boxes are transformed one by one into a new array. */
  method RegionTransform(src: array<Box>, t: Transform, w: int, h: int) returns (dst: array<Box>)
    ensures fresh(dst) && dst[..] == TransformRegion(t, w, h, src[..])
  {
    dst := new Box[src.Length](_ => Box(0, 0, 0, 0));
    for i := 0 to src.Length
      invariant forall k | 0 <= k < i :: dst[k] == TransformBox(t, w, h, src[k])
    {
      dst[i] := TransformBox(t, w, h, src[i]);
    }
  }

  lemma AddModulo(total: int, x: int)
    ensures (total % 0x1_0000_0000 + x) % 0x1_0000_0000 == (total + x) % 0x1_0000_0000
  {
    assert total % 0x1_0000_0000 + x == total + x - total / 0x1_0000_0000 * 0x1_0000_0000;
  }

  /** The sum is kept in 32 bits. */
  method CalculateRegionArea(boxes: seq<Box>) returns (area: nat)
    ensures area == Area(boxes) % 0x1_0000_0000
  {
    area := 0;
    ghost var total := 0;
    for i := 0 to |boxes|
      invariant total + Area(boxes[i..]) == Area(boxes) && area == total % 0x1_0000_0000
    {
      var width, height := boxes[i].x2 - boxes[i].x1, boxes[i].y2 - boxes[i].y1;
      var product := width * height;
      assert product == BoxArea(boxes[i]) && boxes[i..][1..] == boxes[i + 1..];
      AddModulo(total, product);
      area := (area + product) % 0x1_0000_0000;
      total := total + product;
    }
  }

  /** One in pixman's fixed point. */
  const F1 := 0x1_0000

  /** The number that a fixed-point value stands for. */
  function Fixed(n: int): (r: real) { n as real / 65536.0 }

  function Row(a: int, b: int, c: int, p: Point): (r: real) { Fixed(a) * p.0 + Fixed(b) * p.1 + Fixed(c) }

  /** The four kinds of rows in the matrices. */
  lemma Rows(size: int, p: Point)
    ensures Row(F1, 0, 0, p) == p.0 && Row(0, F1, 0, p) == p.1
    ensures Row(-F1, 0, size * F1, p) == size as real - p.0 && Row(0, -F1, size * F1, p) == size as real - p.1
  {
    assert Fixed(0) == 0.0 && Fixed(F1) == 1.0 && Fixed(-F1) == -1.0 && Fixed(size * F1) == size as real;
  }

  ghost function Apply(m: array2<int>, p: Point): (r: Point)
    requires m.Length0 == 3 && m.Length1 == 3
    reads m
  {
    (Row(m[0, 0], m[0, 1], m[0, 2], p), Row(m[1, 0], m[1, 1], m[1, 2], p))
  }

  /** The matrix takes every point back to where the transform took it from. */
  ghost predicate TakesBack(m: array2<int>, t: Transform, w: real, h: real)
    requires m.Length0 == 3 && m.Length1 == 3
    reads m
  {
    forall p: Point {:trigger MovedPoint(t, w, h, p)} :: Apply(m, MovedPoint(t, w, h, p)) == p
  }

  method SetRow(m: array2<int>, i: nat, a: int, b: int, c: int)
    requires m.Length0 == 3 && m.Length1 == 3 && i < 3
    modifies m
    ensures m[i, 0] == a && m[i, 1] == b && m[i, 2] == c
    ensures forall k, j | 0 <= k < 3 && 0 <= j < 3 && k != i :: m[k, j] == old(m[k, j])
  {
    m[i, 0], m[i, 1], m[i, 2] := a, b, c;
  }

  method PixmanTransform(dst: array2<int>, t: Transform, w: int, h: int)
    requires dst.Length0 == 3 && dst.Length1 == 3
    modifies dst
    ensures TakesBack(dst, t, w as real, h as real)
    ensures dst[2, 0] == 0 && dst[2, 1] == 0 && dst[2, 2] == F1
  {
    if t == NORMAL {
      SetRow(dst, 0, F1, 0, 0);
      SetRow(dst, 1, 0, F1, 0);
    } else if t == ROTATED_90 {
      SetRow(dst, 0, 0, F1, 0);
      SetRow(dst, 1, -F1, 0, h * F1);
    } else if t == ROTATED_180 {
      SetRow(dst, 0, -F1, 0, w * F1);
      SetRow(dst, 1, 0, -F1, h * F1);
    } else if t == ROTATED_270 {
      SetRow(dst, 0, 0, -F1, w * F1);
      SetRow(dst, 1, F1, 0, 0);
    } else if t == FLIPPED {
      SetRow(dst, 0, -F1, 0, w * F1);
      SetRow(dst, 1, 0, F1, 0);
    } else if t == FLIPPED_90 {
      SetRow(dst, 0, 0, F1, 0);
      SetRow(dst, 1, F1, 0, 0);
    } else if t == FLIPPED_180 {
      SetRow(dst, 0, F1, 0, 0);
      SetRow(dst, 1, 0, -F1, h * F1);
    } else {
      SetRow(dst, 0, 0, -F1, w * F1);
      SetRow(dst, 1, -F1, 0, h * F1);
    }
    SetRow(dst, 2, 0, 0, F1);
    EightCases(t);
    var width, height := w as real, h as real;
    forall p: Point {:trigger MovedPoint(t, width, height, p)}
      ensures Apply(dst, MovedPoint(t, width, height, p)) == p
    {
      hide Row;
      MovedPointTable(t, width, height, p);
      Rows(w, MovedPoint(t, width, height, p));
      Rows(h, MovedPoint(t, width, height, p));
    }
  }

  class CanvasPoint {
    var x: real
    var y: real

    constructor (x: real, y: real)
      ensures this.x == x && this.y == y
    {
      this.x, this.y := x, y;
    }

    /** The point is taken back to where the transform of the unit square took it from. */
    method Transform(t: Transform)
      modifies this
      ensures (x, y) == MovedPoint(Invert(t), 1.0, 1.0, old((x, y)))
      ensures MovedPoint(t, 1.0, 1.0, (x, y)) == old((x, y))
    {
      ghost var p := (x, y);
      if t == NORMAL {
      } else if t == ROTATED_90 {
        x, y := y, 1.0 - x;
      } else if t == ROTATED_180 {
        x, y := 1.0 - x, 1.0 - y;
      } else if t == ROTATED_270 {
        x, y := 1.0 - y, x;
      } else if t == FLIPPED {
        x, y := 1.0 - x, y;
      } else if t == FLIPPED_90 {
        x, y := y, x;
      } else if t == FLIPPED_180 {
        x, y := x, 1.0 - y;
      } else {
        x, y := 1.0 - y, 1.0 - x;
      }
      EightCases(t);
      MovedPointTable(t, 1.0, 1.0, (x, y));
      MovedPointTable(Invert(t), 1.0, 1.0, p);
    }
  }
}
