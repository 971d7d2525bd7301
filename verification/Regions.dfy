/** Pixels, damage regions and pictures.

A pixman region is modelled by the set of pixels it covers, and a picture by a map from every pixel of
its grid to the colour there. */
module Regions {

  type Pixel = (int, int)
  type Region = set<Pixel>
  type Color = bv32
  type Picture = map<Pixel, Color>

  /** The pixels of the half-open rectangle with its corner at (x, y). */
  function Rectangle(x: int, y: int, width: int, height: int): (r: Region)
    ensures forall px: int, py: int :: (px, py) in r <==> x <= px < x + width && y <= py < y + height
  {
    set px: int, py: int | x <= px < x + width && y <= py < y + height :: (px, py)
  }

  /** What a viewer sees after copying `region` of `from` onto `base`. */
  function Overlay(base: Picture, from: Picture, region: Region): (r: Picture)
    requires base.Keys <= from.Keys
    ensures r.Keys == base.Keys
    ensures forall q | q in base :: r[q] == if q in region then from[q] else base[q]
  {
    map q | q in base :: if q in region then from[q] else base[q]
  }

  /** The two pictures agree on every pixel of `grid` outside `region`. */
  ghost predicate AgreeOutside(a: Picture, b: Picture, grid: Region, region: Region)
  {
    forall q | q in grid && q !in region :: q in a && q in b && a[q] == b[q]
  }
}
