/**
  The raster operations the deck rendering code borrows from its imaging
  library, stated as index arithmetic on a pixel grid: blank images, mode
  conversion, crop, paste and paste-through-alpha. Resampling and text
  rasterisation are floating-point numerics inside the library; they are
  given stand-in bodies here and nothing is proved about their pixels, only
  about the size of what they return.
*/
module Pixels {

  datatype Rgba = Rgba(r: int, g: int, b: int, a: int)

  const Black := Rgba(0, 0, 0, 255)
  const Transparent := Rgba(0, 0, 0, 0)

  /** "RGB" images have no alpha channel: every pixel reads as opaque. */
  datatype Mode = RGB | RGBA

  /** How a colour reads back from an image of the given mode. */
  function Store(mode: Mode, p: Rgba): (q: Rgba)
    ensures mode == RGBA ==> q == p
    ensures mode == RGB ==> q.a == 255 && q.(a := p.a) == p
  {
    if mode == RGB then p.(a := 255) else p
  }

  datatype Image = Image(mode: Mode, width: nat, height: nat, rows: seq<seq<Rgba>>)

  /** The grid has `height` rows of `width` pixels each. */
  predicate WellFormed(img: Image) {
    |img.rows| == img.height &&
    forall y :: 0 <= y < img.height ==> |img.rows[y]| == img.width
  }

  /** The pixel at column x, row y; outside the image it is the zero colour of the mode, as the library fills a crop that overhangs its source. */
  function Get(img: Image, x: int, y: int): Rgba {
    if WellFormed(img) && 0 <= x < img.width && 0 <= y < img.height then
      Store(img.mode, img.rows[y][x])
    else
      Store(img.mode, Transparent)
  }

  /** A w by h image whose pixel (x, y) is f(x, y). */
  function Build(mode: Mode, w: nat, h: nat, f: (int, int) -> Rgba): (img: Image)
    ensures WellFormed(img) && img.mode == mode && img.width == w && img.height == h
    ensures forall x, y :: 0 <= x < w && 0 <= y < h ==> Get(img, x, y) == Store(mode, f(x, y))
  {
    Image(mode, w, h, seq(h, y => seq(w, x => f(x, y))))
  }

  /** Image.new(mode, (w, h), color). */
  function New(mode: Mode, w: nat, h: nat, color: Rgba): (img: Image)
    ensures WellFormed(img) && img.mode == mode && img.width == w && img.height == h
    ensures forall x, y :: 0 <= x < w && 0 <= y < h ==> Get(img, x, y) == Store(mode, color)
  {
    Build(mode, w, h, (x, y) => color)
  }

  /** Image.convert(mode): same size, each pixel re-read in the new mode. */
  function Convert(img: Image, mode: Mode): (r: Image)
    ensures WellFormed(r) && r.mode == mode && r.width == img.width && r.height == img.height
    ensures forall x, y :: 0 <= x < img.width && 0 <= y < img.height ==> Get(r, x, y) == Store(mode, Get(img, x, y))
  {
    Build(mode, img.width, img.height, (x, y) => Get(img, x, y))
  }

  /** Image.crop((left, top, right, bottom)): pixel (x, y) of the result is pixel (left + x, top + y) of the source. */
  function Crop(img: Image, left: int, top: int, right: int, bottom: int): (r: Image)
    requires left <= right && top <= bottom
    ensures WellFormed(r) && r.mode == img.mode && r.width == right - left && r.height == bottom - top
    ensures forall x, y :: 0 <= x < right - left && 0 <= y < bottom - top ==> Get(r, x, y) == Get(img, left + x, top + y)
  {
    Build(img.mode, right - left, bottom - top, (x, y) => Get(img, left + x, top + y))
  }

  /** Whether (i, j) lies under src when src is placed with its corner at (x, y). */
  predicate Covers(src: Image, x: int, y: int, i: int, j: int) {
    x <= i < x + src.width && y <= j < y + src.height
  }

  /** dst.paste(src, (x, y)): src replaces the pixels it covers, clipped to dst. */
  function Paste(dst: Image, src: Image, x: int, y: int): (r: Image)
    ensures WellFormed(r) && r.mode == dst.mode && r.width == dst.width && r.height == dst.height
    ensures forall i, j :: 0 <= i < dst.width && 0 <= j < dst.height ==>
      Get(r, i, j) == (if Covers(src, x, y, i, j) then Store(dst.mode, Get(src, i - x, j - y)) else Get(dst, i, j))
  {
    Build(dst.mode, dst.width, dst.height, (i, j) =>
      if Covers(src, x, y, i, j) then Get(src, i - x, j - y) else Get(dst, i, j))
  }

  /** One colour channel of `over` laid on `under` with opacity alpha (0 to 255). */
  function Mix(under: int, over: int, alpha: int): int {
    (over * alpha + under * (255 - alpha)) / 255
  }

  /** Every channel of `over` laid on `under`, weighted by the alpha of `over`. */
  function Blend(under: Rgba, over: Rgba): (p: Rgba)
    ensures over.a == 255 ==> p == over
    ensures over.a == 0 ==> p == under
  {
    Rgba(Mix(under.r, over.r, over.a), Mix(under.g, over.g, over.a),
         Mix(under.b, over.b, over.a), Mix(under.a, over.a, over.a))
  }

  /** dst.paste(src, (0, 0), src): src laid over dst through its own alpha channel. */
  function PasteMasked(dst: Image, src: Image): (r: Image)
    ensures WellFormed(r) && r.mode == dst.mode && r.width == dst.width && r.height == dst.height
    ensures forall i, j :: 0 <= i < dst.width && 0 <= j < dst.height ==>
      Get(r, i, j) == Store(dst.mode, if Covers(src, 0, 0, i, j) then Blend(Get(dst, i, j), Get(src, i, j)) else Get(dst, i, j))
  {
    Build(dst.mode, dst.width, dst.height, (i, j) =>
      if Covers(src, 0, 0, i, j) then Blend(Get(dst, i, j), Get(src, i, j)) else Get(dst, i, j))
  }

  /**
    Image.resize((w, h), LANCZOS). Only the size and mode of the result are
    part of the model; the body samples the nearest source pixel so that the
    function has a definition.
  */
  function Resize(img: Image, w: nat, h: nat): (r: Image)
    ensures WellFormed(r) && r.mode == img.mode && r.width == w && r.height == h
  {
    Build(img.mode, w, h, (x, y) =>
      if w == 0 || h == 0 then Transparent else Get(img, x * img.width / w, y * img.height / h))
  }

  /**
    ImageOps.fit(img, (w, h), LANCZOS): an aspect-preserving crop followed by
    a resample. As for Resize, only the size and mode are modelled.
  */
  function Fit(img: Image, w: nat, h: nat): (r: Image)
    ensures WellFormed(r) && r.mode == img.mode && r.width == w && r.height == h
  {
    Resize(img, w, h)
  }

  /**
    ImageDraw.text((x, y), text, fill=color, anchor="ms"): draws text whose
    baseline middle is at (x, y). Glyph rasterisation is not modelled: the
    stand-in body marks the anchor pixel, and only the size and mode of the
    result are relied upon.
  */
  function DrawText(img: Image, x: real, y: real, text: string, color: Rgba): (r: Image)
    ensures WellFormed(r) && r.mode == img.mode && r.width == img.width && r.height == img.height
  {
    Build(img.mode, img.width, img.height, (i, j) =>
      if |text| > 0 && i == x.Floor && j == y.Floor then color else Get(img, i, j))
  }
}
