/**
  The geometry of a deck's keys on one virtual "full deck" canvas, and the
  helpers that slice that canvas into per-key tiles and shrink a tile for
  press feedback. The bezel between two keys hides 36 pixels in each
  direction; those pixels are part of the canvas but of no key.
*/
module ImageHelpers {
  import opened Results
  import opened Pixels
  import opened Devices

  /** Pixels of the virtual canvas hidden under the bezel between two adjacent keys, horizontally and vertically. */
  const BezelSpacing: nat := 36

  /** The shrink transform's fixed output size, content size and border. */
  const ShrinkTileSize: nat := 72
  const ShrunkSize: nat := 50
  const ShrinkBorder: nat := 11

  /** A crop box (left, top, right, bottom), right and bottom exclusive. */
  datatype Region = Region(left: nat, top: nat, right: nat, bottom: nat)

  /** Size of the full deck canvas: every key plus the bezel gaps between them. */
  function FullDeckSize(deck: Deck): (size: (nat, nat))
    requires deck.Valid()
    ensures size.0 == deck.keyWidth * deck.cols + BezelSpacing * (deck.cols - 1)
    ensures size.1 == deck.keyHeight * deck.rows + BezelSpacing * (deck.rows - 1)
  {
    ValidLayout(deck);
    var keysWidth := deck.keyWidth * deck.cols;
    var keysHeight := deck.keyHeight * deck.rows;
    var spacingX := BezelSpacing * (deck.cols - 1);
    var spacingY := BezelSpacing * (deck.rows - 1);
    (keysWidth + spacingX, keysHeight + spacingY)
  }

  /** Row and column of a key; keys are numbered row by row. */
  function KeyPosition(deck: Deck, key: nat): (pos: (nat, nat))
    requires deck.Valid() && key < deck.keyCount
    ensures pos.0 < deck.rows && pos.1 < deck.cols
    ensures key == pos.0 * deck.cols + pos.1
  {
    ValidLayout(deck);
    var row, col := key / deck.cols, key % deck.cols;
    assert row < deck.rows by {
      if row >= deck.rows {
        MulMonotone(deck.rows, row, deck.cols);
      }
    }
    (row, col)
  }

  /** The key numbered `row * cols + col` sits at (row, col): KeyPosition is a bijection onto the layout. */
  lemma KeyPositionOfCell(deck: Deck, row: nat, col: nat)
    requires deck.Valid() && row < deck.rows && col < deck.cols
    ensures row * deck.cols + col < deck.keyCount
    ensures KeyPosition(deck, row * deck.cols + col) == (row, col)
  {
    MulMonotone(row + 1, deck.rows, deck.cols);
    var key := row * deck.cols + col;
    var pos := KeyPosition(deck, key);
    DivModUnique(key, deck.cols, pos.0, pos.1, row, col);
  }

  /** The part of the full deck canvas shown on a key. */
  function CropRegion(deck: Deck, key: nat): (r: Region)
    requires deck.Valid() && key < deck.keyCount
    ensures r.right - r.left == deck.keyWidth && r.bottom - r.top == deck.keyHeight
  {
    var (row, col) := KeyPosition(deck, key);
    var startX := col * (deck.keyWidth + BezelSpacing);
    var startY := row * (deck.keyHeight + BezelSpacing);
    Region(startX, startY, startX + deck.keyWidth, startY + deck.keyHeight)
  }

  /** Every key's crop lies inside the full deck canvas, and the last row and column end exactly at its edge. */
  lemma CropRegionInsideCanvas(deck: Deck, key: nat)
    requires deck.Valid() && key < deck.keyCount
    ensures CropRegion(deck, key).right <= FullDeckSize(deck).0
    ensures CropRegion(deck, key).bottom <= FullDeckSize(deck).1
    ensures KeyPosition(deck, key).1 == deck.cols - 1 ==> CropRegion(deck, key).right == FullDeckSize(deck).0
    ensures KeyPosition(deck, key).0 == deck.rows - 1 ==> CropRegion(deck, key).bottom == FullDeckSize(deck).1
  {
    ValidLayout(deck);
    var (row, col) := KeyPosition(deck, key);
    Span(deck.cols, deck.keyWidth);
    Span(deck.rows, deck.keyHeight);
    MulMonotone(col, deck.cols - 1, deck.keyWidth + BezelSpacing);
    MulMonotone(row, deck.rows - 1, deck.keyHeight + BezelSpacing);
  }

  /** Crops of two different keys never overlap: along one axis they are at least a bezel gap apart. */
  lemma CropRegionsSeparated(deck: Deck, k1: nat, k2: nat)
    requires deck.Valid() && k1 < deck.keyCount && k2 < deck.keyCount && k1 != k2
    ensures var r1, r2 := CropRegion(deck, k1), CropRegion(deck, k2);
      r1.right + BezelSpacing <= r2.left || r2.right + BezelSpacing <= r1.left ||
      r1.bottom + BezelSpacing <= r2.top || r2.bottom + BezelSpacing <= r1.top
  {
    var (row1, col1) := KeyPosition(deck, k1);
    var (row2, col2) := KeyPosition(deck, k2);
    var stepX, stepY := deck.keyWidth + BezelSpacing, deck.keyHeight + BezelSpacing;
    if col1 != col2 {
      var (lo, hi) := if col1 < col2 then (col1, col2) else (col2, col1);
      MulMonotone(lo + 1, hi, stepX);
      MulSucc(lo, stepX);
    } else {
      assert row1 != row2;
      var (lo, hi) := if row1 < row2 then (row1, row2) else (row2, row1);
      MulMonotone(lo + 1, hi, stepY);
      MulSucc(lo, stepY);
    }
  }

  /** The 15-key deck: 3 rows of 5 keys of 72 by 72 pixels. */
  lemma StandardDeckGeometry()
    ensures var deck := Deck(15, 3, 5, 72, 72);
      deck.Valid() && FullDeckSize(deck) == (504, 288) &&
      KeyPosition(deck, 7) == (1, 2) && CropRegion(deck, 7) == Region(216, 108, 288, 180)
  {
    var deck := Deck(15, 3, 5, 72, 72);
    assert deck.Valid();
    assert FullDeckSize(deck) == (504, 288);
    assert KeyPosition(deck, 7) == (1, 2);
    assert CropRegion(deck, 7) == Region(216, 108, 288, 180);
  }

  /**
    The full deck canvas, from a file when a file name is given and otherwise
    from the in-memory image: converted to RGBA and fitted to FullDeckSize.
  */
  function FullDeckImage(deck: Deck, files: map<string, Image>, filename: Option<string>, image: Option<Image>): (r: Result<Image>)
    requires deck.Valid()
    ensures r.Ok? <==> (filename.Some? && filename.value in files) || (filename.None? && image.Some?)
    ensures filename.Some? && filename.value !in files ==> r == Err(ImageLoadError(filename.value))
    ensures filename.None? && image.None? ==> r == Err(NoImageProvided)
    ensures r.Ok? ==>
      WellFormed(r.value) && r.value.mode == RGBA && (r.value.width, r.value.height) == FullDeckSize(deck)
  {
    var size := FullDeckSize(deck);
    if filename.Some? then
      if filename.value in files then Ok(Fit(Convert(files[filename.value], RGBA), size.0, size.1))
      else Err(ImageLoadError(filename.value))
    else if image.Some? then
      Ok(Fit(Convert(image.value, RGBA), size.0, size.1))
    else
      Err(NoImageProvided)
  }

  /** A file name, when given, decides the canvas whatever in-memory image is passed beside it. */
  lemma FilenameTakesPrecedence(deck: Deck, files: map<string, Image>, filename: string, image1: Option<Image>, image2: Option<Image>)
    requires deck.Valid()
    ensures FullDeckImage(deck, files, Some(filename), image1) == FullDeckImage(deck, files, Some(filename), image2)
  {
  }

  /**
    The tile of one key cut from a canvas, together with its native frame:
    the crop is pasted on a black key-sized RGB image, so it reads opaque.
  */
  function CropKeyImage(deck: Deck, canvas: Image, key: nat): (r: (Frame, Image))
    requires deck.Valid() && key < deck.keyCount
    ensures r.0 == Encode(deck, r.1)
    ensures WellFormed(r.1) && r.1.mode == RGB && r.1.width == deck.keyWidth && r.1.height == deck.keyHeight
    ensures forall x, y :: 0 <= x < deck.keyWidth && 0 <= y < deck.keyHeight ==>
      Get(r.1, x, y) == Store(RGB, Get(canvas, CropRegion(deck, key).left + x, CropRegion(deck, key).top + y))
  {
    var region := CropRegion(deck, key);
    var segment := Crop(canvas, region.left, region.top, region.right, region.bottom);
    var keyImage := Paste(CreateImage(deck), segment, 0, 0);
    (Encode(deck, keyImage), keyImage)
  }

  /** One tile per key, in key order, each cut from the canvas. */
  function WallpaperTiles(deck: Deck, canvas: Image): (tiles: seq<Image>)
    requires deck.Valid()
    ensures |tiles| == deck.keyCount
    ensures forall i :: 0 <= i < |tiles| ==>
      WellFormed(tiles[i]) && tiles[i].mode == RGB && tiles[i].width == deck.keyWidth && tiles[i].height == deck.keyHeight
  {
    seq(deck.keyCount, i requires 0 <= i < deck.keyCount => CropKeyImage(deck, canvas, i).1)
  }

  /**
    Slicing a full-size canvas gives exactly one tile per key; pixel (x, y) of
    tile i is the canvas pixel at (x, y) inside key i's crop, which is a real
    canvas pixel, never overhang fill.
  */
  lemma WallpaperTilePixel(deck: Deck, canvas: Image, i: nat, x: nat, y: nat)
    requires deck.Valid() && WellFormed(canvas) && (canvas.width, canvas.height) == FullDeckSize(deck)
    requires i < deck.keyCount && x < deck.keyWidth && y < deck.keyHeight
    ensures |WallpaperTiles(deck, canvas)| == deck.keyCount
    ensures var tile, region := WallpaperTiles(deck, canvas)[i], CropRegion(deck, i);
      tile.width == deck.keyWidth && tile.height == deck.keyHeight &&
      region.left + x < canvas.width && region.top + y < canvas.height &&
      Get(tile, x, y) == Store(RGB, canvas.rows[region.top + y][region.left + x])
  {
    CropRegionInsideCanvas(deck, i);
  }

  /** create_wallpaper_image_array: load and fit the canvas, then cut one tile per key, appending in key order. */
  method CreateWallpaperImageArray(deck: Deck, files: map<string, Image>, filename: Option<string>, image: Option<Image>)
    returns (r: Result<seq<Image>>)
    requires deck.Valid()
    ensures r.Err? <==> FullDeckImage(deck, files, filename, image).Err?
    ensures r.Err? ==> r.error == FullDeckImage(deck, files, filename, image).error
    ensures r.Ok? ==> r.value == WallpaperTiles(deck, FullDeckImage(deck, files, filename, image).value)
  {
    var canvas: Image;
    if filename.Some? {
      FilenameTakesPrecedence(deck, files, filename.value, None, image);
      var loaded := FullDeckImage(deck, files, filename, None);
      if loaded.Err? {
        return Err(loaded.error);
      }
      canvas := loaded.value;
    } else if image.Some? {
      var fitted := FullDeckImage(deck, files, None, image);
      canvas := fitted.value;
    } else {
      // The first crop is taken from no image at all.
      return Err(NoImageProvided);
    }
    var keyImages: seq<Image> := [];
    for i := 0 to deck.keyCount
      invariant |keyImages| == i
      invariant forall j :: 0 <= j < i ==> keyImages[j] == CropKeyImage(deck, canvas, j).1
    {
      keyImages := keyImages + [CropKeyImage(deck, canvas, i).1];
    }
    return Ok(keyImages);
  }

  /**
    shrink_image: the tile resampled to 50 by 50 and pasted at (11, 11) on a
    black 72 by 72 RGB tile.
  */
  function ShrinkImage(img: Image): (r: Image)
    ensures WellFormed(r) && r.mode == RGB && r.width == ShrinkTileSize && r.height == ShrinkTileSize
    ensures forall x, y :: 0 <= x < ShrinkTileSize && 0 <= y < ShrinkTileSize ==>
      Get(r, x, y) ==
        if ShrinkBorder <= x < ShrinkBorder + ShrunkSize && ShrinkBorder <= y < ShrinkBorder + ShrunkSize
        then Store(RGB, Get(Resize(img, ShrunkSize, ShrunkSize), x - ShrinkBorder, y - ShrinkBorder))
        else Black
  {
    Paste(New(RGB, ShrinkTileSize, ShrinkTileSize, Black), Resize(img, ShrunkSize, ShrunkSize), ShrinkBorder, ShrinkBorder)
  }

  /** The shrunk content is centred: the black border is equally wide on all four sides (11 + 50 + 11 == 72). */
  lemma ShrinkCentred(img: Image, x: nat, y: nat)
    requires x < ShrinkTileSize && y < ShrinkTileSize
    ensures Get(ShrinkImage(img), x, y) != Black ==> 11 <= x < 61 && 11 <= y < 61
    ensures Get(ShrinkImage(img), x, y) == Get(ShrinkImage(img), ShrinkTileSize - 1 - x, ShrinkTileSize - 1 - y) ||
      (11 <= x < 61 && 11 <= y < 61)
  {
  }

  // ---- arithmetic helpers ----

  lemma MulMonotone(a: nat, b: nat, s: nat)
    requires a <= b
    ensures a * s <= b * s
  {
  }

  /** n keys of size k with bezel gaps between them span n - 1 strides of k + gap, plus one key. */
  lemma Span(n: nat, k: nat)
    requires n >= 1
    ensures k * n + BezelSpacing * (n - 1) == (n - 1) * (k + BezelSpacing) + k
  {
    MulSucc(n - 1, k);
  }

  lemma MulSucc(a: nat, s: nat)
    ensures (a + 1) * s == a * s + s
  {
  }

  lemma DivModUnique(n: nat, d: nat, q1: nat, r1: nat, q2: nat, r2: nat)
    requires d > 0 && r1 < d && r2 < d
    requires n == q1 * d + r1 && n == q2 * d + r2
    ensures q1 == q2 && r1 == r2
  {
    if q1 < q2 {
      MulMonotone(q1 + 1, q2, d);
    } else if q2 < q1 {
      MulMonotone(q2 + 1, q1, d);
    }
  }
}
