/**
  The deck controller: per-key foreground images and background tiles, the
  composition of a key image from a source image, labels, margins and a
  base layer, and the hand-off of finished frames either straight to the
  device or to the media handler's image-task queue.

  The media handler is seen only through what the controller uses of it:
  the queue of image tasks it is given (append-only here), the set of keys
  that currently play a video, and whether a background animation plays.
*/
module Controller {
  import opened Results
  import opened Pixels
  import opened Devices
  import opened ImageHelpers

  const DefaultFont := "Assets/Fonts/Roboto-Regular.ttf"

  /** The side of the black base layer used when a key has no background tile. */
  const FallbackBaseSize: nat := 72

  /** One text label of a key; `font` is a font file path, None for the default font. */
  datatype Label = Label(text: string, font: Option<string>, fontSize: int, color: Rgba, strokeWidth: int)

  /** One entry of a labels dictionary: the anchor name ("top", "center", "bottom") and its label. */
  datatype LabelEntry = LabelEntry(anchor: string, content: Label)

  /** image_margins = [left, top, right, bottom]. */
  datatype Margins = Margins(left: int, top: int, right: int, bottom: int)

  /** A native frame bound for one key. */
  datatype Task = Task(key: nat, frame: Frame)

  // ---- the pure content of generate_key_image ----

  /** The image to draw: an in-memory image wins over a path; a path is looked up in the file store. */
  function SourceImage(image: Option<Image>, imagePath: Option<string>, files: map<string, Image>): (r: Result<Image>)
    ensures image.Some? ==> r == Ok(image.value)
    ensures image.None? && imagePath.None? ==> r == Err(NoImageProvided)
    ensures image.None? && imagePath.Some? ==>
      r == if imagePath.value in files then Ok(files[imagePath.value]) else Err(ImageLoadError(imagePath.value))
  {
    if image.Some? then Ok(image.value)
    else if imagePath.Some? then
      if imagePath.value in files then Ok(files[imagePath.value]) else Err(ImageLoadError(imagePath.value))
    else Err(NoImageProvided)
  }

  /** The size the source image is scaled to: the key size less the margins. */
  function ScaledSize(deck: Deck, margins: Margins): (size: (int, int))
  {
    (deck.keyWidth - margins.left - margins.right, deck.keyHeight - margins.top - margins.bottom)
  }

  /** A label whose font is unset gets the default font; nothing else about it changes. */
  function WithDefaultFont(e: LabelEntry): (d: LabelEntry)
    ensures d.anchor == e.anchor && d.content.(font := e.content.font) == e.content
    ensures d.content.font == if e.content.font.None? then Some(DefaultFont) else e.content.font
  {
    if e.content.font.None? then e.(content := e.content.(font := Some(DefaultFont))) else e
  }

  function DefaultFonts(ls: seq<LabelEntry>): (r: seq<LabelEntry>)
    ensures |r| == |ls| && forall i :: 0 <= i < |ls| ==> r[i] == WithDefaultFont(ls[i])
  {
    seq(|ls|, i requires 0 <= i < |ls| => WithDefaultFont(ls[i]))
  }

  /**
    Where a label's baseline middle is drawn, in canvas coordinates, when the
    scaled image is w by h: x is w / 2; the top label's baseline is at y =
    font size - 3, the bottom label's at y = h - 3 and the centre label's at
    y = (h + font size) / 2 - 3. The margins the image is pasted at are not
    added, so with non-zero margins the labels are not centred on the image.
    Other anchor names are not drawn.
  */
  function LabelPosition(anchor: string, fontSize: int, w: int, h: int): (p: Option<(real, real)>)
    ensures p.Some? <==> anchor in {"top", "center", "bottom"}
    ensures p.Some? ==> p.value.0 * 2.0 == w as real
    ensures anchor == "top" ==> p.value.1 == (fontSize - 3) as real
    ensures anchor == "bottom" ==> p.value.1 == (h - 3) as real
    ensures anchor == "center" ==> (p.value.1 + 3.0) * 2.0 == (h + fontSize) as real
  {
    if anchor == "top" then Some((w as real / 2.0, (fontSize - 3) as real))
    else if anchor == "center" then Some((w as real / 2.0, (h + fontSize) as real / 2.0 - 3.0))
    else if anchor == "bottom" then Some((w as real / 2.0, (h - 3) as real))
    else None
  }

  function DrawLabel(canvas: Image, e: LabelEntry, w: int, h: int): (r: Image)
    ensures WellFormed(canvas) ==> WellFormed(r)
    ensures r.mode == canvas.mode && r.width == canvas.width && r.height == canvas.height
  {
    match LabelPosition(e.anchor, e.content.fontSize, w, h)
    case None => canvas
    case Some(p) => DrawText(canvas, p.0, p.1, e.content.text, e.content.color)
  }

  /** The labels drawn one after the other, in dictionary order. */
  function DrawLabels(canvas: Image, ls: seq<LabelEntry>, w: int, h: int): (r: Image)
    ensures WellFormed(canvas) ==> WellFormed(r)
    ensures r.mode == canvas.mode && r.width == canvas.width && r.height == canvas.height
  {
    if ls == [] then canvas
    else DrawLabel(DrawLabels(canvas, ls[..|ls| - 1], w, h), ls[|ls| - 1], w, h)
  }

  /** The transparent key-sized canvas with the scaled source pasted at (left margin, top margin) and the labels drawn on it. */
  function Foreground(deck: Deck, source: Image, margins: Margins, labels: seq<LabelEntry>): (fg: Image)
    requires ScaledSize(deck, margins).0 >= 1 && ScaledSize(deck, margins).1 >= 1
    ensures WellFormed(fg) && fg.mode == RGBA && fg.width == deck.keyWidth && fg.height == deck.keyHeight
  {
    var (w, h) := ScaledSize(deck, margins);
    var scaled := Resize(source, w, h);
    var alphaBg := Paste(New(RGBA, deck.keyWidth, deck.keyHeight, Transparent), scaled, margins.left, margins.top);
    DrawLabels(alphaBg, labels, w, h)
  }

  /** The layer the foreground is composited on: the key's background tile when wanted and present, else a black 72 by 72 tile. */
  function BaseLayer(tile: Option<Image>, addBackground: bool): (base: Image)
    ensures addBackground && tile.Some? ==> base == tile.value
    ensures !(addBackground && tile.Some?) ==>
      WellFormed(base) && base.mode == RGB && base.width == FallbackBaseSize && base.height == FallbackBaseSize &&
      forall x, y :: 0 <= x < FallbackBaseSize && 0 <= y < FallbackBaseSize ==> Get(base, x, y) == Black
  {
    if addBackground && tile.Some? then tile.value else New(RGB, FallbackBaseSize, FallbackBaseSize, Black)
  }

  /** The foreground laid over the base through its alpha, then shrunk when asked. */
  function Compose(base: Image, fg: Image, shrink: bool): (tile: Image)
    ensures WellFormed(tile)
    ensures !shrink ==> tile.mode == base.mode && tile.width == base.width && tile.height == base.height
    ensures shrink ==> tile.mode == RGB && tile.width == ShrinkTileSize && tile.height == ShrinkTileSize
  {
    var layered := PasteMasked(base, fg);
    if shrink then ShrinkImage(layered) else layered
  }

  /**
    generate_key_image without its side effect on the labels: the native
    frame of the composed tile and the foreground canvas, or why there is none.
  */
  function KeyImage(deck: Deck, files: map<string, Image>, image: Option<Image>, imagePath: Option<string>,
                    labels: seq<LabelEntry>, margins: Margins, tile: Option<Image>, addBackground: bool, shrink: bool)
    : (r: Result<(Frame, Image)>)
    ensures r.Ok? <==> SourceImage(image, imagePath, files).Ok? && ScaledSize(deck, margins).0 >= 1 && ScaledSize(deck, margins).1 >= 1
    ensures r.Err? && SourceImage(image, imagePath, files).Err? ==> r.error == SourceImage(image, imagePath, files).error
    ensures r.Ok? ==>
      var (frame, fg) := r.value;
      WellFormed(fg) && fg.mode == RGBA && fg.width == deck.keyWidth && fg.height == deck.keyHeight &&
      frame.tile == Compose(BaseLayer(tile, addBackground), fg, shrink)
  {
    match SourceImage(image, imagePath, files)
    case Err(e) => Err(e)
    case Ok(source) =>
      var (w, h) := ScaledSize(deck, margins);
      if w < 1 || h < 1 then Err(InvalidGeometry)
      else
        var fg := Foreground(deck, source, margins, DefaultFonts(labels));
        Ok((Encode(deck, Compose(BaseLayer(tile, addBackground), fg, shrink)), fg))
  }

  /**
    When and how generating a key image fails: with no image and no path,
    with a path that cannot be opened (unless an image is given), or when
    the margins leave less than one pixel in either direction.
  */
  lemma KeyImageErrors(deck: Deck, files: map<string, Image>, image: Option<Image>, imagePath: Option<string>,
                       labels: seq<LabelEntry>, margins: Margins, tile: Option<Image>, addBackground: bool, shrink: bool)
    ensures var r := KeyImage(deck, files, image, imagePath, labels, margins, tile, addBackground, shrink);
      (r == Err(NoImageProvided) <==> image.None? && imagePath.None?) &&
      (r.Err? && r.error.ImageLoadError? <==> image.None? && imagePath.Some? && imagePath.value !in files) &&
      (r == Err(InvalidGeometry) <==>
         SourceImage(image, imagePath, files).Ok? && (ScaledSize(deck, margins).0 < 1 || ScaledSize(deck, margins).1 < 1))
  {
  }

  /** An in-memory image wins over a path: the path is then never looked at. */
  lemma ImageWinsOverPath(deck: Deck, files1: map<string, Image>, files2: map<string, Image>, image: Image,
                          path1: Option<string>, path2: Option<string>,
                          labels: seq<LabelEntry>, margins: Margins, tile: Option<Image>, addBackground: bool, shrink: bool)
    ensures KeyImage(deck, files1, Some(image), path1, labels, margins, tile, addBackground, shrink) ==
            KeyImage(deck, files2, Some(image), path2, labels, margins, tile, addBackground, shrink)
  {
  }

  /**
    Without labels, the foreground canvas is key-sized and transparent except
    for the rectangle at (left margin, top margin) of the scaled size, which
    holds the scaled source image.
  */
  lemma ForegroundPlacement(deck: Deck, source: Image, margins: Margins, x: int, y: int)
    requires ScaledSize(deck, margins).0 >= 1 && ScaledSize(deck, margins).1 >= 1
    requires 0 <= x < deck.keyWidth && 0 <= y < deck.keyHeight
    ensures var (w, h) := ScaledSize(deck, margins);
      var fg := Foreground(deck, source, margins, []);
      fg.width == deck.keyWidth && fg.height == deck.keyHeight &&
      Get(fg, x, y) ==
        if margins.left <= x < margins.left + w && margins.top <= y < margins.top + h
        then Get(Resize(source, w, h), x - margins.left, y - margins.top)
        else Transparent
  {
  }

  /**
    The composed tile without shrinking has the base layer's size; where the
    foreground is fully transparent it shows the base layer, where it is
    fully opaque it shows the foreground.
  */
  lemma ComposeOverBase(base: Image, fg: Image, x: int, y: int)
    requires 0 <= x < base.width && 0 <= y < base.height
    ensures var tile := Compose(base, fg, false);
      tile.width == base.width && tile.height == base.height && tile.mode == base.mode &&
      (Get(fg, x, y).a == 0 ==> Get(tile, x, y) == Get(base, x, y)) &&
      (x < fg.width && y < fg.height && Get(fg, x, y).a == 255 ==> Get(tile, x, y) == Store(base.mode, Get(fg, x, y)))
  {
    var tile := Compose(base, fg, false);
    if Get(fg, x, y).a == 0 {
      assert Get(tile, x, y) == Store(base.mode, Get(base, x, y));
    }
  }

  /** A shrunk composition is 72 by 72 with an 11-pixel black border, whatever the base and foreground. */
  lemma ComposeShrunk(base: Image, fg: Image, x: int, y: int)
    requires 0 <= x < ShrinkTileSize && 0 <= y < ShrinkTileSize
    requires !(ShrinkBorder <= x < ShrinkBorder + ShrunkSize && ShrinkBorder <= y < ShrinkBorder + ShrunkSize)
    ensures var tile := Compose(base, fg, true);
      tile.width == ShrinkTileSize && tile.height == ShrinkTileSize && Get(tile, x, y) == Black
  {
  }

  // ---- what reload_keys and the press handlers push ----

  /** The tile pushed for a key on press or release: the foreground over the background tile, or over black without one. */
  function KeyComposite(tile: Option<Image>, fg: Option<Image>): (c: Image)
    ensures tile.Some? ==> c.mode == tile.value.mode && c.width == tile.value.width && c.height == tile.value.height
    ensures tile.None? ==> WellFormed(c) && c.mode == RGB && c.width == FallbackBaseSize && c.height == FallbackBaseSize
    ensures fg.None? ==> c == BaseLayer(tile, true)
  {
    var base := BaseLayer(tile, true);
    if fg.Some? then Compose(base, fg.value, false) else base
  }

  /** show_shrinked_image's frame. */
  function PressedFrame(deck: Deck, tile: Option<Image>, fg: Option<Image>): (f: Frame)
    ensures f.tile.width == ShrinkTileSize && f.tile.height == ShrinkTileSize && f.tile.mode == RGB
  {
    Encode(deck, ShrinkImage(KeyComposite(tile, fg)))
  }

  /** show_normal_image's frame: the composite converted to RGB. */
  function ReleasedFrame(deck: Deck, tile: Option<Image>, fg: Option<Image>): (f: Frame)
    ensures f.tile.mode == RGB
    ensures tile.Some? ==> f.tile.width == tile.value.width && f.tile.height == tile.value.height
    ensures tile.None? ==> f.tile.width == FallbackBaseSize && f.tile.height == FallbackBaseSize
  {
    Encode(deck, Convert(KeyComposite(tile, fg), RGB))
  }

  /** What reload_keys does for one key. */
  datatype ReloadStep = Skip | Push(frame: Frame) | Fail

  /** A snapshot of everything reload_keys reads. */
  datatype ReloadInput = ReloadInput(deck: Deck, foreground: seq<Option<Image>>, background: seq<Option<Image>>,
                                     videos: set<nat>, skipGifs: bool, pressed: seq<bool>)
  {
    predicate Valid() {
      deck.Valid() && |foreground| == deck.keyCount && |background| == deck.keyCount && |pressed| == deck.keyCount
    }

    /** The key is left alone because a video drives it. */
    predicate Skipped(i: nat) {
      skipGifs && i in videos
    }

    /** The key gets a task: it is not skipped and has something to show. */
    predicate Eligible(i: nat)
      requires Valid() && i < deck.keyCount
    {
      !Skipped(i) && (foreground[i].Some? || background[i].Some?)
    }

    /** The key is not skipped and has a foreground but no background tile to paste it on: reload stops there. */
    predicate Broken(i: nat)
      requires Valid() && i < deck.keyCount
    {
      !Skipped(i) && foreground[i].Some? && background[i].None?
    }

    /** The frame reload pushes for an eligible key: foreground over the background tile, shrunk while pressed. */
    function PushedFrame(i: nat): Frame
      requires Valid() && i < deck.keyCount && Eligible(i) && !Broken(i)
    {
      var layered := KeyComposite(background[i], foreground[i]);
      Encode(deck, if pressed[i] then ShrinkImage(layered) else layered)
    }

    function Step(i: nat): (s: ReloadStep)
      requires Valid() && i < deck.keyCount
      ensures s.Push? <==> Eligible(i) && !Broken(i)
      ensures s.Fail? <==> Broken(i)
      ensures s.Push? ==> s.frame == PushedFrame(i)
    {
      if Skipped(i) then Skip
      else if foreground[i].Some? && background[i].None? then Fail
      else if background[i].Some? then Push(PushedFrame(i))
      else Skip
    }

    /** The tasks reload enqueues for keys 0 .. k-1, and whether it got past them all. */
    function Plan(k: nat): (p: (seq<Task>, bool))
      requires Valid() && k <= deck.keyCount
      ensures |p.0| <= k
      ensures forall j :: 0 <= j < |p.0| ==> p.0[j].key < k
    {
      if k == 0 then ([], true)
      else
        var (tasks, ok) := Plan(k - 1);
        if !ok then (tasks, false)
        else match Step(k - 1)
          case Skip => (tasks, true)
          case Push(f) => (tasks + [Task(k - 1, f)], true)
          case Fail => (tasks, false)
    }
  }

  /** No key before `i` (inclusive) stops the reload. */
  ghost predicate NoBrokenUpTo(input: ReloadInput, i: nat)
    requires input.Valid() && i < input.deck.keyCount
  {
    forall j: nat :: j <= i ==> !input.Broken(j)
  }

  /** One step of the plan, with its three outcomes spelled out. */
  lemma PlanUnfold(input: ReloadInput, k: nat)
    requires input.Valid() && 0 < k <= input.deck.keyCount
    ensures var (tasks, ok) := input.Plan(k - 1);
      input.Plan(k) ==
        if ok && input.Step(k - 1).Push? then (tasks + [Task(k - 1, input.PushedFrame(k - 1))], true)
        else if ok && input.Step(k - 1).Skip? then (tasks, true)
        else (tasks, false)
  {
  }

  /** Every task of the plan is for an eligible, unbroken key below k and carries that key's frame. */
  lemma {:induction false} PlanTasksEligible(input: ReloadInput, k: nat)
    requires input.Valid() && k <= input.deck.keyCount
    ensures var tasks := input.Plan(k).0;
      forall j :: 0 <= j < |tasks| ==>
        tasks[j].key < k && input.Eligible(tasks[j].key) && !input.Broken(tasks[j].key) &&
        tasks[j].frame == input.PushedFrame(tasks[j].key)
  {
    if k > 0 {
      PlanTasksEligible(input, k - 1);
      PlanUnfold(input, k);
    }
  }

  /** The plan's tasks are in strictly ascending key order, so no key has two. */
  lemma {:induction false} PlanTasksAscending(input: ReloadInput, k: nat)
    requires input.Valid() && k <= input.deck.keyCount
    ensures var tasks := input.Plan(k).0;
      forall j1, j2 :: 0 <= j1 < j2 < |tasks| ==> tasks[j1].key < tasks[j2].key
  {
    if k > 0 {
      PlanTasksAscending(input, k - 1);
      PlanTasksEligible(input, k - 1);
      PlanUnfold(input, k);
    }
  }

  /** The reload gets past keys 0 .. k-1 exactly when none of them is broken. */
  lemma {:induction false} PlanOkIffNoneBroken(input: ReloadInput, k: nat)
    requires input.Valid() && k <= input.deck.keyCount
    ensures input.Plan(k).1 <==> forall i: nat :: i < k ==> !input.Broken(i)
  {
    if k > 0 {
      PlanOkIffNoneBroken(input, k - 1);
      if input.Plan(k - 1).1 && !input.Broken(k - 1) {
        forall i: nat | i < k ensures !input.Broken(i) {
        }
      }
    }
  }

  /** A stopped reload was stopped by the first broken key and has queued nothing for it or any later key. */
  lemma {:induction false} PlanStopsAtBroken(input: ReloadInput, k: nat)
    requires input.Valid() && k <= input.deck.keyCount
    ensures var (tasks, ok) := input.Plan(k);
      !ok ==> exists b: nat :: b < k && input.Broken(b) && (forall i: nat :: i < b ==> !input.Broken(i)) &&
                forall j :: 0 <= j < |tasks| ==> tasks[j].key < b
  {
    if k > 0 {
      PlanStopsAtBroken(input, k - 1);
      PlanOkIffNoneBroken(input, k - 1);
      PlanTasksEligible(input, k - 1);
      PlanUnfold(input, k);
      var (tasks, ok) := input.Plan(k - 1);
      if ok && input.Step(k - 1).Fail? {
        assert input.Broken(k - 1);
      }
    }
  }

  /** Every eligible key before the first broken one has a task in the plan. */
  lemma {:induction false} PlanCoversEligible(input: ReloadInput, k: nat)
    requires input.Valid() && k <= input.deck.keyCount
    ensures var tasks := input.Plan(k).0;
      forall i: nat :: i < k && input.Eligible(i) && NoBrokenUpTo(input, i) ==>
        exists j :: 0 <= j < |tasks| && tasks[j].key == i
  {
    if k > 0 {
      PlanCoversEligible(input, k - 1);
      PlanOkIffNoneBroken(input, k - 1);
      PlanUnfold(input, k);
      var tasks := input.Plan(k - 1).0;
      var tasks' := input.Plan(k).0;
      assert tasks'[..|tasks|] == tasks;
      var i := k - 1;
      forall i': nat | i' < k && input.Eligible(i') && NoBrokenUpTo(input, i')
        ensures exists j :: 0 <= j < |tasks'| && tasks'[j].key == i'
      {
        if i' == i {
          assert input.Plan(k - 1).1 by {
            forall i'': nat | i'' < k - 1 ensures !input.Broken(i'') {
              assert i'' <= i';
            }
          }
          assert !input.Broken(i);
          assert tasks'[|tasks|].key == i';
        } else {
          var j :| 0 <= j < |tasks| && tasks[j].key == i';
          assert tasks'[j] == tasks'[..|tasks|][j];
        }
      }
    }
  }

  /**
    What reload_keys enqueues for keys 0 .. k-1: only eligible keys, each at
    most once, in ascending key order, each with its own frame; every
    eligible key before the first broken one gets its task; the reload gets
    past all k keys exactly when none of them is broken, and otherwise no
    task is enqueued for the first broken key or any key after it.
  */
  lemma ReloadPlanShape(input: ReloadInput, k: nat)
    requires input.Valid() && k <= input.deck.keyCount
    ensures var (tasks, ok) := input.Plan(k);
      (forall j :: 0 <= j < |tasks| ==>
         tasks[j].key < k && input.Eligible(tasks[j].key) && !input.Broken(tasks[j].key) &&
         tasks[j].frame == input.PushedFrame(tasks[j].key)) &&
      (forall j1, j2 :: 0 <= j1 < j2 < |tasks| ==> tasks[j1].key < tasks[j2].key) &&
      (forall i: nat :: i < k && input.Eligible(i) && NoBrokenUpTo(input, i) ==>
         exists j :: 0 <= j < |tasks| && tasks[j].key == i) &&
      (ok <==> forall i: nat :: i < k ==> !input.Broken(i)) &&
      (!ok ==> exists b: nat :: b < k && input.Broken(b) && (forall i: nat :: i < b ==> !input.Broken(i)) &&
                 forall j :: 0 <= j < |tasks| ==> tasks[j].key < b)
  {
    PlanTasksEligible(input, k);
    PlanTasksAscending(input, k);
    PlanCoversEligible(input, k);
    PlanOkIffNoneBroken(input, k);
    PlanStopsAtBroken(input, k);
  }

  /** On a pressed key with a background tile, reload_keys pushes the very frame the press handler does. */
  lemma ReloadAgreesWithPress(input: ReloadInput, i: nat)
    requires input.Valid() && i < input.deck.keyCount
    requires !input.Skipped(i) && input.background[i].Some? && input.pressed[i]
    ensures input.Step(i) == Push(PressedFrame(input.deck, input.background[i], input.foreground[i]))
  {
  }

  // ---- the controller object ----

  class DeckController {
    const deck: Deck
    /** key_images: the foreground canvas last set on each key. */
    const keyImages: array<Option<Image>>
    /** background_key_tiles: each key's slice of the deck background. */
    const backgroundKeyTiles: array<Option<Image>>

    /** The media handler's image-task queue, as the sequence of tasks handed to it. */
    var imageTasks: seq<Task>
    /** The keys the media handler plays a video on. */
    var videoTasks: set<nat>
    /** Whether the media handler plays a background animation. */
    var backgroundPlaying: bool
    /** The frames written straight to the device, bypassing the media handler. */
    var directWrites: seq<Task>

    ghost predicate Valid() {
      deck.Valid() &&
      keyImages.Length == deck.keyCount && backgroundKeyTiles.Length == deck.keyCount &&
      keyImages != backgroundKeyTiles
    }

    /** One slot per key in both arrays, every slot empty; nothing queued or written yet. */
    constructor (deck: Deck)
      requires deck.Valid()
      ensures Valid() && this.deck == deck
      ensures fresh(keyImages) && fresh(backgroundKeyTiles)
      ensures forall i :: 0 <= i < deck.keyCount ==> keyImages[i].None? && backgroundKeyTiles[i].None?
      ensures imageTasks == [] && directWrites == [] && videoTasks == {} && !backgroundPlaying
    {
      this.deck := deck;
      keyImages := new Option<Image>[deck.keyCount](_ => None);
      backgroundKeyTiles := new Option<Image>[deck.keyCount](_ => None);
      imageTasks := [];
      videoTasks := {};
      backgroundPlaying := false;
      directWrites := [];
    }

    /**
      The key's background tile. generate_key_image reads background_key_tiles[key]
      only when add_background is set, so a key beyond the arrays is harmless
      without it and stands for "no tile".
    */
    function TileAt(key: nat): Option<Image>
      requires Valid()
      reads backgroundKeyTiles
    {
      if key < backgroundKeyTiles.Length then backgroundKeyTiles[key] else None
    }

    /** media_handler.add_image_task(key, frame). */
    method AddImageTask(key: nat, frame: Frame)
      modifies this`imageTasks
      ensures imageTasks == old(imageTasks) + [Task(key, frame)]
    {
      imageTasks := imageTasks + [Task(key, frame)];
    }

    /** set_key_image: write a frame to the device directly. */
    method SetKeyImage(key: nat, frame: Frame)
      modifies this`directWrites
      ensures directWrites == old(directWrites) + [Task(key, frame)]
    {
      directWrites := directWrites + [Task(key, frame)];
    }

    /**
      generate_key_image: compose the key image; labels whose font is unset
      get the default font in the caller's own dictionary, which happens only
      once the image has been loaded and scaled.
    */
    method GenerateKeyImage(key: nat, files: map<string, Image>, image: Option<Image>, imagePath: Option<string>,
                            labels: array?<LabelEntry>, margins: Margins, addBackground: bool, shrink: bool)
      returns (r: Result<(Frame, Image)>)
      requires Valid() && (addBackground ==> key < deck.keyCount)
      modifies labels
      ensures r == KeyImage(deck, files, image, imagePath, if labels == null then [] else old(labels[..]),
                            margins, TileAt(key), addBackground, shrink)
      ensures labels != null ==> labels[..] == if r.Ok? then DefaultFonts(old(labels[..])) else old(labels[..])
    {
      var loaded := SourceImage(image, imagePath, files);
      var (w, h) := ScaledSize(deck, margins);
      if loaded.Err? {
        r := Err(loaded.error);
      } else if w < 1 || h < 1 {
        r := Err(InvalidGeometry);
      } else {
        var frame, alphaBg := ComposeKey(key, loaded.value, labels, margins, addBackground, shrink);
        r := Ok((frame, alphaBg));
      }
    }

    /** generate_key_image once the source is loaded and the margins leave room: draw the foreground, lay it on the base, encode. */
    method ComposeKey(key: nat, source: Image, labels: array?<LabelEntry>, margins: Margins, addBackground: bool, shrink: bool)
      returns (frame: Frame, alphaBg: Image)
      requires Valid() && (addBackground ==> key < deck.keyCount)
      requires ScaledSize(deck, margins).0 >= 1 && ScaledSize(deck, margins).1 >= 1
      modifies labels
      ensures labels != null ==> labels[..] == DefaultFonts(old(labels[..]))
      ensures alphaBg == Foreground(deck, source, margins, DefaultFonts(if labels == null then [] else old(labels[..])))
      ensures frame == Encode(deck, Compose(BaseLayer(TileAt(key), addBackground), alphaBg, shrink))
    {
      alphaBg := DrawForeground(source, labels, margins);
      var bg := LayerOnBase(key, alphaBg, addBackground, shrink);
      frame := Encode(deck, bg);
    }

    /**
      The middle of generate_key_image: scale the source into the margins,
      paste it on a transparent key-sized canvas and draw the labels, giving
      unset fonts the default in the caller's dictionary.
    */
    method DrawForeground(source: Image, labels: array?<LabelEntry>, margins: Margins) returns (alphaBg: Image)
      requires ScaledSize(deck, margins).0 >= 1 && ScaledSize(deck, margins).1 >= 1
      modifies labels
      ensures labels != null ==> labels[..] == DefaultFonts(old(labels[..]))
      ensures alphaBg == Foreground(deck, source, margins, DefaultFonts(if labels == null then [] else old(labels[..])))
    {
      var h := deck.keyHeight - margins.top - margins.bottom;
      var w := deck.keyWidth - margins.left - margins.right;
      assert (w, h) == ScaledSize(deck, margins);
      var scaled := Resize(source, w, h);
      alphaBg := New(RGBA, deck.keyWidth, deck.keyHeight, Transparent);
      alphaBg := Paste(alphaBg, scaled, margins.left, margins.top);
      if labels != null {
        alphaBg := DrawLabelsOnto(labels, alphaBg, w, h);
      } else {
        assert DefaultFonts([]) == [];
      }
    }

    /** The last steps of generate_key_image: pick the base layer, lay the foreground over it, shrink when asked. */
    method LayerOnBase(key: nat, alphaBg: Image, addBackground: bool, shrink: bool) returns (bg: Image)
      requires Valid() && (addBackground ==> key < deck.keyCount)
      ensures bg == Compose(BaseLayer(TileAt(key), addBackground), alphaBg, shrink)
    {
      if addBackground && backgroundKeyTiles[key].Some? {
        bg := backgroundKeyTiles[key].value;
      } else {
        bg := New(RGB, FallbackBaseSize, FallbackBaseSize, Black);
      }
      bg := PasteMasked(bg, alphaBg);
      if shrink {
        bg := ShrinkImage(bg);
      }
    }

    /**
      The label loop of generate_key_image: each label in dictionary order
      gets the default font if it has none, in the caller's dictionary, and
      is drawn on the canvas.
    */
    method DrawLabelsOnto(labels: array<LabelEntry>, canvas: Image, w: int, h: int) returns (r: Image)
      modifies labels
      ensures labels[..] == DefaultFonts(old(labels[..]))
      ensures r == DrawLabels(canvas, labels[..], w, h)
    {
      r := canvas;
      for i := 0 to labels.Length
        invariant forall j :: 0 <= j < i ==> labels[j] == WithDefaultFont(old(labels[j]))
        invariant forall j :: i <= j < labels.Length ==> labels[j] == old(labels[j])
        invariant r == DrawLabels(canvas, labels[..i], w, h)
      {
        ghost var done := labels[..i];
        if labels[i].content.font.None? {
          labels[i] := WithDefaultFont(labels[i]);
        }
        assert labels[..i] == done;
        assert labels[..i + 1][..i] == labels[..i];
        r := DrawLabel(r, labels[i], w, h);
      }
      assert labels[..] == DefaultFonts(old(labels[..]));
      assert labels[..labels.Length] == labels[..];
    }

    /**
      set_image: compose the key image, then either write it to the device
      (bypassTask) or queue one image task for the key, and record the
      foreground canvas in the key's slot. If composing fails nothing changes.
      Labels without a font get the default font in the caller's dictionary
      exactly when composing succeeds. With add_background off a key beyond
      the arrays composes fine and its frame is handed on; only the final
      store into key_images raises, and that is caught.
    */
    method SetImage(key: nat, files: map<string, Image>, image: Option<Image>, imagePath: Option<string>,
                    labels: array?<LabelEntry>, margins: Margins, addBackground: bool, bypassTask: bool, shrink: bool)
      requires Valid() && (addBackground ==> key < deck.keyCount)
      modifies this`imageTasks, this`directWrites, keyImages, labels
      ensures Valid() && backgroundKeyTiles[..] == old(backgroundKeyTiles[..])
      ensures var r := KeyImage(deck, files, image, imagePath, if labels == null then [] else old(labels[..]),
                                margins, TileAt(key), addBackground, shrink);
        (labels != null ==> labels[..] == if r.Ok? then DefaultFonts(old(labels[..])) else old(labels[..])) &&
        (r.Err? ==>
           keyImages[..] == old(keyImages[..]) && imageTasks == old(imageTasks) && directWrites == old(directWrites)) &&
        (r.Ok? ==>
           keyImages[..] == (if key < deck.keyCount then old(keyImages[..])[key := Some(r.value.1)] else old(keyImages[..])) &&
           (bypassTask ==> directWrites == old(directWrites) + [Task(key, r.value.0)] && imageTasks == old(imageTasks)) &&
           (!bypassTask ==> imageTasks == old(imageTasks) + [Task(key, r.value.0)] && directWrites == old(directWrites)))
    {
      var r := GenerateKeyImage(key, files, image, imagePath, labels, margins, addBackground, shrink);
      // On an error, unpacking generate_key_image's None result raises; it is caught and logged.
      if r.Ok? {
        var (nativeImage, pillowImage) := r.value;
        HandOff(key, nativeImage, pillowImage, bypassTask);
      }
    }

    /**
      The second half of set_image: hand the frame to the device or the media
      handler, then record the foreground canvas in the key's slot.
    */
    method HandOff(key: nat, frame: Frame, fg: Image, bypassTask: bool)
      requires Valid()
      modifies this`imageTasks, this`directWrites, keyImages
      ensures keyImages[..] == if key < deck.keyCount then old(keyImages[..])[key := Some(fg)] else old(keyImages[..])
      ensures bypassTask ==> directWrites == old(directWrites) + [Task(key, frame)] && imageTasks == old(imageTasks)
      ensures !bypassTask ==> imageTasks == old(imageTasks) + [Task(key, frame)] && directWrites == old(directWrites)
    {
      if bypassTask {
        SetKeyImage(key, frame);
      } else {
        AddImageTask(key, frame);
      }
      if key < keyImages.Length {
        keyImages[key] := Some(fg);
      }
      // Otherwise the store raises IndexError, which is caught and logged.
    }

    /** What reload_keys reads: the two arrays, the media handler's video keys and the device's pressed keys. */
    ghost function Snapshot(skipGifs: bool, keyStates: seq<bool>): (input: ReloadInput)
      requires Valid() && |keyStates| == deck.keyCount
      reads this, keyImages, backgroundKeyTiles
      ensures input.Valid()
    {
      ReloadInput(deck, keyImages[..], backgroundKeyTiles[..], videoTasks, skipGifs, keyStates)
    }

    /**
      reload_keys: push every key's current image again, in key order. A key
      with a foreground but no background tile makes the loop raise; the
      error is logged and the tasks already queued stay queued (ok is false).
    */
    method ReloadKeys(skipGifs: bool, keyStates: seq<bool>) returns (ok: bool)
      requires Valid() && |keyStates| == deck.keyCount
      modifies this`imageTasks
      ensures imageTasks == old(imageTasks) + Snapshot(skipGifs, keyStates).Plan(deck.keyCount).0
      ensures ok == Snapshot(skipGifs, keyStates).Plan(deck.keyCount).1
    {
      ghost var input := Snapshot(skipGifs, keyStates);
      for i := 0 to deck.keyCount
        invariant imageTasks == old(imageTasks) + input.Plan(i).0
        invariant input.Plan(i).1
      {
        PlanUnfold(input, i + 1);
        var pushed := ReloadKey(i, skipGifs, keyStates, input);
        if !pushed {
          FailedPlanStaysFailed(input, i + 1, deck.keyCount);
          return false;
        }
      }
      return true;
    }

    /**
      One pass of reload_keys' loop body: skip a video key, push the
      background tile alone when the key has no foreground, raise when there
      is a foreground but no tile to paste it on, and otherwise push the
      foreground over the tile; shrunk while the key is pressed. Returns
      false exactly when it raises.
    */
    method ReloadKey(i: nat, skipGifs: bool, keyStates: seq<bool>, ghost input: ReloadInput) returns (ok: bool)
      requires Valid() && |keyStates| == deck.keyCount && i < deck.keyCount
      requires input == Snapshot(skipGifs, keyStates)
      modifies this`imageTasks
      ensures ok <==> !input.Step(i).Fail?
      ensures input.Step(i).Push? ==> imageTasks == old(imageTasks) + [Task(i, input.Step(i).frame)]
      ensures !input.Step(i).Push? ==> imageTasks == old(imageTasks)
    {
      if skipGifs && i in videoTasks {
        return true;
      }
      var image := keyImages[i];
      var bgImage := backgroundKeyTiles[i];
      if image.None? {
        if bgImage.Some? {
          var tile := bgImage.value;
          assert KeyComposite(bgImage, image) == tile;
          if keyStates[i] {
            tile := ShrinkImage(tile);
          }
          AddImageTask(i, Encode(deck, tile));
        }
        return true;
      }
      if bgImage.None? {
        // Pasting onto a missing background tile raises.
        return false;
      }
      var tile := PasteMasked(bgImage.value, image.value);
      assert KeyComposite(bgImage, image) == tile;
      if keyStates[i] {
        tile := ShrinkImage(tile);
      }
      AddImageTask(i, Encode(deck, tile));
      return true;
    }

    /** show_shrinked_image: queue the shrunk composite of the key. */
    method ShowShrinkedImage(key: nat)
      requires Valid() && key < deck.keyCount
      modifies this`imageTasks
      ensures imageTasks == old(imageTasks) + [Task(key, PressedFrame(deck, backgroundKeyTiles[key], keyImages[key]))]
    {
      var bgImage := if backgroundKeyTiles[key].Some? then backgroundKeyTiles[key].value
                     else New(RGB, FallbackBaseSize, FallbackBaseSize, Black);
      if keyImages[key].Some? {
        bgImage := PasteMasked(bgImage, keyImages[key].value);
      }
      var image := ShrinkImage(bgImage);
      AddImageTask(key, Encode(deck, image));
    }

    /** show_normal_image: queue the composite of the key, converted to RGB. */
    method ShowNormalImage(key: nat)
      requires Valid() && key < deck.keyCount
      modifies this`imageTasks
      ensures imageTasks == old(imageTasks) + [Task(key, ReleasedFrame(deck, backgroundKeyTiles[key], keyImages[key]))]
    {
      var bgImage := if backgroundKeyTiles[key].Some? then backgroundKeyTiles[key].value
                     else New(RGB, FallbackBaseSize, FallbackBaseSize, Black);
      if keyImages[key].Some? {
        bgImage := PasteMasked(bgImage, keyImages[key].value);
      }
      var image := Convert(bgImage, RGB);
      AddImageTask(key, Encode(deck, image));
    }

    /**
      handle_shrink_animation: while a background animation plays, nothing;
      otherwise one shrunk frame on press, one normal frame on release. The
      stored images are only read.
    */
    method HandleShrinkAnimation(key: nat, pressed: bool)
      requires Valid() && key < deck.keyCount
      modifies this`imageTasks
      ensures keyImages[..] == old(keyImages[..]) && backgroundKeyTiles[..] == old(backgroundKeyTiles[..])
      ensures backgroundPlaying ==> imageTasks == old(imageTasks)
      ensures !backgroundPlaying && pressed ==>
        imageTasks == old(imageTasks) + [Task(key, PressedFrame(deck, backgroundKeyTiles[key], keyImages[key]))]
      ensures !backgroundPlaying && !pressed ==>
        imageTasks == old(imageTasks) + [Task(key, ReleasedFrame(deck, backgroundKeyTiles[key], keyImages[key]))]
    {
      if backgroundPlaying {
        return;
      }
      if pressed {
        ShowShrinkedImage(key);
      } else {
        ShowNormalImage(key);
      }
    }
  }

  /** Once the reload has stopped, later keys add nothing. */
  lemma {:induction false} FailedPlanStaysFailed(input: ReloadInput, k: nat, n: nat)
    requires input.Valid() && k <= n <= input.deck.keyCount
    requires !input.Plan(k).1
    ensures input.Plan(n) == input.Plan(k)
    decreases n - k
  {
    if k < n {
      FailedPlanStaysFailed(input, k, n - 1);
    }
  }
}
