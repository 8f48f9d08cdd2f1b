# StreamController deck rendering, modelled in Dafny

StreamController drives multi-key decks whose every key has a small display.
This project models the part of it that turns images into key frames:

- **ImageHelpers** (`image_helpers.dfy`) covers `src/backend/DeckManagement/ImageHelpers.py`.
  It models the size of the virtual "full deck" canvas: all keys plus the 36-pixel bezel gaps between them.
  It maps a key index to its row and column and gives the crop box of every key on that canvas.
  It slices a background into one tile per key, and it has the fixed shrink transform used as press feedback.
- **Controller** (`deck_controller.dfy`) covers the class `DeckController` of `src/backend/DeckManagement/DeckController.py`.
  The class holds two per-key arrays, `key_images` (foreground canvases) and `background_key_tiles`.
  It composes a key image from a source image, margins, labels and a base layer.
  It either writes the frame to the device or queues an image task with the media handler.
  It re-pushes every key in `reload_keys`, and it answers key presses and releases with shrunk and normal frames.
- **Pixels** (`pixels.dfy`) holds the imaging-library operations the two files call: `new`, `convert`, `crop`, `paste`, `paste` through an alpha mask, `resize`, `ImageOps.fit` and text drawing.
  Crop and paste are stated as index arithmetic on a pixel grid.
  Pixels of an RGB image read back opaque, so pasting RGBA content onto an RGB image drops its alpha, as the library does.
- **Devices** (`devices.dfy`) holds the deck's capability descriptor: key count, layout (rows, cols) and key image size.
  It also has the native frame and `PILHelper.create_image`.
- **Results** (`results.dfy`) holds the error cases.
  Seven methods of `DeckController` are wrapped in `@log.catch`, which logs an exception and returns `None`: `__init__`, `generate_key_image`, `set_image`, `reload_keys`, `handle_shrink_animation`, `show_shrinked_image` and `show_normal_image`.
  The model turns each such exception into an error result, or into "nothing changes" where the effect is that.

The media handler is not part of this model; the controller sees only part of it.
That part is a queue of `(key, frame)` image tasks, modelled as an append-only sequence.
It also includes the set of keys playing a video and a flag for a playing background animation.
The device's writes are a log of `(key, frame)` pairs.
The pressed state of the keys is passed to `ReloadKeys` as a snapshot.

Nothing in the modelled code writes `background_key_tiles`: the array is filled outside it, from the deck's background.
The constructor leaves it empty, and every method is proved for any contents of both arrays.

Some facts about the code that the model keeps:
- The 15-key deck (3 rows of 5 keys, 72 by 72 pixels) has a full-deck canvas of (504, 288): 5·72 + 4·36 = 504 and 3·72 + 2·36 = 288 (`StandardDeckGeometry`).
- Labels are anchored in canvas coordinates at x = w/2, where w and h are the scaled image's size (`DeckController.py` lines 92, 96 and 100). The image itself is pasted at the left and top margins (line 79), and the margins are not added to the label anchors. With non-zero margins a label is therefore `left` pixels left of the image's centre, and the bottom baseline is `top + 3` pixels above the image's bottom edge.
- The fallback black base layer is always 72 by 72, whatever the key size (lines 107, 184 and 198).

## Model

| member | source | states |
|---|---|---|
| `ImageHelpers.FullDeckSize` | src/backend/DeckManagement/ImageHelpers.py:24-41 | The canvas is `keyWidth*cols + 36*(cols-1)` wide and `keyHeight*rows + 36*(rows-1)` high. |
| `ImageHelpers.StandardDeckGeometry` | src/backend/DeckManagement/ImageHelpers.py:24-80 | For 3×5 keys of 72×72 the canvas is (504, 288), and key 7 is at row 1, col 2 with crop (216, 108, 288, 180). |
| `ImageHelpers.KeyPosition` | src/backend/DeckManagement/ImageHelpers.py:69-71 | `row = key // cols`, `col = key % cols` lie inside the layout (`row < rows`, `col < cols`) and `key == row*cols + col`. |
| `ImageHelpers.KeyPositionOfCell` | src/backend/DeckManagement/ImageHelpers.py:69-71 | The inverse: every layout cell (row, col) is the position of key `row*cols + col`, so keys and cells are in one-to-one correspondence. |
| `ImageHelpers.CropRegion` | src/backend/DeckManagement/ImageHelpers.py:73-80 | Every key's crop box is exactly `keyWidth` wide and `keyHeight` high. |
| `ImageHelpers.CropRegionInsideCanvas` | src/backend/DeckManagement/ImageHelpers.py:24-80 | Every valid key's crop lies inside the full-deck canvas. The last column and the last row end exactly at the canvas edge. |
| `ImageHelpers.CropRegionsSeparated` | src/backend/DeckManagement/ImageHelpers.py:75-80 | The crops of two different keys never overlap: along one axis they are at least 36 pixels apart. |
| `ImageHelpers.FullDeckImage` | src/backend/DeckManagement/ImageHelpers.py:23-51 | It succeeds exactly when the file name is given and opens, or no file name but an image is given. A missing file is an `ImageLoadError`. No source at all is an error. On success the canvas is RGBA and of full-deck size. |
| `ImageHelpers.FilenameTakesPrecedence` | src/backend/DeckManagement/ImageHelpers.py:46-49 | With a file name given, the in-memory image passed beside it has no effect on the canvas. |
| `ImageHelpers.CropKeyImage` | src/backend/DeckManagement/ImageHelpers.py:64-88 | The key tile is an RGB image of the key size. Its pixel (x, y) is the canvas pixel at (left + x, top + y) of that key's crop, read opaque. The frame encodes that tile. |
| `ImageHelpers.WallpaperTiles` | src/backend/DeckManagement/ImageHelpers.py:59-62 | Slicing gives exactly `keyCount` tiles, each a key-sized RGB image. |
| `ImageHelpers.WallpaperTilePixel` | src/backend/DeckManagement/ImageHelpers.py:59-88 | Slicing a full-size canvas gives `keyCount` tiles. Pixel (x, y) of tile i is a real canvas pixel, never overhang fill, taken from key i's crop. |
| `ImageHelpers.CreateWallpaperImageArray` | src/backend/DeckManagement/ImageHelpers.py:52-62 | It fails exactly when the canvas cannot be made, with the same error. Otherwise it returns one tile per key in ascending key order, tile i being the crop of key i. |
| `ImageHelpers.ShrinkImage` | src/backend/DeckManagement/ImageHelpers.py:90-93 | The result is always a 72×72 RGB tile. Pixels in [11,61)×[11,61) come from the input resampled to 50×50; every other pixel is black. |
| `ImageHelpers.ShrinkCentred` | src/backend/DeckManagement/ImageHelpers.py:90-93 | Only the central square can be non-black. The border is 11 pixels on every side (11 + 50 + 11 = 72), so outside the central square a pixel equals its mirror through the centre. |
| `Controller.SourceImage` | src/backend/DeckManagement/DeckController.py:62-67 | An in-memory image wins over a path. A path is opened from the file store, or gives `ImageLoadError`. Neither gives "No image provided". |
| `Controller.KeyImageErrors` | src/backend/DeckManagement/DeckController.py:59-72 | Generating a key image fails with "no image" exactly when neither image nor path is given. It fails with a load error exactly when only an unopenable path is given. It fails with `InvalidGeometry` exactly when a source exists but the margins leave less than one pixel. |
| `Controller.ImageWinsOverPath` | src/backend/DeckManagement/DeckController.py:62-67 | When an image is given, the path and the file store make no difference to the result. |
| `Controller.WithDefaultFont` | src/backend/DeckManagement/DeckController.py:86-88 | A label with no font gets the default font path. A label that has a font keeps it, and nothing else in the label changes. |
| `Controller.LabelPosition` | src/backend/DeckManagement/DeckController.py:90-101 | Only "top", "center" and "bottom" labels are drawn, all at canvas x = scaled width / 2, with the margins not added. The top baseline is at canvas y = font size − 3 and the bottom one at y = scaled height − 3. The centre one is at (scaled height + font size)/2 − 3. |
| `Controller.DrawLabels` | src/backend/DeckManagement/DeckController.py:85-101 | Drawing the labels one after the other keeps the canvas's size, mode and well-formedness. |
| `Controller.Foreground` | src/backend/DeckManagement/DeckController.py:69-101 | The foreground canvas is a key-sized RGBA image. |
| `Controller.ForegroundPlacement` | src/backend/DeckManagement/DeckController.py:69-79 | With no labels, the canvas holds the source scaled to (keyWidth − left − right) × (keyHeight − top − bottom) at (left, top), and is transparent everywhere else. |
| `Controller.BaseLayer` | src/backend/DeckManagement/DeckController.py:104-107 | The base layer is the key's background tile when `add_background` is set and the tile exists. Otherwise it is a black 72×72 RGB tile. |
| `Controller.ComposeOverBase` | src/backend/DeckManagement/DeckController.py:104-108 | The composite keeps the base layer's size and mode. Where the foreground is fully transparent it shows the base. Where the foreground is fully opaque it shows the foreground. |
| `Controller.Compose` | src/backend/DeckManagement/DeckController.py:108-111 | The composite is well formed. Without `shrink` it has the base layer's size and mode; with `shrink` it is a 72×72 RGB tile. |
| `Controller.KeyImage` | src/backend/DeckManagement/DeckController.py:62-114 | It succeeds exactly when a source image is found and the margins leave at least one pixel each way; a source error is passed through unchanged. On success the foreground is a key-sized RGBA canvas, and the frame encodes that canvas composed over the base layer. |
| `Controller.ComposeShrunk` | src/backend/DeckManagement/DeckController.py:110-111 | With `shrink`, the shrink is applied after compositing: the tile is 72×72 and its 11-pixel border is black. |
| `Controller.KeyComposite` | src/backend/DeckManagement/DeckController.py:180-186 | The press and release composite has the background tile's size and mode, or is a 72×72 RGB image when the key has no tile. With no foreground it is just the base layer. The same composite is built at lines 194-200. |
| `Controller.PressedFrame` | src/backend/DeckManagement/DeckController.py:179-190 | The press frame is the shrunk composite, always 72×72 RGB. |
| `Controller.ReleasedFrame` | src/backend/DeckManagement/DeckController.py:193-203 | The release frame is the composite converted to RGB. It is the size of the background tile, or 72×72 when the key has none. |
| `Controller.DeckController.constructor` | src/backend/DeckManagement/DeckController.py:44-54 | Both per-key arrays have `key_count` slots, all empty. No task is queued and nothing has been written. |
| `Controller.DeckController.GenerateKeyImage` | src/backend/DeckManagement/DeckController.py:58-114 | The result equals `KeyImage` over the key's tile: the frame of the composed tile and the foreground canvas, or the error. The caller's labels get default fonts exactly when composing succeeds. With `add_background` off, any key is accepted, since the tile array is never read (line 104). |
| `Controller.DeckController.ComposeKey` | src/backend/DeckManagement/DeckController.py:69-114 | Once a source is loaded and the margins leave room, the canvas is `Foreground` with the defaulted labels. The frame encodes `Compose` of the base layer and that canvas, and the caller's labels get default fonts in place. |
| `Controller.DeckController.DrawForeground` | src/backend/DeckManagement/DeckController.py:69-101 | The scaled source pasted at the margins on a transparent key-sized canvas, with the labels drawn, equals `Foreground` over the defaulted labels. The caller's labels get default fonts in place. |
| `Controller.DeckController.LayerOnBase` | src/backend/DeckManagement/DeckController.py:104-111 | The tile is `Compose` of the base layer and the foreground: the key's tile when `add_background` is set and the tile exists, otherwise black. |
| `Controller.DeckController.DrawLabelsOnto` | src/backend/DeckManagement/DeckController.py:83-101 | Every label in the caller's dictionary gets the default font if it has none, in place. The labels are drawn in dictionary order. |
| `Controller.DeckController.SetKeyImage` | src/backend/DeckManagement/DeckController.py:211-212 | It appends exactly one direct write of the frame for the key. |
| `Controller.DeckController.SetImage` | src/backend/DeckManagement/DeckController.py:116-127 | On failure nothing changes, the caller's labels included. On success the labels get default fonts, and `bypass_task` decides the hand-off: either one direct write to the device and no task, or exactly one task for `key` and no direct write. Only slot `key` of `key_images` changes, to the foreground canvas; a key beyond the arrays (possible with `add_background` off) changes no slot. No background tile changes. |
| `Controller.DeckController.HandOff` | src/backend/DeckManagement/DeckController.py:121-127 | Exactly one write or one task for the key, chosen by `bypass_task`, then the canvas is stored in slot `key`. A key beyond the array raises at line 127 after the frame is handed on, so only the slot update is lost. |
| `Controller.ReloadInput.Step` | src/backend/DeckManagement/DeckController.py:139-161 | One key of `reload_keys`: it pushes a frame exactly when the key is eligible and not broken, and that frame is the key's `PushedFrame`. It fails exactly when the key is not skipped as a video and has a foreground but no background tile. |
| `Controller.ReloadInput.Plan` | src/backend/DeckManagement/DeckController.py:139-161 | The tasks for keys 0 .. k-1: at most k of them, each for a key below k. |
| `Controller.DeckController.ReloadKey` | src/backend/DeckManagement/DeckController.py:140-161 | One pass of the loop body queues exactly the task `Step` pushes for the key, or nothing. It reports a failure exactly when `Step` fails. |
| `Controller.DeckController.ReloadKeys` | src/backend/DeckManagement/DeckController.py:136-161 | The tasks queued are exactly the plan computed from the current arrays, video keys and pressed keys. It returns whether the loop got through every key. |
| `Controller.ReloadPlanShape` | src/backend/DeckManagement/DeckController.py:137-161 | See the list below the table. |
| `Controller.ReloadAgreesWithPress` | src/backend/DeckManagement/DeckController.py:144-158 | For a pressed key with a background tile, reload pushes the very frame the press handler pushes. |
| `Controller.DeckController.ShowShrinkedImage` | src/backend/DeckManagement/DeckController.py:178-190 | It queues exactly one task for the key, carrying the press frame. |
| `Controller.DeckController.ShowNormalImage` | src/backend/DeckManagement/DeckController.py:192-203 | It queues exactly one task for the key, carrying the release frame. |
| `Controller.DeckController.HandleShrinkAnimation` | src/backend/DeckManagement/DeckController.py:166-176 | While a background animation plays it queues nothing. Otherwise a press queues exactly one shrunk frame and a release exactly one normal frame. `key_images` and `background_key_tiles` are unchanged either way. |

What `Controller.ReloadPlanShape` states about the tasks `reload_keys` queues:
- A key skipped as a video, or with neither foreground nor background, gets no task.
- Call a key *broken* when it is not skipped as a video and has a foreground but no background tile.
- Every other key before the first broken key gets exactly one task, in ascending key order.
- Each task's frame is the key's composite, shrunk if and only if the key is pressed.
- The loop completes exactly when there is no broken key.
- Otherwise the loop stops at the first broken key: nothing is queued for it or for any later key.

## Left out

- Pixel values of resampling (`Image.resize` and `ImageOps.fit` with LANCZOS) and of TrueType text drawing are outside the model: only their output size and mode are modelled. `Pixels.Resize` samples the nearest pixel and `Pixels.DrawText` marks the anchor pixel, so that they have definitions; no property depends on those bodies. The fit's aspect-preserving crop is likewise not modelled.
- Alpha blending of partially transparent pixels: `Pixels.Blend` uses an integer formula whose rounding is not claimed to match the library; only fully transparent and fully opaque pixels are relied upon.
- `PILHelper.to_native_format`: the device encoding (rotation, mirroring, BMP or JPEG) is abstracted as a frame that records its tile.
- Device I/O: `open`, `reset`, `set_key_callback` in the constructor, `set_brightness`, `key_state` and the `key_count` pass-through.
- `key_change_callback` is not modelled separately; it only forwards to `handle_shrink_animation`, which is.
- `set_video` and `set_background` only forward to the media handler, whose `add_video_task` and `set_background` are not part of this model. For the same reason the model never changes the video key set or the background-playing flag; the controller's methods are proved for every value of them.
- The media handler's threads, timers, latest-wins slots, cancellation and disconnect handling are not part of this model; its image-task queue is an append-only log.
- Font files that cannot be loaded (`ImageFont.truetype` raising) are not modelled: every font path is taken to load.
- `Controller.DeckController.GenerateKeyImage`: a key outside `0 .. key_count-1` together with `add_background` set is excluded by the precondition. There, line 104 would index from the end for a negative key, or raise `IndexError` after the labels had been defaulted. Negative keys are excluded by the key's type. With `add_background` off every non-negative key is modelled, and so is the `IndexError` at line 127 in `SetImage`.
- `ShowShrinkedImage`, `ShowNormalImage` and `HandleShrinkAnimation` require a key inside `0 .. key_count-1`; their failure on other keys is not modelled.
- `Controller.KeyImageErrors`: a resize to a width or height below one pixel is modelled as `InvalidGeometry`, the library's `ValueError`. Every other library failure is not modelled.
- Label stroke width and the label's font are carried but do not affect the modelled pixels.
- Colour modes other than RGB and RGBA.
- `ImageHelpers.FullDeckSize` and the rest of the geometry assume a descriptor with at least one key, `key_count == rows * cols` and a key image at least one pixel wide and high, as every connected deck reports. With a zero key size, `ImageOps.fit` at line 50 of `ImageHelpers.py` would raise. That case is outside the descriptor the model accepts.
