/** The capability descriptor of a connected deck and the device-native frame format. */
module Devices {
  import opened Pixels

  /**
    What the controller reads from a deck: key_count(), key_layout() as
    (rows, cols) and key_image_format()['size'] as (keyWidth, keyHeight).
    A connected deck has at least one key, as many keys as layout cells, and
    a key image of at least one pixel each way.
  */
  datatype Deck = Deck(keyCount: nat, rows: nat, cols: nat, keyWidth: nat, keyHeight: nat) {
    predicate Valid() {
      keyCount >= 1 && keyCount == rows * cols && keyWidth >= 1 && keyHeight >= 1
    }
  }

  lemma ValidLayout(deck: Deck)
    requires deck.Valid()
    ensures deck.rows >= 1 && deck.cols >= 1
  {
  }

  /**
    A frame in the device's native encoding. The device-specific byte layout
    (rotation, mirroring, BMP or JPEG) is not modelled; a frame records the
    tile it encodes, so two frames are equal exactly when their tiles are.
  */
  datatype Frame = Native(tile: Image)

  /** PILHelper.to_native_format(deck, tile). */
  function Encode(deck: Deck, tile: Image): (f: Frame)
    ensures f.tile == tile
  {
    Native(tile)
  }

  /** PILHelper.create_image(deck): a black RGB image of the key size. */
  function CreateImage(deck: Deck): (img: Image)
    ensures WellFormed(img) && img.mode == RGB && img.width == deck.keyWidth && img.height == deck.keyHeight
    ensures forall x, y :: 0 <= x < deck.keyWidth && 0 <= y < deck.keyHeight ==> Get(img, x, y) == Black
  {
    New(RGB, deck.keyWidth, deck.keyHeight, Black)
  }
}
