/** What the game knows about its images: which sprite sheet and frame an
    entity shows, and an asset registry that supplies everything that comes
    from the image files (frame counts, sprite sizes, the pixel-mask overlap
    test) as given data. */
module Sprites {

  /** Player animations, named after the sprite sheets. */
  datatype PlayerAnim = Idle | Run | Jump | DoubleJump | Fall | Hit
  datatype Direction = Left | Right
  datatype FireAnim = FireOn | FireOff
  datatype TrampolineAnim = TrampolineIdle | TrampolineJump
  datatype RockHeadAnim = RockHeadIdle | BottomHit
  /** Terrain blocks: grass ("X") and dirt ("D"). */
  datatype Material = Grass | Dirt
  datatype Orientation = Up | Down

  /** One sprite sheet, i.e. one list of equally sized frames. */
  datatype Sheet =
    | PlayerSheet(anim: PlayerAnim, dir: Direction)
    | FireSheet(fire: FireAnim)
    | TrampolineSheet(trampoline: TrampolineAnim)
    | RockHeadSheet(rockHead: RockHeadAnim)
    | BlockSheet(material: Material)
    | SpikeSheet(orientation: Orientation)

  /** One image: a frame of a sheet. A collision mask is a function of the image. */
  datatype Frame = Frame(sheet: Sheet, index: nat)

  /** A mask placed in the world: the image it was computed from and the
      top-left corner it is placed at. */
  datatype Placed = Placed(frame: Frame, x: int, y: int)

  /** A frame count; every sheet that is loaded has at least one frame. */
  type Count = n: int | n > 0 witness 1

  /** The asset registry:
      - frames(s): number of frames of sheet s;
      - width(s), height(s): size of each (already scaled) frame of sheet s;
      - overlap(a, b): whether the masks a and b share an opaque pixel;
      - toPixel(v): the integer coordinate a rectangle takes when it is
        assigned the fractional value v. */
  datatype Assets = Assets(
    frames: Sheet -> Count,
    width: Sheet -> nat,
    height: Sheet -> nat,
    overlap: (Placed, Placed) -> bool,
    toPixel: real -> int)

  /** Frame shown by an animation whose counter is `count`, when each frame
      is held for `delay` ticks and the sheet has `len` frames. */
  function FrameIndex(count: nat, delay: Count, len: Count): (i: nat)
    ensures i < len
    ensures count < delay ==> i == 0
  {
    (count / delay) % len
  }
}
