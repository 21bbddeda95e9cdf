/** The camera frame as the face detector sees it. The frame type itself
    belongs to the camera pipeline; only the fields the detector reads are
    kept here. The pixel buffer is reduced to whether it is present, since the
    bytes are only handed on to the detection engine. */
module Frames {

  /** Which camera produced the frame: front-facing streams are mirrored. */
  datatype Lens = Front | Back

  /** Pixel dimensions of a frame or of the overlay view. */
  datatype Size = Size(width: int, height: int)

  datatype Frame = Frame(hasData: bool, size: Size, rotation: int, lens: Lens)

  /** The same dimensions with the axes exchanged. */
  function Transpose(s: Size): (t: Size)
  {
    Size(s.height, s.width)
  }
}
