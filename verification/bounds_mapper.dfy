/** Conversion of a detected face rectangle from the source frame's pixel
    space to the overlay's pixel space (`Face.toFaceBounds`).

    The detector reports integer rectangles in the frame's own, possibly
    rotated, coordinate system. The mapper (1) swaps the frame's axes for
    quarter-turn rotations, (2) mirrors left/right about the effective width
    for the front lens, and (3) scales each axis by overlay size over
    effective size. Scaling is done in floating point in the code; here it
    is exact `real` arithmetic. */
module BoundsMapper {
  import opened Wrappers
  import opened Frames

  /** Integer rectangle in source-image pixels (top-left origin, y down). */
  datatype Rect = Rect(left: int, top: int, right: int, bottom: int)

  /** Rectangle in overlay pixels after scaling. */
  datatype RectF = RectF(left: real, top: real, right: real, bottom: real)

  /** One detected face: tracking identity (possibly unassigned) and box. */
  datatype Candidate = Candidate(trackingId: Option<int>, boundingBox: Rect)

  /** The mapper's output, handed to the overlay. */
  datatype FaceBounds = FaceBounds(trackingId: Option<int>, box: RectF)

  /** Rotations for which the detector's axes are exchanged. Only the exact
      values 90 and 270 count; every other value leaves the axes alone. */
  predicate QuarterTurn(rotation: int)
  {
    rotation == 90 || rotation == 270
  }

  /** Width and height of the detector's coordinate space. */
  function EffectiveSize(f: Frame): (e: Size)
    ensures QuarterTurn(f.rotation) ==> e.width == f.size.height && e.height == f.size.width
    ensures !QuarterTurn(f.rotation) ==> e == f.size
  {
    if QuarterTurn(f.rotation) then Transpose(f.size) else f.size
  }

  /** The caller's obligation: the scale factors divide by the effective
      dimensions, so neither may be zero. */
  predicate Mappable(f: Frame)
  {
    EffectiveSize(f).width != 0 && EffectiveSize(f).height != 0
  }

  /** Horizontal reflection about the effective width, applied for the front
      lens only. Vertical coordinates are never touched. */
  function Mirror(b: Rect, width: int, lens: Lens): (m: Rect)
    ensures m.top == b.top && m.bottom == b.bottom
    ensures m.right - m.left == b.right - b.left
    ensures lens == Back ==> m == b
    ensures lens == Front ==> m.left + b.right == width && m.right + b.left == width
  {
    if lens == Front then Rect(width - b.right, b.top, width - b.left, b.bottom) else b
  }

  /** Multiplies horizontal coordinates by `sx` and vertical ones by `sy`. */
  function Scale(b: Rect, sx: real, sy: real): (r: RectF)
  {
    RectF(sx * b.left as real, sy * b.top as real, sx * b.right as real, sy * b.bottom as real)
  }

  function ScaleX(f: Frame, overlay: Size): (sx: real)
    requires Mappable(f)
  {
    overlay.width as real / EffectiveSize(f).width as real
  }

  function ScaleY(f: Frame, overlay: Size): (sy: real)
    requires Mappable(f)
  {
    overlay.height as real / EffectiveSize(f).height as real
  }

  /** `Face.toFaceBounds`: one detected face in overlay coordinates. */
  function MapBounds(c: Candidate, f: Frame, overlay: Size): (r: FaceBounds)
    requires Mappable(f)
    ensures r.trackingId == c.trackingId
    ensures r.box.top == ScaleY(f, overlay) * c.boundingBox.top as real
    ensures r.box.bottom == ScaleY(f, overlay) * c.boundingBox.bottom as real
    ensures r.box.right - r.box.left
         == ScaleX(f, overlay) * (c.boundingBox.right - c.boundingBox.left) as real
    ensures f.lens == Back
        ==> r.box.left == ScaleX(f, overlay) * c.boundingBox.left as real
            && r.box.right == ScaleX(f, overlay) * c.boundingBox.right as real
    ensures f.lens == Front
        ==> r.box.left == ScaleX(f, overlay) * (EffectiveSize(f).width - c.boundingBox.right) as real
            && r.box.right == ScaleX(f, overlay) * (EffectiveSize(f).width - c.boundingBox.left) as real
  {
    var e := EffectiveSize(f);
    var flipped := Mirror(c.boundingBox, e.width, f.lens);
    FaceBounds(c.trackingId, Scale(flipped, ScaleX(f, overlay), ScaleY(f, overlay)))
  }

  /** `faces.map { it.toFaceBounds(frame) }`: every face, in order. */
  function MapAll(faces: seq<Candidate>, f: Frame, overlay: Size): (r: seq<FaceBounds>)
    requires Mappable(f)
    ensures |r| == |faces|
    ensures forall i :: 0 <= i < |faces| ==> r[i] == MapBounds(faces[i], f, overlay)
  {
    if faces == [] then [] else [MapBounds(faces[0], f, overlay)] + MapAll(faces[1..], f, overlay)
  }

  // ---------------------------------------------------------------------
  // Properties of the axis swap

  /** A quarter-turn frame has the effective size of the same frame held
      upright with its dimensions exchanged; a half-turn or unrotated frame
      keeps its own. */
  lemma QuarterTurnSwapsAxes(f: Frame, r: int)
    requires QuarterTurn(f.rotation) && !QuarterTurn(r)
    ensures EffectiveSize(f) == EffectiveSize(Frame(f.hasData, Transpose(f.size), r, f.lens))
    ensures EffectiveSize(f) == Transpose(EffectiveSize(f.(rotation := r)))
  {
  }

  /** For every rotation value, the mapper's precondition is
      exactly "the frame has no zero dimension". */
  lemma MappableIffNonZeroFrame(f: Frame)
    ensures Mappable(f) <==> f.size.width != 0 && f.size.height != 0
  {
  }

  // ---------------------------------------------------------------------
  // Properties of the mirror step

  lemma MirrorInvolution(b: Rect, width: int, lens: Lens)
    ensures Mirror(Mirror(b, width, lens), width, lens) == b
  {
  }

  /** Mirroring keeps a well-ordered box well-ordered, and a box that lies
      within [0, width] stays within it. */
  lemma MirrorKeepsBoxInFrame(b: Rect, width: int, lens: Lens)
    ensures b.left <= b.right ==> Mirror(b, width, lens).left <= Mirror(b, width, lens).right
    ensures 0 <= b.left <= b.right <= width
        ==> 0 <= Mirror(b, width, lens).left <= Mirror(b, width, lens).right <= width
  {
  }

  // ---------------------------------------------------------------------
  // Properties of the whole mapping

  /** A factor times the divisor it was divided by gives back the dividend. */
  lemma ScaleCancels(n: real, d: real)
    requires d != 0.0
    ensures (n / d) * d == n
  {
  }

  /** Front-lens output is the back-lens output reflected about the overlay
      width: mirroring in source space and scaling commute. */
  lemma FrontIsMirroredBack(c: Candidate, f: Frame, overlay: Size)
    requires Mappable(f)
    ensures var front := MapBounds(c, f.(lens := Front), overlay).box;
            var back := MapBounds(c, f.(lens := Back), overlay).box;
            && front.left == overlay.width as real - back.right
            && front.right == overlay.width as real - back.left
            && front.top == back.top && front.bottom == back.bottom
  {
    var sx := ScaleX(f, overlay);
    var w := EffectiveSize(f).width as real;
    ScaleCancels(overlay.width as real, w);
    assert sx * w == overlay.width as real;
    var b := c.boundingBox;
    assert sx * (w - b.right as real) == sx * w - sx * b.right as real;
    assert sx * (w - b.left as real) == sx * w - sx * b.left as real;
  }

  /** The whole effective frame maps onto the whole overlay, for either lens. */
  lemma FullFrameMapsToOverlay(id: Option<int>, f: Frame, overlay: Size)
    requires Mappable(f)
    ensures var e := EffectiveSize(f);
            MapBounds(Candidate(id, Rect(0, 0, e.width, e.height)), f, overlay).box
            == RectF(0.0, 0.0, overlay.width as real, overlay.height as real)
  {
    var e := EffectiveSize(f);
    ScaleCancels(overlay.width as real, e.width as real);
    ScaleCancels(overlay.height as real, e.height as real);
  }

  /** Scaling an interval inside [0, extent] by size / extent lands inside
      [0, size] and keeps its order. */
  lemma ScaledIntervalInRange(lo: int, hi: int, extent: int, size: int)
    requires 0 <= lo <= hi <= extent && extent > 0 && size >= 0
    ensures var k := size as real / extent as real;
            0.0 <= k * lo as real <= k * hi as real <= size as real
  {
    var k := size as real / extent as real;
    assert 0.0 <= k;
    assert k * hi as real - k * lo as real == k * (hi - lo) as real;
    assert size as real - k * hi as real == k * (extent - hi) as real by {
      ScaleCancels(size as real, extent as real);
    }
  }

  /** With a positive frame and a non-negative overlay, a box inside the
      effective frame maps to a well-ordered box inside the overlay. */
  lemma MapBoundsStaysInOverlay(c: Candidate, f: Frame, overlay: Size)
    requires EffectiveSize(f).width > 0 && EffectiveSize(f).height > 0
    requires overlay.width >= 0 && overlay.height >= 0
    requires 0 <= c.boundingBox.left <= c.boundingBox.right <= EffectiveSize(f).width
    requires 0 <= c.boundingBox.top <= c.boundingBox.bottom <= EffectiveSize(f).height
    ensures var r := MapBounds(c, f, overlay).box;
            && 0.0 <= r.left <= r.right <= overlay.width as real
            && 0.0 <= r.top <= r.bottom <= overlay.height as real
  {
    var e := EffectiveSize(f);
    var m := Mirror(c.boundingBox, e.width, f.lens);
    MirrorKeepsBoxInFrame(c.boundingBox, e.width, f.lens);
    ScaledIntervalInRange(m.left, m.right, e.width, overlay.width);
    ScaledIntervalInRange(c.boundingBox.top, c.boundingBox.bottom, e.height, overlay.height);
  }

  /** Mapping a list of faces keeps their tracking identities, in order. */
  lemma MapAllKeepsIdentities(faces: seq<Candidate>, f: Frame, overlay: Size)
    requires Mappable(f)
    ensures forall i :: 0 <= i < |faces| ==> MapAll(faces, f, overlay)[i].trackingId == faces[i].trackingId
  {
  }

  // ---------------------------------------------------------------------
  // Worked examples

  /** Portrait sensor rotated 90 degrees, front lens, overlay equal to the
      effective space: the box is reflected about x = 1920. */
  lemma ExampleFrontQuarterTurn()
    ensures MapBounds(Candidate(Some(7), Rect(100, 200, 300, 400)),
                      Frame(true, Size(1080, 1920), 90, Front), Size(1920, 1080))
            == FaceBounds(Some(7), RectF(1620.0, 200.0, 1820.0, 400.0))
  {
  }

  /** The same with the back lens: unchanged. */
  lemma ExampleBackQuarterTurn()
    ensures MapBounds(Candidate(Some(7), Rect(100, 200, 300, 400)),
                      Frame(true, Size(1080, 1920), 90, Back), Size(1920, 1080))
            == FaceBounds(Some(7), RectF(100.0, 200.0, 300.0, 400.0))
  {
  }

  /** Unrotated 640x480 frame on a 1280x960 overlay: both axes double. */
  lemma ExampleDoubleScale()
    ensures MapBounds(Candidate(None, Rect(10, 10, 20, 20)),
                      Frame(true, Size(640, 480), 0, Back), Size(1280, 960))
            == FaceBounds(None, RectF(20.0, 20.0, 40.0, 40.0))
  {
  }
}
