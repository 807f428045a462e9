/** The bounding-box overlay: each detection's box on the 0..1000 grid is
    projected onto the displayed image's pixel size and drawn as a coloured
    frame with a "label (NN%)" badge. Pixel values are exact reals. */
module Overlay {
  import opened Types
  import JsMath

  /** A frame's pixel placement relative to the displayed image. */
  datatype Rect = Rect(top: real, left: real, width: real, height: real)

  /** One drawn frame: where it goes, its border colour and its badge text. */
  datatype Frame = Frame(rect: Rect, color: string, badge: string)

  /** The six border colours, cycled by detection index. */
  const Palette: seq<string> := ["#38bdf8", "#4ade80", "#fb923c", "#f472b6", "#a78bfa", "#facc15"]

  /** `(v / 1000) * size`, the grid-to-pixel conversion of one coordinate or
      extent. */
  function Scale(v: int, size: nat): real {
    (v as real / 1000.0) * size as real
  }

  /** Projects a box onto a `width` x `height` container. There is no error
      case and no guard on a zero-sized container or an inverted box. */
  function Project(b: Box2d, width: nat, height: nat): (r: Rect)
    ensures r.top == (YMin(b) * height) as real / 1000.0
    ensures r.left == (XMin(b) * width) as real / 1000.0
    ensures r.width == ((XMax(b) - XMin(b)) * width) as real / 1000.0
    ensures r.height == ((YMax(b) - YMin(b)) * height) as real / 1000.0
    ensures r.left + r.width == (XMax(b) * width) as real / 1000.0
    ensures r.top + r.height == (YMax(b) * height) as real / 1000.0
  {
    var (ymin, xmin, ymax, xmax) := b;
    Rect(Scale(ymin, height), Scale(xmin, width), Scale(xmax - xmin, width), Scale(ymax - ymin, height))
  }

  /** The box covering the whole grid covers the whole container. */
  lemma FullBoxFillsContainer(width: nat, height: nat)
    ensures Project((0, 0, 1000, 1000), width, height) == Rect(0.0, 0.0, width as real, height as real)
  {
  }

  /** The lower-right quarter of a 200 x 200 container. */
  lemma QuarterBoxExample()
    ensures Project((500, 500, 1000, 1000), 200, 200) == Rect(100.0, 100.0, 100.0, 100.0)
  {
  }

  /** A well-formed box projects inside the container on both axes. */
  lemma WellFormedStaysInside(b: Box2d, width: nat, height: nat)
    requires WellFormed(b)
    ensures var r := Project(b, width, height);
      && 0.0 <= r.top && 0.0 <= r.height && r.top + r.height <= height as real
      && 0.0 <= r.left && 0.0 <= r.width && r.left + r.width <= width as real
  {
  }

  /** An inverted box gives a negative extent on the inverted axis (and a
      zero-area box a zero extent); nothing is clamped. */
  lemma InvertedBoxNegativeExtent(b: Box2d, width: nat, height: nat)
    ensures var r := Project(b, width, height);
      && (r.height < 0.0 <==> height > 0 && YMax(b) < YMin(b))
      && (r.width < 0.0 <==> width > 0 && XMax(b) < XMin(b))
      && (YMax(b) == YMin(b) ==> r.height == 0.0)
      && (XMax(b) == XMin(b) ==> r.width == 0.0)
  {
  }

  /** A zero-sized container collapses every frame to the origin: the
      conversion multiplies by the size and never divides by it. */
  lemma ZeroContainerCollapses(b: Box2d)
    ensures Project(b, 0, 0) == Rect(0.0, 0.0, 0.0, 0.0)
  {
  }

  /** On a container of positive size the box can be read back from its
      frame, so distinct boxes give distinct frames. */
  lemma ProjectInjective(b: Box2d, c: Box2d, width: nat, height: nat)
    requires width > 0 && height > 0
    requires Project(b, width, height) == Project(c, width, height)
    ensures b == c
  {
    // each field equation gives `u * size == v * size` on integers
    CancelPositive(YMin(b), YMin(c), height);
    CancelPositive(XMin(b), XMin(c), width);
    CancelPositive(XMax(b) - XMin(b), XMax(c) - XMin(c), width);
    CancelPositive(YMax(b) - YMin(b), YMax(c) - YMin(c), height);
  }

  /** On a positive size, scaling is one-to-one. */
  lemma CancelPositive(u: int, v: int, size: nat)
    requires size > 0
    ensures (u * size) as real / 1000.0 == (v * size) as real / 1000.0 <==> u == v
  {
    if u < v {
      assert u * size < v * size;
    } else if u > v {
      assert u * size > v * size;
    }
  }

  /** The border colour of the detection at `index`. */
  function ColorAt(index: nat): (c: string)
    ensures c in Palette
  {
    Palette[index % |Palette|]
  }

  /** Colours repeat with period six. */
  lemma ColorPeriodic(index: nat)
    ensures ColorAt(index + 6) == ColorAt(index)
  {
  }

  /** Two detections share a colour exactly when their indices agree
      modulo six: the palette entries are all different. */
  lemma SameColorIffSameResidue(i: nat, j: nat)
    ensures ColorAt(i) == ColorAt(j) <==> i % 6 == j % 6
  {
  }

  /** The badge text `label (NN%)`. */
  function Badge(d: Detection): (t: string)
    ensures |t| > |d.labelText| + 3
    ensures t[..|d.labelText|] == d.labelText
    ensures t[|d.labelText|..|d.labelText| + 2] == " ("
    ensures t[|t| - 2..] == "%)"
    ensures var shown := t[|d.labelText| + 2..|t| - 2];
      shown == JsMath.IntToDecimal(JsMath.Percent(d.confidence))
  {
    d.labelText + " (" + JsMath.IntToDecimal(JsMath.Percent(d.confidence)) + "%)"
  }

  /** The number in the badge reads back as the shown percentage, whatever
      the score; for a score in [0, 1] it lies in 0..100. */
  lemma BadgeShowsPercent(d: Detection)
    ensures var t := Badge(d);
      var p := JsMath.ParseInt(t[|d.labelText| + 2..|t| - 2]);
      && p == JsMath.Percent(d.confidence)
      && (0.0 <= d.confidence <= 1.0 ==> 0 <= p <= 100)
  {
    JsMath.IntDecimalRoundTrip(JsMath.Percent(d.confidence));
  }

  /** The frame drawn for the detection at `index`. */
  function FrameOf(d: Detection, index: nat, width: nat, height: nat): Frame {
    Frame(Project(d.box2d, width, height), ColorAt(index), Badge(d))
  }

  /** Draws every detection, one frame each, in input order. */
  function Render(detections: seq<Detection>, width: nat, height: nat): (frames: seq<Frame>)
    ensures |frames| == |detections|
    ensures forall i :: 0 <= i < |frames| ==>
      && frames[i].rect == Project(detections[i].box2d, width, height)
      && frames[i].color == Palette[i % 6]
      && frames[i].badge == Badge(detections[i])
  {
    var frames := seq(|detections|, i requires 0 <= i < |detections| => FrameOf(detections[i], i, width, height));
    assert forall i :: 0 <= i < |frames| ==> frames[i] == FrameOf(detections[i], i, width, height);
    frames
  }

  /** Rendering a prefix of the detections draws a prefix of the frames:
      each frame depends only on its own detection and index. */
  lemma RenderPrefix(detections: seq<Detection>, k: nat, width: nat, height: nat)
    requires k <= |detections|
    ensures Render(detections[..k], width, height) == Render(detections, width, height)[..k]
  {
  }
}
