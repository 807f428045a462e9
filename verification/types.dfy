/** The shared data contract: detections, their boxes and the view state. */
module Types {
  import opened Outcomes

  /** The `box_2d` tuple: `(ymin, xmin, ymax, xmax)` on the 0..1000 grid.
      The producer does not enforce the range or the ordering. */
  type Box2d = (int, int, int, int)

  /** The named-field form of a box, with the same field order as the tuple. */
  datatype BoundingBox = BoundingBox(ymin: int, xmin: int, ymax: int, xmax: int)

  /** One recognised object (`labelText` is the `label` field, whose name
      is a keyword here); `confidence` is meant to lie in [0, 1] but is
      not checked anywhere. */
  datatype Detection = Detection(labelText: string, confidence: real, box2d: Box2d)

  /** The single view-state record of the workbench. `image` and `error`
      are `null` when absent. */
  datatype AppState = AppState(
    image: Option<string>,
    detections: seq<Detection>,
    isLoading: bool,
    error: Option<string>)

  /** Names of the fields of a detection, in declaration order. */
  const DetectionFields: seq<string> := ["label", "confidence", "box_2d"]

  /** The side of the normalised coordinate grid. */
  const GridSize: int := 1000

  function YMin(b: Box2d): int { b.0 }
  function XMin(b: Box2d): int { b.1 }
  function YMax(b: Box2d): int { b.2 }
  function XMax(b: Box2d): int { b.3 }

  /** Reads the tuple into named fields, in tuple order: writing the
      fields back in declaration order gives the same tuple. */
  function ToBoundingBox(b: Box2d): (r: BoundingBox)
    ensures (r.ymin, r.xmin, r.ymax, r.xmax) == b
  {
    BoundingBox(b.0, b.1, b.2, b.3)
  }

  /** Writes named fields back into the tuple; reading that tuple gives the
      same record, so the two shapes carry the same information. */
  function ToBox2d(r: BoundingBox): (b: Box2d)
    ensures ToBoundingBox(b) == r
  {
    (r.ymin, r.xmin, r.ymax, r.xmax)
  }

  /** tuple -> record -> tuple is the identity. */
  lemma TupleRecordRoundTrip(b: Box2d)
    ensures ToBox2d(ToBoundingBox(b)) == b
  {
  }

  /** Every coordinate lies on the 0..1000 grid. */
  predicate InGrid(b: Box2d) {
    && 0 <= YMin(b) <= GridSize && 0 <= XMin(b) <= GridSize
    && 0 <= YMax(b) <= GridSize && 0 <= XMax(b) <= GridSize
  }

  /** A box on the grid whose minimum corner is not past its maximum. */
  predicate WellFormed(b: Box2d) {
    InGrid(b) && YMin(b) <= YMax(b) && XMin(b) <= XMax(b)
  }

  /** The state the workbench starts in and returns to on Clear. */
  const InitialState: AppState := AppState(None, [], false, None)
}
