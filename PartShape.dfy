/**
 * The part of an OpenCASCADE `TopoDS_Shape` that the Part features look
 * at: whether it is null and its top-level type. The geometry itself and
 * the kernel algorithms are not part of this model.
 */
module PartShape {

  /** `TopAbs_ShapeEnum`, reduced to the values the features test. */
  datatype ShapeType = SolidType | CompoundType | OtherType

  /** A shape: null, or one identified by `id` with a top-level type. */
  datatype Shape = NullShape | Shape(id: nat, kind: ShapeType)

  /**
   * A linked document object as a Part feature sees it: whether it is a
   * `Part::Feature`, its label, and the shape it holds.
   */
  datatype Linked = Linked(isPartFeature: bool, labelText: string, shape: Shape)
}
