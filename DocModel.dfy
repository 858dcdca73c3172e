/**
 * The slice of a FreeCAD document that the App and Part hooks look at:
 * objects by identity, their class, their InList (the objects that link to
 * them, in document order) and, for an `App::Origin`, its features by role.
 * App::Document and App::DocumentObject themselves are not part of this
 * model; an object pointer becomes an `ObjId` key of the document map.
 */
module DocModel {
  import opened Wrappers

  type ObjId = nat

  /** The classes the hooks test with `isDerivedFrom`. */
  datatype Kind =
    | OriginKind                     // App::Origin
    | OriginFeatureKind(role: string) // App::OriginFeature (an axis or plane) and its Role
    | PartKind                       // App::Part
    | PartFeatureKind                // Part::Feature
    | PlainKind                      // any other DocumentObject

  /**
   * A document object. `originGroup` says whether it carries an
   * OriginGroupExtension; `features` is an Origin's role-to-feature table
   * (empty for every other object).
   */
  datatype DocObject = DocObject(
    name: string,
    labelText: string,
    typeName: string,
    kind: Kind,
    originGroup: bool,
    inList: seq<ObjId>,
    features: map<string, ObjId>)

  type Doc = map<ObjId, DocObject>

  /** Every InList entry of every object is an object of the document. */
  predicate InListsClosed(d: Doc)
  {
    forall id, k :: id in d && 0 <= k < |d[id].inList| ==> d[id].inList[k] in d
  }

  predicate IsOriginFeature(d: Doc, id: ObjId)
  {
    id in d && d[id].kind.OriginFeatureKind?
  }

  predicate IsOrigin(d: Doc, id: ObjId)
  {
    id in d && d[id].kind.OriginKind?
  }
}
