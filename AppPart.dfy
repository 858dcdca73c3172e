/**
 * App::Part::getPartOfObject (src/App/Part.cpp:51-62): the Part that holds
 * an object is found among the objects that link to it directly.
 */
module AppPart {
  import opened Wrappers
  import opened DocModel

  predicate IsPart(d: Doc, id: ObjId)
  {
    id in d && d[id].kind.PartKind?
  }

  /** The position of the first Part in `list`, if any. */
  function FirstPartAt(d: Doc, list: seq<ObjId>): (r: Option<nat>)
    ensures r.Some? ==> r.value < |list| && IsPart(d, list[r.value])
    ensures r.Some? ==> forall k :: 0 <= k < r.value ==> !IsPart(d, list[k])
    ensures r.None? <==> forall k :: 0 <= k < |list| ==> !IsPart(d, list[k])
  {
    if list == [] then None
    else if IsPart(d, list[0]) then Some(0)
    else match FirstPartAt(d, list[1..]) {
      case None => None
      case Some(i) => Some(i + 1)
    }
  }

  /**
   * `getPartOfObject`: the first Part of the object's InList, or null. A
   * result is a Part that links to the object directly, and there is none
   * exactly when no object linking to it directly is a Part.
   */
  function GetPartOfObject(d: Doc, obj: ObjId): (r: Option<ObjId>)
    requires obj in d
    ensures r.Some? ==> IsPart(d, r.value) && r.value in d[obj].inList
    ensures r.None? <==> forall k :: 0 <= k < |d[obj].inList| ==> !IsPart(d, d[obj].inList[k])
  {
    match FirstPartAt(d, d[obj].inList) {
      case None => None
      case Some(i) => Some(d[obj].inList[i])
    }
  }

  /**
   * The result is a Part that links directly to the object, no earlier
   * InList entry is a Part, and the result is null exactly when no InList
   * entry is a Part; nothing beyond the direct InList is searched.
   */
  lemma PartOfObjectIsFirstInList(d: Doc, obj: ObjId)
    requires obj in d
    ensures var list := d[obj].inList;
            var r := GetPartOfObject(d, obj);
            (r.Some? ==>
               IsPart(d, r.value) &&
               exists i :: 0 <= i < |list| && list[i] == r.value && forall k :: 0 <= k < i ==> !IsPart(d, list[k])) &&
            (r.None? <==> forall k :: 0 <= k < |list| ==> !IsPart(d, list[k]))
  {
    var list := d[obj].inList;
    var at := FirstPartAt(d, list);
    if at.Some? {
      var i := at.value;
      assert list[i] == GetPartOfObject(d, obj).value;
    }
  }
}
