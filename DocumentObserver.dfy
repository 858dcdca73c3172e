/**
 * src/App/DocumentObserver.cpp: `DocumentT` and `DocumentObjectT` keep a
 * document or an object by name and render the Python expression that
 * reaches it; `DocumentObserver` follows one document's signals;
 * `DocumentObjectObserver` keeps a set of observed objects of that
 * document and cancels the observation once nothing is left to observe.
 *
 * The application is seen through the name of its active document; a
 * document or object pointer becomes an id. The boost signal connections
 * are counted, not modelled.
 */
module DocumentObserver {
  import opened Wrappers

  type DocId = nat
  type ObjId = nat

  const ActivePrefix := "App.ActiveDocument"
  const GetPrefix := "App.getDocument(\""
  const GetSuffix := "\")"

  /**
   * `getDocumentPython` (DocumentObserver.cpp:66-79, 124-137): the active
   * document is reached as `App.ActiveDocument`, any other by name.
   */
  function DocumentPython(document: string, active: Option<string>): (r: string)
    ensures active == Some(document) ==> r == ActivePrefix
    ensures active != Some(document) ==> r == GetPrefix + document + GetSuffix
  {
    if active.Some? && document == active.value then ActivePrefix
    else GetPrefix + document + GetSuffix
  }

  /** `getObjectPython` (DocumentObserver.cpp:159-174): the document part, a dot, the object name. */
  function ObjectPython(document: string, objName: string, active: Option<string>): (r: string)
    ensures |r| > |objName| && r[|r| - |objName|..] == objName && r[|r| - |objName| - 1] == '.'
  {
    var prefix := if active.Some? && document == active.value then ActivePrefix + "."
                  else GetPrefix + document + GetSuffix + ".";
    prefix + objName
  }

  /**
   * The object expression extends the document expression by "." and the
   * object's name, whether or not its document is the active one.
   */
  lemma ObjectPythonExtendsDocumentPython(document: string, objName: string, active: Option<string>)
    ensures ObjectPython(document, objName, active) == DocumentPython(document, active) + "." + objName
  {
    if active.Some? && document == active.value {
      assert ObjectPython(document, objName, active) == ActivePrefix + "." + objName;
    } else {
      assert ObjectPython(document, objName, active) == GetPrefix + document + GetSuffix + "." + objName;
    }
  }

  /**
   * Distinct documents that are not active render distinctly: the name is
   * recovered from between the quotes.
   */
  lemma DocumentPythonNamesDocument(document: string, active: Option<string>)
    ensures var r := DocumentPython(document, active);
            active != Some(document) ==>
              |r| == |GetPrefix| + |document| + |GetSuffix| &&
              r[|GetPrefix|..|GetPrefix| + |document|] == document
  {
    if active != Some(document) {
      var r := DocumentPython(document, active);
      assert r == GetPrefix + document + GetSuffix;
      assert r[|GetPrefix|..|GetPrefix| + |document|] == document;
    }
  }

  /** A document by name (DocumentObserver.cpp:25-79). */
  class DocumentT {
    var document: string

    constructor(name: string)
      ensures document == name
    {
      document := name;
    }

    /**
     * Assignment from another holder (DocumentObserver.cpp:39-44): a
     * self-assignment returns at once; otherwise the name is copied.
     */
    method Assign(other: DocumentT)
      modifies this
      ensures document == old(other.document)
      ensures other == this ==> document == old(document)
    {
      if this == other {
        return;
      }
      document := other.document;
    }

    /** `getDocumentPython` of the held name. */
    function Python(active: Option<string>): (r: string)
      reads this
      ensures active != Some(document) ==>
                |r| >= |GetPrefix| + |document| && r[|GetPrefix|..|GetPrefix| + |document|] == document
    {
      DocumentPythonNamesDocument(document, active);
      DocumentPython(document, active)
    }
  }

  /** The names an object reports: its name in the document, its label, its document's name. */
  datatype ObjectNames = ObjectNames(nameInDocument: string, labelText: string, documentName: string)

  /** A document object by name (DocumentObserver.cpp:83-174). */
  class DocumentObjectT {
    var objName: string
    var labelText: string
    var document: string

    constructor()
      ensures objName == "" && labelText == "" && document == ""
    {
      objName := "";
      labelText := "";
      document := "";
    }

    /** Assignment from an object (DocumentObserver.cpp:107-112): all three names are taken. */
    method AssignObject(obj: ObjectNames)
      modifies this
      ensures objName == obj.nameInDocument && labelText == obj.labelText && document == obj.documentName
    {
      objName := obj.nameInDocument;
      labelText := obj.labelText;
      document := obj.documentName;
    }

    /**
     * Assignment from another holder (DocumentObserver.cpp:98-105): a
     * self-assignment returns at once; otherwise all three names are copied.
     */
    method Assign(other: DocumentObjectT)
      modifies this
      ensures objName == old(other.objName) && labelText == old(other.labelText) && document == old(other.document)
      ensures other == this ==> objName == old(objName) && labelText == old(labelText) && document == old(document)
    {
      if this == other {
        return;
      }
      objName := other.objName;
      labelText := other.labelText;
      document := other.document;
    }

    /** `getObjectPython` of the held names. */
    function Python(active: Option<string>): (r: string)
      reads this
      ensures r == DocumentPython(document, active) + "." + objName
    {
      ObjectPythonExtendsDocumentPython(document, objName, active);
      ObjectPython(document, objName, active)
    }
  }

  /**
   * `DocumentObserver` (DocumentObserver.cpp:178-238): at most one attached
   * document; `disconnects` counts the times the five document signal
   * connections were dropped.
   */
  class Observer {
    var document: Option<DocId>
    var disconnects: nat

    constructor(doc: Option<DocId>)
      ensures document == doc && disconnects == 0
    {
      document := doc;
      disconnects := 0;
    }

    /**
     * `attachDocument` (DocumentObserver.cpp:209-226): nothing for the
     * document already attached; otherwise the current one is detached
     * first and the new one connected.
     */
    method AttachDocument(doc: DocId)
      modifies this
      ensures document == Some(doc)
      ensures old(document) == Some(doc) ==> disconnects == old(disconnects)
      ensures old(document) != Some(doc) ==> disconnects == old(disconnects) + (if old(document).Some? then 1 else 0)
    {
      if document != Some(doc) {
        DetachDocument();
        document := Some(doc);
      }
    }

    /** `detachDocument` (DocumentObserver.cpp:228-238): a no-op when nothing is attached. */
    method DetachDocument()
      modifies this
      ensures document.None?
      ensures disconnects == old(disconnects) + (if old(document).Some? then 1 else 0)
    {
      if document.Some? {
        document := None;
        disconnects := disconnects + 1;
      }
    }
  }

  /** The observed set after the deletion of `obj` (DocumentObserver.cpp:316-321). */
  function AfterDeletion(objects: set<ObjId>, obj: ObjId): (r: set<ObjId>)
    ensures obj !in r && r <= objects
    ensures forall o :: o in objects && o != obj ==> o in r
  {
    objects - {obj}
  }

  /**
   * Deleting an object that is not observed leaves the set alone, and the
   * set is left empty exactly when it held nothing but that object.
   */
  lemma DeletionEmptiesOnlyLast(objects: set<ObjId>, obj: ObjId)
    ensures obj !in objects ==> AfterDeletion(objects, obj) == objects
    ensures AfterDeletion(objects, obj) == {} <==> objects <= {obj}
  {
    var r := AfterDeletion(objects, obj);
    if r == {} {
      forall o | o in objects ensures o == obj {
        assert o != obj ==> o in r;
      }
    }
  }

  /**
   * `DocumentObjectObserver` (DocumentObserver.cpp:271-333): the observed
   * objects of the attached document; `cancels` counts the calls of
   * `cancelObservation`.
   */
  class ObjectObserver {
    const base: Observer
    var objects: set<ObjId>
    var cancels: nat

    constructor()
      ensures fresh(base) && base.document.None? && objects == {} && cancels == 0
    {
      base := new Observer(None);
      objects := {};
      cancels := 0;
    }

    /** `addToObservation` (DocumentObserver.cpp:289-292): set insertion. */
    method AddToObservation(obj: ObjId)
      modifies this
      ensures objects == old(objects) + {obj} && cancels == old(cancels)
    {
      objects := objects + {obj};
    }

    /** `removeFromObservation` (DocumentObserver.cpp:294-297): set erasure, no cancel. */
    method RemoveFromObservation(obj: ObjId)
      modifies this
      ensures objects == old(objects) - {obj} && cancels == old(cancels)
    {
      objects := objects - {obj};
    }

    /**
     * `slotDeletedDocument` (DocumentObserver.cpp:303-310): deleting the
     * observed document detaches, clears the set and cancels; any other
     * document changes nothing.
     */
    method DeletedDocument(doc: DocId)
      modifies this, base
      ensures old(base.document) == Some(doc) ==>
                base.document.None? && base.disconnects == old(base.disconnects) + 1 &&
                objects == {} && cancels == old(cancels) + 1
      ensures old(base.document) != Some(doc) ==>
                base.document == old(base.document) && base.disconnects == old(base.disconnects) &&
                objects == old(objects) && cancels == old(cancels)
    {
      if base.document == Some(doc) {
        base.DetachDocument();
        objects := {};
        cancels := cancels + 1;
      }
    }

    /**
     * `slotDeletedObject` (DocumentObserver.cpp:316-324): the object leaves
     * the set if it was in it, and the observation is cancelled whenever
     * the set is then empty, whether or not the object was observed.
     */
    method DeletedObject(obj: ObjId)
      modifies this
      ensures objects == AfterDeletion(old(objects), obj)
      ensures cancels == old(cancels) + (if objects == {} then 1 else 0)
    {
      if obj in objects {
        objects := objects - {obj};
      }
      if objects == {} {
        cancels := cancels + 1;
      }
    }
  }
}
