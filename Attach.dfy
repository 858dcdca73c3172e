/**
 * Part::AttachExtension (src/Mod/Part/App/AttachExtension.cpp): attaches a
 * feature's placement to references on other objects through an attach
 * engine. The engine class is chosen by the `AttacherType` property, the
 * placement is computed by the engine (an oracle here), and whether the
 * attachment properties are shown or the placement is editable follows
 * from the outcome.
 *
 * The Base::Type registry becomes `engines`, the set of type names derived
 * from AttachEngine; `calculateAttachedPlacement` becomes a `Positioning`
 * outcome handed in by the caller.
 */
module Attach {
  import opened Wrappers

  /** The attachment modes whose distinctions this extension makes. */
  datatype MapMode =
    | Deactivated        // mmDeactivated
    | Translate          // mmTranslate
    | NormalToPath       // mmNormalToPath
    | FrenetNB           // mmFrenetNB
    | FrenetTN           // mmFrenetTN
    | FrenetTB           // mmFrenetTB
    | RevolutionSection  // mmRevolutionSection
    | Concentric         // mmConcentric
    | OtherMode(n: nat)  // every other eMapMode value

  /** Modes that place the object at a point of a curve. */
  predicate PointOnCurve(m: MapMode)
  {
    m.NormalToPath? || m.FrenetNB? || m.FrenetTN? || m.FrenetTB? || m.RevolutionSection? || m.Concentric?
  }

  /** A placement value; its geometry is not looked at here. */
  datatype Placement = Placement(base: seq<real>, rotation: seq<real>)

  /** One reference of the `Support` link list: an object and a sub-element name. */
  datatype SupportRef = SupportRef(obj: nat, sub: string)

  /** An attach engine: its class name and the values `updateAttacherVals` copied into it. */
  datatype Engine = Engine(typeName: string, mode: MapMode, refCount: nat)

  /** What `calculateAttachedPlacement` does on one call. */
  datatype Positioning = Placed(p: Placement) | Cancelled | Failed(msg: string)

  /** The properties `extensionOnChanged` tells apart. */
  datatype Prop =
    | SupportProp | MapModeProp | MapPathParameterProp | MapReversedProp | AttachmentOffsetProp
    | AttacherTypeProp | OtherProp

  predicate AttachmentProp(p: Prop)
  {
    p.SupportProp? || p.MapModeProp? || p.MapPathParameterProp? || p.MapReversedProp? || p.AttachmentOffsetProp?
  }

  const DefaultEngine := "Attacher::AttachEngine3D"
  const NoEngineMessage := "AttachExtension: can't positionBySupport, because no AttachEngine is set."
  const NotAnEngineMessage := "Object if this type is not derived from AttachEngine: "
  const PlacementTypeName := "App::PropertyPlacement"

  /** The type name the attacher reports, or "" without one. */
  function EngineName(e: Option<Engine>): string
  {
    if e.Some? then e.value.typeName else ""
  }

  /** What `changeAttacherType` decides to do. */
  datatype Change = NoChange | Clear | Install(name: string)

  /**
   * The decision of `changeAttacherType` (AttachExtension.cpp:75-98):
   * nothing when the name is the current attacher's type or when there is
   * no attacher and the name is empty; clearing for an empty name;
   * installing a registered engine type; an AttachEngineException for any
   * other name.
   */
  function ChangeDecision(current: Option<Engine>, typeName: string, engines: set<string>): (r: Result<Change>)
    ensures r == Ok(NoChange) <==>
              (current.Some? && current.value.typeName == typeName) || (current.None? && typeName == "")
    ensures r == Ok(Clear) <==> current.Some? && current.value.typeName != "" && typeName == ""
    ensures r.Ok? && r.value.Install? <==>
              EngineName(current) != typeName && typeName != "" && typeName in engines
    ensures r.Ok? && r.value.Install? ==> r.value.name == typeName
    ensures r.Err? <==> EngineName(current) != typeName && typeName != "" && typeName !in engines
    ensures r.Err? ==> r.msg == NotAnEngineMessage + typeName
  {
    if current.Some? && current.value.typeName == typeName then Ok(NoChange)
    else if current.None? && typeName == "" then Ok(NoChange)
    else if typeName == "" then Ok(Clear)
    else if typeName in engines then Ok(Install(typeName))
    else Err(NotAnEngineMessage + typeName)
  }

  /** The status bits the visibility rules write. */
  datatype Visibility = Visibility(pathParamHidden: bool, reversedHidden: bool, offsetHidden: bool, placementReadOnly: bool)

  /**
   * The visibility rules of `extensionOnChanged` and
   * `onExtendedDocumentRestored` (AttachExtension.cpp:162-177): from
   * whether positioning attached the object, the mode, and whether the
   * attacher holds exactly one reference.
   */
  function VisibilityFor(attached: bool, mode: MapMode, oneRef: bool): (r: Visibility)
    ensures !attached ==> r.pathParamHidden && r.reversedHidden && r.offsetHidden && !r.placementReadOnly
    ensures attached ==> !r.reversedHidden && !r.offsetHidden
    ensures attached ==> (r.pathParamHidden <==> !(PointOnCurve(mode) && oneRef))
    ensures attached ==> (r.placementReadOnly <==> !mode.Translate?)
  {
    Visibility(!attached || !(PointOnCurve(mode) && oneRef), !attached, !attached, attached && mode != Translate)
  }

  /**
   * MapPathParameter is shown only for an attached object in a
   * point-on-curve mode with one reference, and then MapReversed and
   * AttachmentOffset are shown too and the placement is read-only.
   */
  lemma PathParameterShownOnlyOnCurve(attached: bool, mode: MapMode, oneRef: bool)
    ensures var v := VisibilityFor(attached, mode, oneRef);
            !v.pathParamHidden <==> attached && PointOnCurve(mode) && oneRef
    ensures var v := VisibilityFor(attached, mode, oneRef);
            !v.pathParamHidden ==> !v.reversedHidden && !v.offsetHidden && v.placementReadOnly
  {
    var v := VisibilityFor(attached, mode, oneRef);
    if !v.pathParamHidden {
      assert attached && PointOnCurve(mode);
      assert !mode.Translate?;
    }
  }

  /**
   * `extHandleChangedPropertyName` (AttachExtension.cpp:189-196): a property
   * stored under the legacy name "superPlacement" with the placement
   * property's type is read into AttachmentOffset.
   */
  function RestoresOffset(typeName: string, propName: string): (r: bool)
    ensures r <==> typeName == PlacementTypeName && propName == "superPlacement"
  {
    typeName == PlacementTypeName && propName == "superPlacement"
  }

  class AttachExtension {
    var attacherType: string
    var attacher: Option<Engine>
    /** How often `AttacherType.setValue` was called by `setAttacher`. */
    var typeWrites: nat
    var support: seq<SupportRef>
    var mapMode: MapMode
    var mapReversed: bool
    var mapPathParameter: real
    var attachmentOffset: Placement
    /** The extended GeoFeature's Placement. */
    var placement: Placement
    var visibility: Visibility
    /** The extended object's `Error` status bit. */
    var errorStatus: bool

    /** The attacher and the AttacherType property name the same engine. */
    predicate InSync()
      reads this
    {
      attacherType == EngineName(attacher)
    }

    /** The engine of the given class, set up from the current properties. */
    function EngineFor(name: string): (r: Engine)
      reads this
      ensures r.typeName == name && r.mode == mapMode && r.refCount == |support|
    {
      Engine(name, mapMode, |support|)
    }

    /**
     * The constructor (AttachExtension.cpp:23-50): a 3D attach engine,
     * deactivated, no support, the three optional properties hidden.
     */
    constructor(placement: Placement)
      ensures attacherType == DefaultEngine && attacher == Some(Engine(DefaultEngine, Deactivated, 0))
      ensures InSync() && typeWrites == 0
      ensures support == [] && mapMode == Deactivated && !mapReversed && mapPathParameter == 0.0
      ensures visibility == Visibility(true, true, true, false)
      ensures this.placement == placement && !errorStatus
    {
      attacherType := DefaultEngine;
      support := [];
      mapMode := Deactivated;
      mapReversed := false;
      mapPathParameter := 0.0;
      attachmentOffset := Placement([0.0, 0.0, 0.0], [0.0, 0.0, 0.0, 1.0]);
      this.placement := placement;
      visibility := Visibility(true, true, true, false);
      errorStatus := false;
      typeWrites := 0;
      attacher := Some(Engine(DefaultEngine, Deactivated, 0));
    }

    /**
     * `setAttacher` (AttachExtension.cpp:58-73): installs the engine (set up
     * from the current properties) and writes AttacherType only when it
     * differs, so the onChanged call it triggers finds nothing to change.
     */
    method SetAttacher(name: Option<string>, ghost engines: set<string>)
      modifies this
      ensures attacher == (if name.Some? then Some(EngineFor(name.value)) else None)
      ensures InSync()
      ensures typeWrites == old(typeWrites) + (if old(attacherType) == EngineName(attacher) then 0 else 1)
      ensures ChangeDecision(attacher, attacherType, engines) == Ok(NoChange)
      ensures support == old(support) && mapMode == old(mapMode) && placement == old(placement)
      ensures visibility == old(visibility) && errorStatus == old(errorStatus)
      ensures attachmentOffset == old(attachmentOffset)
    {
      if name.Some? {
        attacher := Some(Engine(name.value, mapMode, |support|));
        if attacherType != name.value {
          attacherType := name.value;
          typeWrites := typeWrites + 1;
        }
      } else {
        attacher := None;
        if |attacherType| != 0 {
          attacherType := "";
          typeWrites := typeWrites + 1;
        }
      }
    }

    /**
     * `changeAttacherType` (AttachExtension.cpp:75-99): true when the
     * attacher was replaced or cleared, false when nothing needed to
     * change, an error for a name that is no engine type.
     */
    method ChangeAttacherType(typeName: string, engines: set<string>) returns (r: Result<bool>)
      modifies this
      ensures var c := ChangeDecision(old(attacher), typeName, engines);
              match c
              case Err(m) => r == Err(m) && attacher == old(attacher) && attacherType == old(attacherType)
              case Ok(NoChange) => r == Ok(false) && attacher == old(attacher) && attacherType == old(attacherType)
              case Ok(Clear) => r == Ok(true) && attacher.None? && attacherType == ""
              case Ok(Install(n)) => r == Ok(true) && attacher == Some(EngineFor(n)) && attacherType == n
      ensures r == Ok(true) ==> InSync()
      ensures support == old(support) && mapMode == old(mapMode) && placement == old(placement)
      ensures visibility == old(visibility) && errorStatus == old(errorStatus)
    {
      if attacher.Some? {
        if attacher.value.typeName == typeName {
          return Ok(false);
        }
      } else if |typeName| == 0 {
        return Ok(false);
      }
      if |typeName| == 0 {
        SetAttacher(None, engines);
        return Ok(true);
      }
      if typeName in engines {
        SetAttacher(Some(typeName), engines);
        return Ok(true);
      }
      return Err(NotAnEngineMessage + typeName);
    }

    /**
     * `positionBySupport` (AttachExtension.cpp:101-115): an error without an
     * attacher; otherwise the engine is set up from the properties, and the
     * result is false in deactivated mode or when the engine cancels, an
     * error when it fails, and true once the placement is written.
     */
    method PositionBySupport(outcome: Positioning) returns (r: Result<bool>)
      modifies this
      ensures old(attacher).None? ==> r == Err(NoEngineMessage) && attacher == old(attacher)
      ensures old(attacher).Some? ==> attacher == Some(EngineFor(old(attacher).value.typeName))
      ensures r == Ok(true) <==> old(attacher).Some? && !mapMode.Deactivated? && outcome.Placed?
      ensures r == Ok(true) ==> placement == outcome.p
      ensures r != Ok(true) ==> placement == old(placement)
      ensures r.Err? <==> old(attacher).None? || (!mapMode.Deactivated? && outcome.Failed?)
      ensures attacherType == old(attacherType) && support == old(support) && mapMode == old(mapMode)
      ensures visibility == old(visibility) && errorStatus == old(errorStatus)
    {
      if attacher.None? {
        return Err(NoEngineMessage);
      }
      attacher := Some(Engine(attacher.value.typeName, mapMode, |support|));
      if mapMode == Deactivated {
        return Ok(false);
      }
      match outcome
      case Placed(p) =>
        placement := p;
        r := Ok(true);
      case Cancelled =>
        r := Ok(false);
      case Failed(m) =>
        r := Err(m);
    }

    /** Writes the visibility bits for the outcome of positioning. */
    method UpdateVisibility(attached: bool)
      modifies this
      ensures visibility == VisibilityFor(attached, mapMode, attacher.Some? && attacher.value.refCount == 1)
      ensures attacher == old(attacher) && attacherType == old(attacherType) && placement == old(placement)
      ensures support == old(support) && mapMode == old(mapMode) && errorStatus == old(errorStatus)
    {
      var hasOneRef := false;
      if attacher.Some? && attacher.value.refCount == 1 {
        hasOneRef := true;
      }
      var modeIsPointOnCurve := mapMode == NormalToPath || mapMode == FrenetNB || mapMode == FrenetTN ||
        mapMode == FrenetTB || mapMode == RevolutionSection || mapMode == Concentric;
      visibility := Visibility(!attached || !(modeIsPointOnCurve && hasOneRef), !attached, !attached,
                               attached && mapMode != Translate);
    }

    /**
     * `extensionOnChanged` (AttachExtension.cpp:139-187). For one of the five
     * attachment properties, outside a restore, positioning runs; its
     * failure sets the Error status instead of escaping, and the visibility
     * bits follow the outcome. A change of AttacherType switches the engine,
     * whose error is the only one that escapes.
     */
    method OnChanged(prop: Prop, restoring: bool, outcome: Positioning, engines: set<string>) returns (r: Result<bool>)
      modifies this
      ensures !(!restoring && AttachmentProp(prop)) ==>
                visibility == old(visibility) && errorStatus == old(errorStatus) && placement == old(placement)
      ensures !restoring && AttachmentProp(prop) ==>
                errorStatus == (old(errorStatus) || old(attacher).None? || (!mapMode.Deactivated? && outcome.Failed?))
      ensures !restoring && AttachmentProp(prop) ==>
                var attached := old(attacher).Some? && !mapMode.Deactivated? && outcome.Placed?;
                visibility == VisibilityFor(attached, mapMode, old(attacher).Some? && |support| == 1)
      ensures !restoring && AttachmentProp(prop) ==>
                placement == (if old(attacher).Some? && !mapMode.Deactivated? && outcome.Placed? then outcome.p
                              else old(placement)) &&
                attacher == (if old(attacher).Some? then Some(EngineFor(old(attacher).value.typeName)) else None)
      ensures !prop.AttacherTypeProp? ==> r == Ok(false) && attacherType == old(attacherType)
      ensures !prop.AttacherTypeProp? && !(!restoring && AttachmentProp(prop)) ==> attacher == old(attacher)
      ensures prop.AttacherTypeProp? ==>
                match ChangeDecision(old(attacher), old(attacherType), engines)
                case Err(m) => r == Err(m) && attacher == old(attacher) && attacherType == old(attacherType)
                case Ok(NoChange) => r == Ok(false) && attacher == old(attacher) && attacherType == old(attacherType)
                case Ok(Clear) => r == Ok(true) && attacher.None? && attacherType == ""
                case Ok(Install(n)) => r == Ok(true) && attacher == Some(EngineFor(n)) && attacherType == n
      ensures r.Err? ==> prop.AttacherTypeProp?
      ensures prop.AttacherTypeProp? && r.Ok? ==> InSync()
      ensures support == old(support) && mapMode == old(mapMode)
    {
      if !restoring && AttachmentProp(prop) {
        var attached := false;
        var pos := PositionBySupport(outcome);
        if pos.Err? {
          errorStatus := true;
        } else {
          attached := pos.value;
        }
        UpdateVisibility(attached);
      }
      r := Ok(false);
      if prop == AttacherTypeProp {
        r := ChangeAttacherType(attacherType, engines);
      }
    }

    /**
     * `onExtendedDocumentRestored` (AttachExtension.cpp:198-228): positions
     * and updates the visibility bits like `extensionOnChanged`, except that
     * a positioning failure is swallowed and leaves every bit as it was.
     */
    method DocumentRestored(outcome: Positioning)
      modifies this
      ensures var failed := old(attacher).None? || (!mapMode.Deactivated? && outcome.Failed?);
              var attached := old(attacher).Some? && !mapMode.Deactivated? && outcome.Placed?;
              visibility == (if failed then old(visibility)
                             else VisibilityFor(attached, mapMode, |support| == 1))
      ensures placement == (if old(attacher).Some? && !mapMode.Deactivated? && outcome.Placed? then outcome.p
                            else old(placement))
      ensures attacher == (if old(attacher).Some? then Some(EngineFor(old(attacher).value.typeName)) else None)
      ensures errorStatus == old(errorStatus) && support == old(support) && mapMode == old(mapMode)
      ensures attacherType == old(attacherType)
    {
      var pos := PositionBySupport(outcome);
      if pos.Ok? {
        UpdateVisibility(pos.value);
      }
    }

    /**
     * `extensionExecute` (AttachExtension.cpp:122-137): repositions when the
     * mapping properties are touched; a positioning failure escapes as an
     * error, otherwise the base extension's result is returned.
     */
    method Execute(mappingTouched: bool, outcome: Positioning, base: ExecReturn) returns (r: Result<ExecReturn>)
      modifies this
      ensures !mappingTouched ==> r == Ok(base) && placement == old(placement)
      ensures mappingTouched ==> (r.Err? <==> old(attacher).None? || (!mapMode.Deactivated? && outcome.Failed?))
      ensures mappingTouched ==>
                placement == (if old(attacher).Some? && !mapMode.Deactivated? && outcome.Placed? then outcome.p
                              else old(placement)) &&
                attacher == (if old(attacher).Some? then Some(EngineFor(old(attacher).value.typeName)) else None)
      ensures !mappingTouched ==> attacher == old(attacher)
      ensures r.Ok? ==> r.value == base
      ensures visibility == old(visibility) && errorStatus == old(errorStatus)
      ensures attacherType == old(attacherType) && support == old(support) && mapMode == old(mapMode)
    {
      if mappingTouched {
        var pos := PositionBySupport(outcome);
        if pos.Err? {
          return Err(pos.msg);
        }
      }
      r := Ok(base);
    }

    /**
     * `extHandleChangedPropertyName` (AttachExtension.cpp:189-196): reads
     * the stored value into AttachmentOffset only for the legacy name.
     */
    method HandleChangedPropertyName(stored: Placement, typeName: string, propName: string)
      modifies this
      ensures attachmentOffset == (if RestoresOffset(typeName, propName) then stored else old(attachmentOffset))
      ensures placement == old(placement) && attacher == old(attacher) && attacherType == old(attacherType)
    {
      if typeName == PlacementTypeName && propName == "superPlacement" {
        attachmentOffset := stored;
      }
    }
  }
}
