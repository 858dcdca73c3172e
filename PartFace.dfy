/**
 * Part::Face (src/Mod/Part/App/FeatureFace.cpp): makes a face from the
 * shapes of the objects linked in `Sources`, through the face maker class
 * named by `FaceMakerClass`.
 *
 * FaceMaker.cpp is not part of this model: the face maker is seen through
 * the inputs it is fed, and what `ConstructFromType` and `Build` produce is
 * a parameter. Neither call is guarded, so a throw in either escapes
 * `execute` as an error.
 */
module PartFace {
  import opened Wrappers
  import opened PartShape

  const LegacyMaker := "Part::FaceMakerCheese"
  const NewObjectMaker := "Part::FaceMakerBullseye"
  const NoShapesMessage := "No shapes linked"
  const NotPartMessage := "Linked object is not a Part object (has no Shape)."
  const EmptyShapeMessage := "Linked shape object is empty"
  const NullFaceMessage := "Creating face failed (null shape result)"

  /**
   * `mustExecute` (FeatureFace.cpp:43-50): 1 when FaceMakerClass or Sources
   * is touched, otherwise the Part::Feature answer.
   */
  function MustExecute(makerTouched: bool, sourcesTouched: bool, featureMustExecute: int): (r: int)
    ensures makerTouched || sourcesTouched ==> r == 1
    ensures !makerTouched && !sourcesTouched ==> r == featureMustExecute
  {
    if makerTouched then 1
    else if sourcesTouched then 1
    else featureMustExecute
  }

  /** What the face maker is given: one compound whole, or a shape added to its list. */
  datatype MakerInput = UseCompound(compound: Shape) | AddShape(shape: Shape)

  /** A usable source: set, a Part feature, with a non-null shape. */
  predicate UsableSource(l: Option<Linked>)
  {
    l.Some? && l.value.isPartFeature && l.value.shape != NullShape
  }

  /** The error the first unusable source causes. */
  function SourceError(l: Option<Linked>): string
    requires !UsableSource(l)
  {
    if l.None? || !l.value.isPartFeature then NotPartMessage else EmptyShapeMessage
  }

  /** How one usable source is fed to the maker, given the number of sources. */
  function InputFor(l: Linked, count: nat): MakerInput
  {
    if count == 1 && l.shape.Shape? && l.shape.kind == CompoundType then UseCompound(l.shape) else AddShape(l.shape)
  }

  /**
   * The loop of `execute` (FeatureFace.cpp:66-87) over `links`: the maker
   * inputs when every source is usable, else the first unusable source's
   * error.
   */
  function MakerInputs(links: seq<Option<Linked>>, count: nat): (r: Result<seq<MakerInput>>)
    ensures r.Ok? <==> forall k :: 0 <= k < |links| ==> UsableSource(links[k])
    ensures r.Ok? ==> |r.value| == |links| &&
                      forall k :: 0 <= k < |links| ==> r.value[k] == InputFor(links[k].value, count)
  {
    if links == [] then Ok([])
    else if !UsableSource(links[0]) then Err(SourceError(links[0]))
    else match MakerInputs(links[1..], count)
      case Err(m) =>
        assert forall k :: 1 <= k < |links| ==> links[k] == links[1..][k - 1];
        Err(m)
      case Ok(rest) =>
        assert forall k :: 1 <= k < |links| ==> links[k] == links[1..][k - 1];
        Ok([InputFor(links[0].value, count)] + rest)
  }

  /**
   * A compound is handed over whole only when it is the only source;
   * with several sources every shape is added, so the maker sees exactly
   * the sources' shapes in order.
   */
  lemma {:induction false} SeveralSourcesAreAdded(links: seq<Option<Linked>>, count: nat)
    requires count != 1
    requires MakerInputs(links, count).Ok?
    ensures forall k :: 0 <= k < |links| ==> MakerInputs(links, count).value[k] == AddShape(links[k].value.shape)
  {
  }

  /** What `facemaker->Build()` (FeatureFace.cpp:89) did: the shape it made, or a throw. */
  datatype Build = Built(shape: Shape) | BuildThrows(message: string)

  /** What `execute` hands back and the face it writes, if it writes one. */
  datatype Outcome = Outcome(ret: Result<ExecReturn>, written: Option<Shape>)

  /**
   * `execute` (FeatureFace.cpp:58-97) on the sources, the maker class
   * check of `ConstructFromType` (an escaping error) and what `Build` did
   * with the inputs (a throw escapes too).
   */
  function ExecuteOutcome(links: seq<Option<Linked>>, constructError: Option<string>, build: Build): (r: Outcome)
    ensures links == [] ==> r == Outcome(Ok(ErrorReturn(NoShapesMessage)), None)
    ensures r.written.Some? <==> r.ret == Ok(StdReturn)
    ensures r.written.Some? ==> build.Built? && r.written.value == build.shape && build.shape != NullShape
    ensures r.ret.Err? <==>
              links != [] && (constructError.Some? || (MakerInputs(links, |links|).Ok? && build.BuildThrows?))
    ensures links != [] && constructError.None? && MakerInputs(links, |links|).Ok? && build.BuildThrows? ==>
              r.ret == Err(build.message)
    ensures r.ret == Ok(StdReturn) <==>
              links != [] && constructError.None? && MakerInputs(links, |links|).Ok? && build.Built? && build.shape != NullShape
  {
    if links == [] then Outcome(Ok(ErrorReturn(NoShapesMessage)), None)
    else if constructError.Some? then Outcome(Err(constructError.value), None)
    else match MakerInputs(links, |links|)
      case Err(m) => Outcome(Ok(ErrorReturn(m)), None)
      case Ok(_) =>
        match build
        case BuildThrows(m) => Outcome(Err(m), None)
        case Built(face) =>
          if face == NullShape then Outcome(Ok(ErrorReturn(NullFaceMessage)), None)
          else Outcome(Ok(StdReturn), Some(face))
  }

  class FaceFeature {
    var faceMakerClass: string
    var shape: Shape
    /** The inputs handed to the last face maker, in order. */
    var fed: seq<MakerInput>

    /** A feature as restored from a legacy document (FeatureFace.cpp:36-41). */
    constructor()
      ensures faceMakerClass == LegacyMaker && shape == NullShape && fed == []
    {
      faceMakerClass := LegacyMaker;
      shape := NullShape;
      fed := [];
    }

    /** `setupObject` (FeatureFace.cpp:52-56): new objects use the bullseye maker. */
    method SetupObject()
      modifies this
      ensures faceMakerClass == NewObjectMaker && shape == old(shape) && fed == old(fed)
    {
      faceMakerClass := NewObjectMaker;
    }

    /**
     * `execute`: the sources are checked one by one while the maker is
     * fed; the face is written only when every source was usable and the
     * maker built a non-null shape.
     */
    method Execute(links: seq<Option<Linked>>, constructError: Option<string>, build: Build)
      returns (r: Result<ExecReturn>)
      modifies this
      ensures var o := ExecuteOutcome(links, constructError, build);
              r == o.ret && shape == (if o.written.Some? then o.written.value else old(shape))
      ensures r == Ok(StdReturn) ==> fed == MakerInputs(links, |links|).value
      ensures faceMakerClass == old(faceMakerClass)
    {
      if |links| == 0 {
        return Ok(ErrorReturn(NoShapesMessage));
      }
      if constructError.Some? {
        return Err(constructError.value);
      }
      fed := [];
      var i := 0;
      while i < |links|
        invariant 0 <= i <= |links|
        invariant forall k :: 0 <= k < i ==> UsableSource(links[k])
        invariant MakerInputs(links[..i], |links|) == Ok(fed)
        invariant shape == old(shape) && faceMakerClass == old(faceMakerClass)
      {
        var l := links[i];
        if !(l.Some? && l.value.isPartFeature) {
          FirstErrorWins(links, i, |links|);
          return Ok(ErrorReturn(NotPartMessage));
        }
        if l.value.shape == NullShape {
          FirstErrorWins(links, i, |links|);
          return Ok(ErrorReturn(EmptyShapeMessage));
        }
        if |links| == 1 && l.value.shape.kind == CompoundType {
          fed := fed + [UseCompound(l.value.shape)];
        } else {
          fed := fed + [AddShape(l.value.shape)];
        }
        assert links[..i + 1] == links[..i] + [l];
        InputsSnoc(links[..i], l, |links|);
        i := i + 1;
      }
      assert links[..i] == links;
      if build.BuildThrows? {
        return Err(build.message);
      }
      if build.shape == NullShape {
        return Ok(ErrorReturn(NullFaceMessage));
      }
      shape := build.shape;
      r := Ok(StdReturn);
    }
  }

  /** Feeding one more usable source appends its input. */
  lemma InputsSnoc(links: seq<Option<Linked>>, l: Option<Linked>, count: nat)
    requires MakerInputs(links, count).Ok? && UsableSource(l)
    ensures MakerInputs(links + [l], count) == Ok(MakerInputs(links, count).value + [InputFor(l.value, count)])
  {
    var ls := links + [l];
    assert forall k :: 0 <= k < |ls| ==> UsableSource(ls[k]) by {
      assert forall k :: 0 <= k < |links| ==> ls[k] == links[k];
    }
    var a := MakerInputs(ls, count).value;
    var b := MakerInputs(links, count).value + [InputFor(l.value, count)];
    assert |a| == |b|;
    forall k | 0 <= k < |b|
      ensures a[k] == b[k]
    {
      if k < |links| {
        assert ls[k] == links[k];
      }
    }
    assert a == b;
  }

  /** The error reported is that of the first unusable source. */
  lemma {:induction false} FirstErrorWins(links: seq<Option<Linked>>, i: nat, count: nat)
    requires i < |links| && !UsableSource(links[i])
    requires forall k :: 0 <= k < i ==> UsableSource(links[k])
    ensures MakerInputs(links, count) == Err(SourceError(links[i]))
  {
    if i > 0 {
      assert forall k :: 0 <= k < i - 1 ==> links[1..][k] == links[k + 1];
      FirstErrorWins(links[1..], i - 1, count);
    }
  }
}
