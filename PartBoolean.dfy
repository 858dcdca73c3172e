/**
 * Part::Boolean (src/Mod/Part/App/FeaturePartBoolean.cpp): the common base
 * of the boolean features (cut, fuse, common). It recomputes when an
 * operand changes, runs the boolean operation of its subclass on the two
 * operand shapes and records, for each operand, how its faces map to the
 * result. Every failure becomes an error return; nothing escapes.
 *
 * The OpenCASCADE operation, the model check and the refinement are
 * oracles: their outcome is a parameter.
 */
module PartBoolean {
  import opened Wrappers
  import opened PartShape

  const NotPartMessage := "Linked object is not a Part object"
  const FatalMessage := "A fatal error occurred when running boolean operation"
  const FailedMessage := "Boolean operation failed"
  const NullResultMessage := "Resulting shape is null"
  const InvalidResultMessage := "Resulting shape is invalid"

  /**
   * `mustExecute` (FeaturePartBoolean.cpp:39-48): 1 when both operands are
   * set and one of them is touched, else 0.
   */
  function MustExecute(baseSet: bool, toolSet: bool, baseTouched: bool, toolTouched: bool): (r: int)
    ensures r == 0 || r == 1
    ensures r == 1 <==> baseSet && toolSet && (baseTouched || toolTouched)
  {
    if baseSet && toolSet then
      if baseTouched then 1
      else if toolTouched then 1
      else 0
    else 0
  }

  /**
   * What `makeOperation` produced: an unfinished operation, a result shape,
   * or a throw. With a result, `historyThrows` says whether `buildHistory`
   * for the operands (FeaturePartBoolean.cpp:97-98) threw.
   */
  datatype Operation = NotDone | Done(result: Shape, historyThrows: bool) | OperationThrows

  /**
   * What the refinement step (FeaturePartBoolean.cpp:101-111) did:
   * - `Refined`: the refined shape, with both histories joined;
   * - `RefineFails`: a Standard_Failure before the refined shape was taken;
   * - `RefinedHistoryFails`: the refined shape was taken, then the
   *   refinement's `buildHistory` or a `joinHistory` threw; `baseJoined`
   *   says whether the base operand's history was joined before the throw.
   */
  datatype Refinement = Refined(shape: Shape) | RefineFails | RefinedHistoryFails(shape: Shape, baseJoined: bool)

  /**
   * One `ShapeHistory` entry: the face history from operand shape `source`
   * to the result, joined with the refinement's history when `refined`.
   */
  datatype History = History(source: nat, refined: bool)

  /** What `execute` hands back, and the Shape and History it writes, if it writes them. */
  datatype Outcome = Outcome(ret: ExecReturn, written: Option<(Shape, seq<History>)>)

  function Failure(why: string): Outcome
  {
    Outcome(ErrorReturn(why), None)
  }

  /**
   * The error text of a boolean operation that did not finish
   * (FeaturePartBoolean.cpp:71-81): one line per operand that is not a
   * solid, each naming the operand's label.
   */
  function NotSolidReport(base: Linked, tool: Linked): string
    requires base.shape != NullShape && tool.shape != NullShape
  {
    FailedMessage
      + (if base.shape.kind != SolidType then "\n" + base.labelText + " is not a solid" else "")
      + (if tool.shape.kind != SolidType then "\n" + tool.labelText + " is not a solid" else "")
  }

  /**
   * `execute` (FeaturePartBoolean.cpp:50-121), with the links, the kernel
   * outcomes and the preference switches given.
   */
  function ExecuteOutcome(base: Option<Linked>, tool: Option<Linked>, op: Operation,
                          checkModel: bool, resultValid: bool, refine: bool, refinement: Refinement): (r: Outcome)
    ensures r.ret.StdReturn? <==> r.written.Some?
    ensures r.written.Some? ==> |r.written.value.1| == 2 && op.Done?
    ensures r.written.Some? ==>
              r.written.value.0 == op.result || (refine && !refinement.RefineFails? && r.written.value.0 == refinement.shape)
    ensures r.written.Some? ==>
              base.Some? && tool.Some? && base.value.shape.Shape? && tool.value.shape.Shape? &&
              r.written.value.1[0].source == base.value.shape.id && r.written.value.1[1].source == tool.value.shape.id &&
              (r.written.value.1[1].refined <==> refine && refinement.Refined?) &&
              (r.written.value.1[0].refined <==> refine && (refinement.Refined? || (refinement.RefinedHistoryFails? && refinement.baseJoined)))
    ensures r.ret.StdReturn? ==> base.Some? && tool.Some? && op.Done? && op.result != NullShape
    // the failures, in the order the source tests them
    ensures (base.None? || !base.value.isPartFeature || tool.None? || !tool.value.isPartFeature) ==>
              r.ret == ErrorReturn(NotPartMessage)
    ensures base.Some? && base.value.isPartFeature && tool.Some? && tool.value.isPartFeature &&
            (base.value.shape == NullShape || tool.value.shape == NullShape || op.OperationThrows?) ==>
              r.ret == ErrorReturn(FatalMessage)
    ensures base.Some? && base.value.isPartFeature && tool.Some? && tool.value.isPartFeature &&
            base.value.shape != NullShape && tool.value.shape != NullShape && op.NotDone? ==>
              r.ret == ErrorReturn(NotSolidReport(base.value, tool.value))
    ensures base.Some? && base.value.isPartFeature && tool.Some? && tool.value.isPartFeature &&
            base.value.shape != NullShape && tool.value.shape != NullShape && op.Done? && op.result == NullShape ==>
              r.ret == ErrorReturn(NullResultMessage)
    ensures base.Some? && base.value.isPartFeature && tool.Some? && tool.value.isPartFeature &&
            base.value.shape != NullShape && tool.value.shape != NullShape && op.Done? && op.result != NullShape ==>
              r.ret == (if checkModel && !resultValid then ErrorReturn(InvalidResultMessage)
                        else if op.historyThrows then ErrorReturn(FatalMessage)
                        else StdReturn)
  {
    if base.None? || !base.value.isPartFeature || tool.None? || !tool.value.isPartFeature then
      Failure(NotPartMessage)
    else
      var b := base.value;
      var t := tool.value;
      if b.shape == NullShape || t.shape == NullShape then
        // NullShapeException, caught by the catch-all
        Failure(FatalMessage)
      else match op
        case OperationThrows => Failure(FatalMessage)
        case NotDone => Failure(NotSolidReport(b, t))
        case Done(res, historyThrows) =>
          if res == NullShape then Failure(NullResultMessage)
          else if checkModel && !resultValid then Failure(InvalidResultMessage)
          else if historyThrows then Failure(FatalMessage)
          else if !refine then
            Outcome(StdReturn, Some((res, [History(b.shape.id, false), History(t.shape.id, false)])))
          else match refinement
            case Refined(s) => Outcome(StdReturn, Some((s, [History(b.shape.id, true), History(t.shape.id, true)])))
            case RefineFails => Outcome(StdReturn, Some((res, [History(b.shape.id, false), History(t.shape.id, false)])))
            case RefinedHistoryFails(s, baseJoined) =>
              Outcome(StdReturn, Some((s, [History(b.shape.id, baseJoined), History(t.shape.id, false)])))
  }

  /**
   * A refinement failure is ignored: the unrefined result is kept with the
   * two unjoined history entries, exactly as with refinement switched off.
   */
  lemma RefineFailureKeepsResult(base: Option<Linked>, tool: Option<Linked>, op: Operation,
                                 checkModel: bool, resultValid: bool)
    ensures ExecuteOutcome(base, tool, op, checkModel, resultValid, true, RefineFails)
         == ExecuteOutcome(base, tool, op, checkModel, resultValid, false, RefineFails)
  {
  }

  /**
   * A throw in the refinement's history is swallowed after the refined
   * shape was taken: the refined shape is written, but the tool's history
   * is not joined with the refinement, and the base's only when its join
   * finished, so the written History does not describe the written Shape.
   */
  lemma RefinedShapeWithUnjoinedHistory(base: Option<Linked>, tool: Option<Linked>, op: Operation,
                                        checkModel: bool, resultValid: bool, s: Shape, baseJoined: bool)
    requires ExecuteOutcome(base, tool, op, checkModel, resultValid, true, RefinedHistoryFails(s, baseJoined)).ret.StdReturn?
    ensures var w := ExecuteOutcome(base, tool, op, checkModel, resultValid, true, RefinedHistoryFails(s, baseJoined)).written.value;
            w.0 == s && !w.1[1].refined && w.1[0].refined == baseJoined
  {
  }

  /**
   * The report of an unfinished operation starts with "Boolean operation
   * failed" and names an operand exactly when it is not a solid.
   */
  lemma NotSolidReportNamesOperands(base: Linked, tool: Linked)
    requires base.shape != NullShape && tool.shape != NullShape
    ensures var m := NotSolidReport(base, tool);
            |FailedMessage| <= |m| && m[..|FailedMessage|] == FailedMessage
    ensures NotSolidReport(base, tool) == FailedMessage <==>
              base.shape.kind == SolidType && tool.shape.kind == SolidType
    ensures base.shape.kind != SolidType ==>
              var m := NotSolidReport(base, tool);
              var line := "\n" + base.labelText + " is not a solid";
              |FailedMessage| + |line| <= |m| && m[|FailedMessage|..|FailedMessage| + |line|] == line
  {
    var m := NotSolidReport(base, tool);
    var bl := if base.shape.kind != SolidType then "\n" + base.labelText + " is not a solid" else "";
    var tl := if tool.shape.kind != SolidType then "\n" + tool.labelText + " is not a solid" else "";
    assert m == FailedMessage + bl + tl;
    assert m[..|FailedMessage|] == FailedMessage;
    if m == FailedMessage {
      assert |bl| == 0 && |tl| == 0;
    }
    if base.shape.kind != SolidType {
      assert m[|FailedMessage|..|FailedMessage| + |bl|] == bl;
    }
  }

  /** A boolean feature's output properties. */
  class BooleanFeature {
    var shape: Shape
    var history: seq<History>
    var refine: bool

    /** A new feature (FeaturePartBoolean.cpp:23-37): empty history, Refine from the preferences. */
    constructor(refineModel: bool)
      ensures shape == NullShape && history == [] && refine == refineModel
    {
      shape := NullShape;
      history := [];
      refine := refineModel;
    }

    /**
     * `execute`: writes Shape and History only on success, and hands back
     * what `ExecuteOutcome` says.
     */
    method Execute(base: Option<Linked>, tool: Option<Linked>, op: Operation,
                   checkModel: bool, resultValid: bool, refinement: Refinement) returns (r: ExecReturn)
      modifies this
      ensures var o := ExecuteOutcome(base, tool, op, checkModel, resultValid, old(refine), refinement);
              r == o.ret &&
              (o.written.Some? ==> shape == o.written.value.0 && history == o.written.value.1) &&
              (o.written.None? ==> shape == old(shape) && history == old(history))
      ensures refine == old(refine)
    {
      if base.None? || !base.value.isPartFeature || tool.None? || !tool.value.isPartFeature {
        return ErrorReturn(NotPartMessage);
      }
      var b := base.value;
      var t := tool.value;
      if b.shape == NullShape || t.shape == NullShape {
        return ErrorReturn(FatalMessage);
      }
      if op.OperationThrows? {
        return ErrorReturn(FatalMessage);
      }
      if op.NotDone? {
        var error := FailedMessage;
        if b.shape.kind != SolidType {
          error := error + "\n" + b.labelText + " is not a solid";
        }
        if t.shape.kind != SolidType {
          error := error + "\n" + t.labelText + " is not a solid";
        }
        return ErrorReturn(error);
      }
      var res := op.result;
      if res == NullShape {
        return ErrorReturn(NullResultMessage);
      }
      if checkModel && !resultValid {
        return ErrorReturn(InvalidResultMessage);
      }
      if op.historyThrows {
        return ErrorReturn(FatalMessage);
      }
      var unjoined := [History(b.shape.id, false), History(t.shape.id, false)];
      if !refine {
        shape, history := res, unjoined;
      } else {
        match refinement
        case Refined(s) =>
          shape, history := s, [History(b.shape.id, true), History(t.shape.id, true)];
        case RefineFails =>
          shape, history := res, unjoined;
        case RefinedHistoryFails(s, baseJoined) =>
          // the refined shape was already taken when the throw came
          shape, history := s, [History(b.shape.id, baseJoined), History(t.shape.id, false)];
      }
      r := StdReturn;
    }
  }
}
