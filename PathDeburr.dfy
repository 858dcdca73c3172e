/**
 * The Deburr (chamfer) operation of PathScripts/PathDeburr.py: how deep
 * and how far out a chamfer tool must run for a given chamfer width, the
 * depths of the passes, and the last steps of its execution.
 *
 * The tangent is a parameter: `tanHalf(a)` stands for
 * `math.tan(math.radians(a / 2))` of a cutting-edge angle `a` in degrees.
 * Distances are exact reals.
 */
module PathDeburr {
  import opened Wrappers

  /** The tool fields the computation reads. */
  datatype Tool = Tool(cuttingEdgeAngle: real, flatRadius: real, diameter: real)

  /** A cutting-edge angle of 0 is taken as 180 degrees, a flat tool (PathDeburr.py:31-33). */
  function EffectiveAngle(angle: real): (a: real)
    ensures angle == 0.0 ==> a == 180.0
    ensures angle != 0.0 ==> a == angle
  {
    if angle == 0.0 then 180.0 else angle
  }

  /**
   * `toolDepthAndOffset` (PathDeburr.py:29-41): the depth is the depth the
   * tool needs for the width, 0 when the tangent is 0, plus the extra
   * depth; the offset is the flat radius plus half the diameter less the
   * width for a flat tool, or the extra depth over the tangent otherwise.
   * That last division raises when the tangent of a non-flat tool is 0.
   */
  function ToolDepthAndOffset(width: real, extraDepth: real, tool: Tool, tanHalf: real -> real): (r: Result<(real, real)>)
    ensures var angle := EffectiveAngle(tool.cuttingEdgeAngle);
            r.Err? <==> angle != 180.0 && tanHalf(angle) == 0.0
    ensures var angle := EffectiveAngle(tool.cuttingEdgeAngle);
            var tan := tanHalf(angle);
            r.Ok? ==> r.value.0 == (if tan == 0.0 then 0.0 else width / tan) + extraDepth
  {
    var angle := EffectiveAngle(tool.cuttingEdgeAngle);
    var tan := tanHalf(angle);
    var toolDepth := if tan == 0.0 then 0.0 else width / tan;
    var depth := toolDepth + extraDepth;
    var toolOffset := tool.flatRadius;
    if angle != 180.0 && tan == 0.0 then Err("ZeroDivisionError: float division by zero")
    else
      var extraOffset := if angle == 180.0 then tool.diameter / 2.0 - width else extraDepth / tan;
      Ok((depth, toolOffset + extraOffset))
  }

  /**
   * A flat tool never fails, and its offset does not depend on the
   * tangent: it is the flat radius plus half the diameter, less the width.
   */
  lemma FlatToolOffset(width: real, extraDepth: real, tool: Tool, tanHalf: real -> real)
    requires EffectiveAngle(tool.cuttingEdgeAngle) == 180.0
    ensures var r := ToolDepthAndOffset(width, extraDepth, tool, tanHalf);
            r.Ok? && r.value.1 == tool.flatRadius + tool.diameter / 2.0 - width
  {
  }

  /** A tool with angle 0 behaves exactly as one with angle 180. */
  lemma ZeroAngleIsFlat(width: real, extraDepth: real, tool: Tool, tanHalf: real -> real)
    requires tool.cuttingEdgeAngle == 0.0
    ensures ToolDepthAndOffset(width, extraDepth, tool, tanHalf) ==
            ToolDepthAndOffset(width, extraDepth, tool.(cuttingEdgeAngle := 180.0), tanHalf)
  {
  }

  /**
   * The offset of a pointed tool grows with the extra depth: each unit of
   * extra depth moves the path out by one over the tangent, and down by one.
   */
  lemma ExtraDepthShiftsBoth(width: real, e1: real, e2: real, tool: Tool, tanHalf: real -> real)
    requires EffectiveAngle(tool.cuttingEdgeAngle) != 180.0
    requires tanHalf(EffectiveAngle(tool.cuttingEdgeAngle)) != 0.0
    ensures var tan := tanHalf(EffectiveAngle(tool.cuttingEdgeAngle));
            var r1 := ToolDepthAndOffset(width, e1, tool, tanHalf);
            var r2 := ToolDepthAndOffset(width, e2, tool, tanHalf);
            r1.Ok? && r2.Ok? &&
            r2.value.0 - r1.value.0 == e2 - e1 &&
            r2.value.1 - r1.value.1 == (e2 - e1) / tan
  {
    var tan := tanHalf(EffectiveAngle(tool.cuttingEdgeAngle));
    assert e2 / tan - e1 / tan == (e2 - e1) / tan;
  }

  /**
   * The depths of the passes (PathDeburr.py:92-98): with a step of 0 only
   * the final depth; otherwise every multiple of the step strictly above
   * the final depth in the order reached, then the final depth.
   */
  ghost predicate PassDepths(stepDown: real, depth: real, zs: seq<real>)
  {
    |zs| >= 1 && zs[|zs| - 1] == depth &&
    (stepDown == 0.0 ==> |zs| == 1) &&
    (forall i :: 0 <= i < |zs| - 1 ==> zs[i] == (i + 1) as real * stepDown && zs[i] < depth) &&
    (stepDown != 0.0 ==> (|zs| as real) * stepDown >= depth)
  }

  /** The pass depths are computed step by step, as the source's loop does. */
  method ZValues(stepDown: real, depth: real) returns (zs: seq<real>)
    requires stepDown >= 0.0 || stepDown >= depth
    ensures PassDepths(stepDown, depth, zs)
  {
    zs := [];
    var z := 0.0;
    if stepDown != 0.0 {
      if stepDown < 0.0 {
        // the first test already fails: no intermediate pass
        assert !(z + stepDown < depth);
      } else {
        var j: nat := 0;
        var bound: int := (depth / stepDown).Floor + 1;
        if bound < 0 {
          bound := 0;
        }
        while z + stepDown < depth
          invariant z == j as real * stepDown
          invariant |zs| == j
          invariant forall i :: 0 <= i < j ==> zs[i] == (i + 1) as real * stepDown && zs[i] < depth
          invariant j <= bound
          decreases bound - j
        {
          NextMultiple(j, stepDown, depth);
          z := z + stepDown;
          zs := zs + [z];
          j := j + 1;
        }
        NextMultiple(j, stepDown, depth);
      }
    }
    LastPass(stepDown, depth, zs);
    zs := zs + [depth];
  }

  /** Appending the final depth to the intermediate passes completes the pass list. */
  lemma LastPass(stepDown: real, depth: real, zs: seq<real>)
    requires stepDown == 0.0 ==> zs == []
    requires forall i :: 0 <= i < |zs| ==> zs[i] == (i + 1) as real * stepDown && zs[i] < depth
    requires stepDown != 0.0 ==> (|zs| + 1) as real * stepDown >= depth
    ensures PassDepths(stepDown, depth, zs + [depth])
  {
  }

  /**
   * The next multiple of a positive step is the current one plus the
   * step, and while it stays below the depth the count stays below the
   * loop's bound.
   */
  lemma NextMultiple(j: nat, s: real, d: real)
    requires s > 0.0
    ensures (j + 1) as real * s == j as real * s + s
    ensures j as real * s + s < d ==> j + 1 <= (d / s).Floor
  {
    if j as real * s + s < d {
      assert (j + 1) as real * s < d;
      BelowQuotient((j + 1) as real, d, s);
    }
  }

  lemma BelowQuotient(b: real, d: real, s: real)
    requires s > 0.0 && b * s < d
    ensures b < d / s
  {
    assert (b * s) / s == b;
  }

  /** The step-down a new Deburr operation gets (PathDeburr.py:112-118), in mm. */
  const DefaultStepDown := 0.0

  /** With the default step of 0 there is one pass, at the final depth. */
  lemma DefaultStepDownOnePass(depth: real, zs: seq<real>)
    requires PassDepths(DefaultStepDown, depth, zs)
    ensures zs == [depth]
  {
  }

  /** The number of passes is the least count of steps that reaches the final depth. */
  lemma PassCountBounds(stepDown: real, depth: real, zs: seq<real>)
    requires stepDown > 0.0 && PassDepths(stepDown, depth, zs)
    ensures (|zs| as real) * stepDown >= depth
    ensures |zs| > 1 ==> ((|zs| - 1) as real) * stepDown < depth
  {
    if |zs| > 1 {
      assert zs[|zs| - 2] == (|zs| - 1) as real * stepDown;
    }
  }

  /** The same bounds, divided by the step. */
  lemma PassCountRatio(stepDown: real, depth: real, zs: seq<real>)
    requires stepDown > 0.0 && PassDepths(stepDown, depth, zs)
    ensures |zs| as real >= depth / stepDown
    ensures |zs| > 1 ==> (|zs| - 1) as real < depth / stepDown
  {
    PassCountBounds(stepDown, depth, zs);
    DivideAbove(|zs| as real, depth, stepDown);
    if |zs| > 1 {
      DivideBelow((|zs| - 1) as real, depth, stepDown);
    }
  }

  lemma DivideAbove(p: real, d: real, s: real)
    requires s > 0.0 && p * s >= d
    ensures p >= d / s
  {
    assert d == (d / s) * s;
  }

  lemma DivideBelow(p: real, d: real, s: real)
    requires s > 0.0 && p * s < d
    ensures p < d / s
  {
    assert d == (d / s) * s;
  }

  /** Two passes lists for the same step and depth are the same list. */
  lemma {:induction false} PassDepthsUnique(stepDown: real, depth: real, a: seq<real>, b: seq<real>)
    requires stepDown >= 0.0
    requires PassDepths(stepDown, depth, a) && PassDepths(stepDown, depth, b)
    ensures a == b
  {
    if stepDown != 0.0 {
      PassCountRatio(stepDown, depth, a);
      PassCountRatio(stepDown, depth, b);
    }
  }

  /** `opRejectAddBase` (PathDeburr.py:108-110): only features of the job's models may be added. */
  function RejectAddBase<T(==)>(base: T, model: seq<T>): (reject: bool)
    ensures reject <==> forall m :: m in model ==> m != base
  {
    base !in model
  }

  /** `SetupProperties` (PathDeburr.py:121-125): the properties the setup sheet offers. */
  method SetupProperties() returns (setup: seq<string>)
    ensures setup == ["Width", "ExtraDepth"]
  {
    setup := [];
    setup := setup + ["Width"];
    setup := setup + ["ExtraDepth"];
  }

  /** The Deburr operation's command list, built by the engrave base and trimmed here. */
  class ObjectDeburr {
    var commandlist: seq<string>

    constructor(commands: seq<string>)
      ensures commandlist == commands
    {
      commandlist := commands;
    }

    /**
     * The end of `opExecute` (PathDeburr.py:104-106): the final move to
     * clearance is dropped, and an empty list stays empty.
     */
    method DropClearanceMove()
      modifies this
      ensures |old(commandlist)| > 0 ==> commandlist + [old(commandlist)[|old(commandlist)| - 1]] == old(commandlist)
      ensures |old(commandlist)| == 0 ==> commandlist == []
    {
      if |commandlist| > 0 {
        commandlist := commandlist[..|commandlist| - 1];
      }
    }
  }
}
