/**
 * Gui::SyntaxHighlighter (src/Gui/SyntaxHighlighter.cpp): the colour kept
 * for each of eleven paragraph types, read by type name or by enum value,
 * and changed by name, which rehighlights the text.
 *
 * The eleven colours are one list, in the order of the `TColor` enum.
 */
module SyntaxHighlighter {
  import opened Wrappers

  /** A QColor: invalid (the default-constructed one) or an RGB triple. */
  datatype Color = Invalid | Rgb(r: nat, g: nat, b: nat)

  /** `SyntaxHighlighter::TColor`, in declaration order. */
  datatype TColor = Text | Comment | BlockComment | Number | StringType | Keyword
                  | Classname | Defname | Operator | Output | Error

  const TypeCount := 11

  /** The position of a type's colour in the list. */
  function Ordinal(t: TColor): (k: nat)
    ensures k < TypeCount
  {
    match t
    case Text => 0
    case Comment => 1
    case BlockComment => 2
    case Number => 3
    case StringType => 4
    case Keyword => 5
    case Classname => 6
    case Defname => 7
    case Operator => 8
    case Output => 9
    case Error => 10
  }

  /** The name `color`/`setColor` know a type by. */
  function TypeName(t: TColor): string
  {
    match t
    case Text => "Text"
    case Comment => "Comment"
    case BlockComment => "Block comment"
    case Number => "Number"
    case StringType => "String"
    case Keyword => "Keyword"
    case Classname => "Class name"
    case Defname => "Define name"
    case Operator => "Operator"
    case Output => "Python output"
    case Error => "Python error"
  }

  /** The type a name stands for, checked in the order the source checks it. */
  function TypeOf(name: string): (r: Option<TColor>)
    ensures r.Some? ==> TypeName(r.value) == name
  {
    if name == "Text" then Some(Text)
    else if name == "Comment" then Some(Comment)
    else if name == "Block comment" then Some(BlockComment)
    else if name == "Number" then Some(Number)
    else if name == "String" then Some(StringType)
    else if name == "Keyword" then Some(Keyword)
    else if name == "Class name" then Some(Classname)
    else if name == "Define name" then Some(Defname)
    else if name == "Operator" then Some(Operator)
    else if name == "Python output" then Some(Output)
    else if name == "Python error" then Some(Error)
    else None
  }

  /** Each type's name is recognised as that type: the names are distinct. */
  lemma TypeOfTypeName(t: TColor)
    ensures TypeOf(TypeName(t)) == Some(t)
  {
    match t {
      case Text =>
      case Comment => assert "Comment" != "Text";
      case BlockComment => assert |"Block comment"| != |"Text"|;
      case Number =>
        assert "Number"[0] != "Text"[0] && "Number"[0] != "Comment"[0] && "Number"[0] != "Block comment"[0];
      case StringType =>
        assert "String"[0] != "Text"[0] && "String"[0] != "Comment"[0] && "String"[0] != "Block comment"[0];
        assert "String"[0] != "Number"[0];
      case Keyword =>
        assert "Keyword"[0] != "Text"[0] && "Keyword"[0] != "Comment"[0] && "Keyword"[0] != "Block comment"[0];
        assert "Keyword"[0] != "Number"[0] && "Keyword"[0] != "String"[0];
      case Classname =>
        assert "Class name"[0] != "Text"[0] && "Class name"[1] != "Comment"[1] && "Class name"[0] != "Block comment"[0];
        assert "Class name"[0] != "Number"[0] && "Class name"[0] != "String"[0] && "Class name"[0] != "Keyword"[0];
      case Defname =>
        assert "Define name"[0] != "Text"[0] && "Define name"[0] != "Comment"[0] && "Define name"[0] != "Block comment"[0];
        assert "Define name"[0] != "Number"[0] && "Define name"[0] != "String"[0] && "Define name"[0] != "Keyword"[0];
        assert "Define name"[0] != "Class name"[0];
      case Operator =>
        assert "Operator"[0] != "Text"[0] && "Operator"[0] != "Comment"[0] && "Operator"[0] != "Block comment"[0];
        assert "Operator"[0] != "Number"[0] && "Operator"[0] != "String"[0] && "Operator"[0] != "Keyword"[0];
        assert "Operator"[0] != "Class name"[0] && "Operator"[0] != "Define name"[0];
      case Output =>
        assert "Python output"[0] != "Text"[0] && "Python output"[0] != "Comment"[0];
        assert "Python output"[0] != "Block comment"[0] && "Python output"[0] != "Number"[0];
        assert "Python output"[0] != "String"[0] && "Python output"[0] != "Keyword"[0];
        assert "Python output"[0] != "Class name"[0] && "Python output"[0] != "Define name"[0];
        assert "Python output"[0] != "Operator"[0];
      case Error =>
        assert "Python error"[0] != "Text"[0] && "Python error"[0] != "Comment"[0];
        assert "Python error"[0] != "Block comment"[0] && "Python error"[0] != "Number"[0];
        assert "Python error"[0] != "String"[0] && "Python error"[0] != "Keyword"[0];
        assert "Python error"[0] != "Class name"[0] && "Python error"[0] != "Define name"[0];
        assert "Python error"[0] != "Operator"[0] && "Python error"[7] != "Python output"[7];
    }
  }

  /** The colours a new highlighter starts with (SyntaxHighlighter.cpp:17-24). */
  const Defaults := [
    Rgb(0, 0, 0), Rgb(0, 170, 0), Rgb(160, 160, 164), Rgb(0, 0, 255), Rgb(255, 0, 0), Rgb(0, 0, 255),
    Rgb(255, 170, 0), Rgb(255, 170, 0), Rgb(160, 160, 164), Rgb(170, 170, 127), Rgb(255, 0, 0)]

  /** A colour list with one colour per type. */
  type Palette = p: seq<Color> | |p| == TypeCount witness Defaults

  /** `color` (SyntaxHighlighter.cpp:84-110): the stored colour of a named type, invalid for any other name. */
  function ColorOf(p: Palette, name: string): (c: Color)
    ensures TypeOf(name).None? ==> c == Invalid
    ensures TypeOf(name).Some? ==> c == p[Ordinal(TypeOf(name).value)]
  {
    match TypeOf(name)
    case None => Invalid
    case Some(t) => p[Ordinal(t)]
  }

  /** `colorByType` (SyntaxHighlighter.cpp:112-138): the stored colour of a type. */
  function ColorByType(p: Palette, t: TColor): Color
  {
    p[Ordinal(t)]
  }

  /** Reading a colour by type and by the type's name agree. */
  lemma ColorByTypeAgrees(p: Palette, t: TColor)
    ensures ColorByType(p, t) == ColorOf(p, TypeName(t))
  {
    TypeOfTypeName(t);
  }

  /**
   * `setColor` as written (SyntaxHighlighter.cpp:51-82): the type is
   * looked up through its current colour, so an invalid current colour
   * is taken for an unknown type; an equal colour changes nothing either.
   * The flag says whether the text is rehighlighted.
   */
  function SetColorAsWritten(p: Palette, name: string, col: Color): (Palette, bool)
  {
    var prior := ColorOf(p, name);
    if prior == Invalid || prior == col then (p, false)
    else (p[Ordinal(TypeOf(name).value) := col], true)
  }

  /** A type whose colour was set to an invalid colour can never be given another one. */
  lemma InvalidColorLocksType(p: Palette, t: TColor, col: Color)
    requires p[Ordinal(t)] == Invalid
    ensures SetColorAsWritten(p, TypeName(t), col) == (p, false)
  {
    TypeOfTypeName(t);
  }

  /** The sequence that shows it: setting Text to an invalid colour, then to black. */
  lemma InvalidColorLocksTypeExample()
    ensures var afterInvalid := SetColorAsWritten(Defaults, "Text", Invalid).0;
            SetColorAsWritten(afterInvalid, "Text", Rgb(0, 0, 0)).0 != afterInvalid[0 := Rgb(0, 0, 0)]
  {
    var afterInvalid := SetColorAsWritten(Defaults, "Text", Invalid).0;
    assert afterInvalid[0] == Invalid;
    InvalidColorLocksType(afterInvalid, Text, Rgb(0, 0, 0));
  }

  /**
   * `setColor` as intended: an unknown name or the colour already stored
   * changes nothing; otherwise the named type takes the colour and the
   * text is rehighlighted.
   */
  function SetColor(p: Palette, name: string, col: Color): (Palette, bool)
  {
    match TypeOf(name)
    case None => (p, false)
    case Some(t) => if p[Ordinal(t)] == col then (p, false) else (p[Ordinal(t) := col], true)
  }

  /**
   * After setting a known type's colour, reading it gives that colour and
   * every other type keeps its own; the text is rehighlighted iff the
   * colour changed; unknown names change nothing.
   */
  lemma SetColorThenColor(p: Palette, name: string, col: Color, other: TColor)
    ensures var (q, rehighlight) := SetColor(p, name, col);
            TypeOf(name).Some? ==> ColorOf(q, name) == col && (rehighlight <==> ColorOf(p, name) != col)
    ensures var (q, rehighlight) := SetColor(p, name, col);
            TypeOf(name).Some? && other != TypeOf(name).value ==> ColorByType(q, other) == ColorByType(p, other)
    ensures TypeOf(name).None? ==> SetColor(p, name, col) == (p, false)
  {
    if TypeOf(name).Some? && other != TypeOf(name).value {
      OrdinalInjective(other, TypeOf(name).value);
    }
  }

  /** The two agree except on a type whose stored colour is invalid. */
  lemma SetColorAsWrittenAgrees(p: Palette, name: string, col: Color)
    requires ColorOf(p, name) != Invalid
    ensures SetColorAsWritten(p, name, col) == SetColor(p, name, col)
  {
  }

  lemma OrdinalInjective(a: TColor, b: TColor)
    requires a != b
    ensures Ordinal(a) != Ordinal(b)
  {
  }

  /** `maximumUserState` (SyntaxHighlighter.cpp:147-150). */
  const MaximumUserState := 8

  class Highlighter {
    var colors: Palette
    /** How many times the text was rehighlighted. */
    var rehighlights: nat

    constructor()
      ensures colors == Defaults && rehighlights == 0
    {
      colors := Defaults;
      rehighlights := 0;
    }

    /** `color` of the current colours. */
    function Color(name: string): Color
      reads this
    {
      ColorOf(colors, name)
    }

    /**
     * `setColor` (SyntaxHighlighter.cpp:51-82, 140-145), with the guard
     * testing for an unknown name rather than for an invalid stored colour
     * (see `SetColorAsWritten`): a new colour for a known type is stored
     * and the text rehighlighted once; anything else changes nothing.
     */
    method SetColorByName(name: string, col: Color)
      modifies this
      ensures colors == SetColor(old(colors), name, col).0
      ensures rehighlights == old(rehighlights) + (if SetColor(old(colors), name, col).1 then 1 else 0)
    {
      var t := TypeOf(name);
      if t.None? {
        return;
      }
      if colors[Ordinal(t.value)] == col {
        return;
      }
      colors := colors[Ordinal(t.value) := col];
      rehighlights := rehighlights + 1;
    }
  }
}
