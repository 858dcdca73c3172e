/**
 * The Path GUI helpers of PathScripts/PathGui.py: a property named by a
 * dotted path ("Placement.Base.x") is found by walking attribute by
 * attribute from a document object, read, written, and bound to a
 * quantity spin box.
 *
 * Python objects are modelled as a heap: an object is a reference into a
 * table from object ids to their attribute tables; numbers and quantities
 * are plain values without attributes of their own.
 */
module PathGui {
  import opened Wrappers
  import opened Strings

  /** A Python value as far as these helpers look at it. */
  datatype Value = NoneValue | Num(x: real) | Qty(q: real) | Ref(id: nat)

  /** The attribute tables of all objects, by object id. */
  type AttrTables = map<nat, map<string, Value>>

  /** What an assignment to a document object makes happen, in order. */
  datatype Event = BeforeChange(obj: Value) | Changed(owner: nat, name: string)

  /** The attributes of a value: an object's table, nothing for any other value. */
  function Attrs(attrs: AttrTables, v: Value): map<string, Value>
  {
    if v.Ref? && v.id in attrs then attrs[v.id] else map[]
  }

  /** The value reached by following `names` from `v`, attribute by attribute; None once one is missing. */
  function Lookup(attrs: AttrTables, v: Value, names: seq<string>): Option<Value>
    decreases |names|
  {
    if |names| == 0 then Some(v)
    else match Lookup(attrs, v, names[..|names| - 1])
      case None => None
      case Some(p) =>
        var a := Attrs(attrs, p);
        if names[|names| - 1] in a then Some(a[names[|names| - 1]]) else None
  }

  /** Once a segment is missing, every longer path is missing too. */
  lemma {:induction false} LookupNonePersists(attrs: AttrTables, v: Value, names: seq<string>, j: nat)
    requires j <= |names|
    requires Lookup(attrs, v, names[..j]) == None
    ensures Lookup(attrs, v, names) == None
    decreases |names| - j
  {
    if j < |names| {
      assert names[..j + 1][..j] == names[..j];
      LookupNonePersists(attrs, v, names, j + 1);
    } else {
      assert names[..j] == names;
    }
  }

  /** A found attribute always belongs to an object that has it. */
  lemma OwnerIsObject(attrs: AttrTables, v: Value, names: seq<string>)
    requires |names| > 0 && Lookup(attrs, v, names).Some?
    ensures var owner := Lookup(attrs, v, names[..|names| - 1]);
            owner.Some? && owner.value.Ref? && owner.value.id in attrs &&
            names[|names| - 1] in attrs[owner.value.id] &&
            Lookup(attrs, v, names) == Some(attrs[owner.value.id][names[|names| - 1]])
  {
  }

  /** The answer of `_getProperty`: the owner, the value and the last name, or nothing. */
  datatype Resolution = Missing | Resolved(owner: Value, value: Value, name: string)

  /**
   * `_getProperty` (PathGui.py:26-41): the property is found when every
   * segment of the dotted path resolves, except that a value equal to its
   * own owner is taken for a missing one, since the walk compares them.
   */
  function Resolve(attrs: AttrTables, obj: Value, prop: string): Resolution
  {
    var names := Split(prop, '.');
    var owner := Lookup(attrs, obj, names[..|names| - 1]);
    var value := Lookup(attrs, obj, names);
    if owner.Some? && value.Some? && owner.value != value.value
    then Resolved(owner.value, value.value, names[|names| - 1])
    else Missing
  }

  /** `getProperty` (PathGui.py:43-46): the property's value, None when it is not found. */
  function PropertyValue(attrs: AttrTables, obj: Value, prop: string): Value
  {
    match Resolve(attrs, obj, prop)
    case Missing => NoneValue
    case Resolved(_, v, _) => v
  }

  /** The attribute `setProperty` writes: only a found property with a non-empty name. */
  function SetTarget(attrs: AttrTables, obj: Value, prop: string): Option<(nat, string)>
  {
    match Resolve(attrs, obj, prop)
    case Resolved(Ref(id), _, name) => if name != "" then Some((id, name)) else None
    case _ => None
  }

  /** A property is found only in an object that has it, under the path's last segment. */
  lemma ResolvedMeansFound(attrs: AttrTables, obj: Value, prop: string)
    requires Resolve(attrs, obj, prop).Resolved?
    ensures var r := Resolve(attrs, obj, prop);
            var names := Split(prop, '.');
            r.owner.Ref? && r.owner.id in attrs && r.name == names[|names| - 1] &&
            r.name in attrs[r.owner.id] && attrs[r.owner.id][r.name] == r.value &&
            Lookup(attrs, obj, names) == Some(r.value) && r.owner != r.value
  {
    var names := Split(prop, '.');
    OwnerIsObject(attrs, obj, names);
  }

  /** The tables after `setProperty` assigns `value`: only the targeted attribute changes. */
  function AfterSet(attrs: AttrTables, obj: Value, prop: string, value: Value): (r: AttrTables)
    ensures SetTarget(attrs, obj, prop).None? ==> r == attrs
  {
    match SetTarget(attrs, obj, prop)
    case None => attrs
    case Some((id, name)) =>
      ResolvedMeansFound(attrs, obj, prop);
      attrs[id := attrs[id][name := value]]
  }

  /** The change notification an assignment raises. */
  function SetEvents(attrs: AttrTables, obj: Value, prop: string): seq<Event>
  {
    match SetTarget(attrs, obj, prop)
    case None => []
    case Some((id, name)) => [Changed(id, name)]
  }

  /**
   * Setting a found property and reading it back gives the value set,
   * provided the walk to its owner is not changed by the assignment and
   * the value is not the owner itself.
   */
  lemma SetThenGet(attrs: AttrTables, obj: Value, prop: string, value: Value)
    requires SetTarget(attrs, obj, prop).Some?
    requires var names := Split(prop, '.');
             Lookup(AfterSet(attrs, obj, prop, value), obj, names[..|names| - 1]) == Lookup(attrs, obj, names[..|names| - 1])
    requires value != Resolve(attrs, obj, prop).owner
    ensures PropertyValue(AfterSet(attrs, obj, prop, value), obj, prop) == value
    ensures SetTarget(AfterSet(attrs, obj, prop, value), obj, prop) == SetTarget(attrs, obj, prop)
  {
    ResolvedMeansFound(attrs, obj, prop);
  }

  /** For a plain (undotted) property name the walk to the owner cannot change: set then get gives the value. */
  lemma SetThenGetPlain(attrs: AttrTables, obj: Value, prop: string, value: Value)
    requires '.' !in prop
    requires SetTarget(attrs, obj, prop).Some?
    requires value != obj
    ensures PropertyValue(AfterSet(attrs, obj, prop, value), obj, prop) == value
  {
    SplitWithoutSeparator(prop, '.');
    SetThenGet(attrs, obj, prop, value);
  }

  /** A name without the separator splits into itself. */
  lemma SplitWithoutSeparator(s: string, sep: char)
    requires sep !in s
    ensures Split(s, sep) == [s]
  {
    JoinSplit(s, sep);
    var parts := Split(s, sep);
    if |parts| > 1 {
      JoinHasSeparator(parts, sep);
    }
  }

  /** Joining two or more parts puts the separator into the text. */
  lemma JoinHasSeparator(parts: seq<string>, sep: char)
    requires |parts| > 1
    ensures sep in Join(parts, [sep])
  {
    assert Join(parts, [sep]) == parts[0] + [sep] + Join(parts[1..], [sep]);
    assert Join(parts, [sep])[|parts[0]|] == sep;
  }

  /**
   * The number `isRoughly` is given for a property value: a quantity's
   * `Value`, a number itself; anything else makes the subtraction in
   * `isRoughly` raise.
   */
  function NumberOf(v: Value): Option<real>
  {
    match v
    case Num(x) => Some(x)
    case Qty(q) => Some(q)
    case _ => None
  }

  /**
   * What `updateInputField` does (PathGui.py:54-72): nothing and False
   * when the widget's value is roughly the property's; otherwise the
   * callback, when given, then the assignment, and True.
   */
  function UpdateEvents(attrs: AttrTables, obj: Value, prop: string, hasCallback: bool): seq<Event>
  {
    (if hasCallback then [BeforeChange(obj)] else []) + SetEvents(attrs, obj, prop)
  }

  /** The callback, when given, is called once, before the change it announces, and nothing else happens. */
  lemma CallbackBeforeAssignment(attrs: AttrTables, obj: Value, prop: string, hasCallback: bool)
    ensures var es := UpdateEvents(attrs, obj, prop, hasCallback);
            (hasCallback <==> |es| > 0 && es[0] == BeforeChange(obj)) &&
            (SetTarget(attrs, obj, prop).Some? <==> |es| > 0 && es[|es| - 1].Changed?) &&
            |es| <= 2
  {
  }

  /**
   * Updating twice from the same widget value assigns once: after the
   * first assignment the property holds the widget's value, which a
   * reflexive `isRoughly` finds equal, so the second call returns False.
   */
  lemma SecondUpdateFindsValue(attrs: AttrTables, obj: Value, prop: string, w: real, isRoughly: (real, real) -> bool)
    requires '.' !in prop
    requires SetTarget(attrs, obj, prop).Some?
    requires forall x :: isRoughly(x, x)
    ensures var after := AfterSet(attrs, obj, prop, Num(w));
            var current := NumberOf(PropertyValue(after, obj, prop));
            current == Some(w) && isRoughly(current.value, w)
  {
    SplitWithoutSeparator(prop, '.');
    ResolvedMeansFound(attrs, obj, prop);
    assert Split(prop, '.')[..0] == [];
    SetThenGetPlain(attrs, obj, prop, Num(w));
  }

  /** The objects of a document and what assignments to them have made happen. */
  class Objects {
    var attrs: AttrTables
    var events: seq<Event>

    constructor(attrs0: AttrTables)
      ensures attrs == attrs0 && events == []
    {
      attrs := attrs0;
      events := [];
    }
  }

  /** `_getProperty` step by step (PathGui.py:26-41). */
  method ResolveProperty(h: Objects, obj: Value, prop: string) returns (r: Resolution)
    ensures r == Resolve(h.attrs, obj, prop)
  {
    var names := Split(prop, '.');
    var o := obj;
    var attr := obj;
    var name := "";
    var i := 0;
    var broke := false;
    while i < |names| && !broke
      invariant 0 <= i <= |names|
      invariant !broke ==> Lookup(h.attrs, obj, names[..i]) == Some(attr)
      invariant !broke && i > 0 ==> Lookup(h.attrs, obj, names[..i - 1]) == Some(o) && name == names[i - 1]
      invariant !broke && i == 0 ==> o == obj
      invariant broke ==> i > 0 && o == attr && Lookup(h.attrs, obj, names[..i]) == None
    {
      name := names[i];
      o := attr;
      assert names[..i + 1][..i] == names[..i];
      if name !in Attrs(h.attrs, o) {
        broke := true;
      } else {
        attr := Attrs(h.attrs, o)[name];
      }
      i := i + 1;
    }
    if broke {
      LookupNonePersists(h.attrs, obj, names, i);
    } else {
      assert names[..i] == names;
      if i == 1 {
        assert names[..0] == [];
      }
    }
    if o == attr {
      return Missing;
    }
    r := Resolved(o, attr, name);
  }

  /** `getProperty` (PathGui.py:43-46). */
  method GetProperty(h: Objects, obj: Value, prop: string) returns (v: Value)
    ensures v == PropertyValue(h.attrs, obj, prop)
  {
    var r := ResolveProperty(h, obj, prop);
    v := if r.Resolved? then r.value else NoneValue;
  }

  /**
   * `setProperty` (PathGui.py:48-52): the found attribute is assigned and
   * its owner notified; a property not found changes nothing.
   */
  method SetProperty(h: Objects, obj: Value, prop: string, value: Value)
    modifies h
    ensures h.attrs == AfterSet(old(h.attrs), obj, prop, value)
    ensures h.events == old(h.events) + SetEvents(old(h.attrs), obj, prop)
  {
    var r := ResolveProperty(h, obj, prop);
    if r.Resolved? && r.name != "" {
      ResolvedMeansFound(h.attrs, obj, prop);
      var id := r.owner.id;
      h.attrs := h.attrs[id := h.attrs[id][r.name := value]];
      h.events := h.events + [Changed(id, r.name)];
    }
  }

  /**
   * `updateInputField` (PathGui.py:54-72). The widget's text has been
   * parsed into `widgetValue`; `isRoughly` is PathGeom's comparison. A
   * property whose value is not a number makes it raise.
   */
  method UpdateInputField(h: Objects, obj: Value, prop: string, widgetValue: real,
                          isRoughly: (real, real) -> bool, hasCallback: bool)
    returns (r: Result<bool>)
    modifies h
    ensures var current := NumberOf(PropertyValue(old(h.attrs), obj, prop));
            (r.Err? <==> current.None?) &&
            (r == Ok(true) <==> current.Some? && !isRoughly(current.value, widgetValue))
    ensures r == Ok(true) ==> h.attrs == AfterSet(old(h.attrs), obj, prop, Num(widgetValue)) &&
                              h.events == old(h.events) + UpdateEvents(old(h.attrs), obj, prop, hasCallback)
    ensures r != Ok(true) ==> h.attrs == old(h.attrs) && h.events == old(h.events)
  {
    var attr := GetProperty(h, obj, prop);
    var current := NumberOf(attr);
    if current.None? {
      return Err("TypeError: unsupported operand type(s) for -");
    }
    if !isRoughly(current.value, widgetValue) {
      if hasCallback {
        h.events := h.events + [BeforeChange(obj)];
      }
      SetProperty(h, obj, prop, Num(widgetValue));
      return Ok(true);
    }
    return Ok(false);
  }

  /** A Gui::QuantitySpinBox as far as the controller touches it. */
  class SpinBox {
    var unit: Option<string>
    var binding: Option<string>
    var expression: string
    var rawValue: Option<Value>

    constructor()
      ensures unit.None? && binding.None? && expression == "" && rawValue.None?
    {
      unit := None;
      binding := None;
      expression := "";
      rawValue := None;
    }
  }

  /** The value shown for a property: a quantity's number, any other value as it is. */
  function Displayed(v: Value): Value
  {
    if v.Qty? then Num(v.q) else v
  }

  /** The `QuantitySpinBox` controller (PathGui.py:74-119). */
  class QuantitySpinBox {
    const objects: Objects
    const widget: SpinBox
    const obj: Value
    const prop: string
    const hasCallback: bool
    const valid: bool

    /**
     * The constructor (PathGui.py:84-97): the controller is valid iff the
     * property's value is not None; then the spin box is bound to
     * "<object name>.<prop>" and takes the preferred unit of a quantity.
     */
    constructor(widget: SpinBox, objects: Objects, obj: Value, objName: string, prop: string,
                hasCallback: bool, preferredUnit: string)
      modifies widget
      ensures this.widget == widget && this.objects == objects && this.obj == obj && this.prop == prop
      ensures this.hasCallback == hasCallback
      ensures valid <==> PropertyValue(objects.attrs, obj, prop) != NoneValue
      ensures widget.binding == (if valid then Some(objName + "." + prop) else old(widget.binding))
      ensures widget.unit == (if PropertyValue(objects.attrs, obj, prop).Qty? then Some(preferredUnit) else old(widget.unit))
      ensures widget.expression == old(widget.expression) && widget.rawValue == old(widget.rawValue)
    {
      this.objects := objects;
      this.widget := widget;
      this.obj := obj;
      this.prop := prop;
      this.hasCallback := hasCallback;
      var attr := GetProperty(objects, obj, prop);
      if attr != NoneValue {
        if attr.Qty? {
          widget.unit := Some(preferredUnit);
        }
        widget.binding := Some(objName + "." + prop);
        this.valid := true;
      } else {
        this.valid := false;
      }
    }

    /** `expression` (PathGui.py:99-103): the bound expression, '' for an invalid controller. */
    function Expression(): (e: string)
      reads this, widget
      ensures !valid ==> e == ""
      ensures valid ==> e == widget.expression
    {
      if valid then widget.expression else ""
    }

    /**
     * `updateSpinBox` (PathGui.py:105-113): shows the given value, or the
     * property's own when none is given; an invalid controller does nothing.
     */
    method UpdateSpinBox(quantity: Option<Value>)
      modifies widget
      ensures valid ==> widget.rawValue == Some(Displayed(
                if quantity.Some? then quantity.value else PropertyValue(objects.attrs, obj, prop)))
      ensures !valid ==> widget.rawValue == old(widget.rawValue)
      ensures widget.unit == old(widget.unit) && widget.binding == old(widget.binding)
      ensures widget.expression == old(widget.expression)
    {
      if valid {
        var q: Value;
        if quantity.None? {
          q := GetProperty(objects, obj, prop);
        } else {
          q := quantity.value;
        }
        widget.rawValue := Some(Displayed(q));
      }
    }

    /**
     * `updateProperty` (PathGui.py:115-119): `updateInputField` with the
     * spin box's value when valid, None (and no change) otherwise.
     */
    method UpdateProperty(widgetValue: real, isRoughly: (real, real) -> bool) returns (r: Option<Result<bool>>)
      modifies objects
      ensures !valid ==> r.None? && objects.attrs == old(objects.attrs) && objects.events == old(objects.events)
      ensures valid ==> r.Some?
      ensures valid ==>
        var current := NumberOf(PropertyValue(old(objects.attrs), obj, prop));
        (r == Some(Ok(true)) <==> current.Some? && !isRoughly(current.value, widgetValue))
      ensures valid && r == Some(Ok(true)) ==>
        objects.attrs == AfterSet(old(objects.attrs), obj, prop, Num(widgetValue)) &&
        objects.events == old(objects.events) + UpdateEvents(old(objects.attrs), obj, prop, hasCallback)
      ensures r != Some(Ok(true)) ==> objects.attrs == old(objects.attrs)
    {
      if valid {
        var u := UpdateInputField(objects, obj, prop, widgetValue, isRoughly, hasCallback);
        return Some(u);
      }
      return None;
    }
  }
}
