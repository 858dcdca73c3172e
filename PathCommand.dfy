/**
 * Path::CommandPy (src/Mod/Path/App/CommandPyImp.cpp): the Python face of
 * a G-code command, a name and a map from single-letter parameter names
 * to numbers. Keys coming from Python are upper-cased, integers are stored
 * as numbers, anything else is a TypeError.
 *
 * Command.cpp is not part of this model: `setFromGCode` is an outcome the
 * caller hands in. Python objects are reduced to the kinds the code tests;
 * the conversion of a Python int to a double is taken as exact.
 */
module PathCommand {
  import opened Wrappers
  import opened Strings
  import opened StdMap

  /** A dictionary key: a str, or anything else. */
  datatype PyKey = StrKey(s: string) | OtherKey

  /** A dictionary value: an int, a float, or anything else. */
  datatype PyValue = PyInt(i: int) | PyFloat(x: real) | OtherValue

  const KeyError := "The dictionary can only contain string keys"
  const ValueError := "The dictionary can only contain number values"

  /** The number a value stands for, if it is an int or a float. */
  function NumberOf(v: PyValue): Option<real>
  {
    match v
    case PyInt(i) => Some(i as real)
    case PyFloat(x) => Some(x)
    case OtherValue => None
  }

  predicate Accepted(item: (PyKey, PyValue))
  {
    item.0.StrKey? && NumberOf(item.1).Some?
  }

  /** The key `item` writes: its text upper-cased. */
  function KeyOf(item: (PyKey, PyValue)): string
    requires item.0.StrKey?
  {
    ToUpper(item.0.s)
  }

  /** Whether some item writes `k`. */
  predicate Writes(items: seq<(PyKey, PyValue)>, k: string)
  {
    exists i :: 0 <= i < |items| && items[i].0.StrKey? && KeyOf(items[i]) == k
  }

  /**
   * The dictionary loop of `PyInit` and `setParameters`
   * (CommandPyImp.cpp:63-90, 139-168): items are written one by one under
   * their upper-cased key; the first item with a non-string key or a
   * non-number value stops the loop with a TypeError, the items before it
   * staying written.
   */
  function ApplyItems(es: Entries<real>, items: seq<(PyKey, PyValue)>): (r: (Entries<real>, Option<string>))
    requires Sorted(es)
    ensures Sorted(r.0)
    ensures r.1.None? <==> forall i :: 0 <= i < |items| ==> Accepted(items[i])
    ensures r.1.Some? ==> r.1.value == KeyError || r.1.value == ValueError
    decreases |items|
  {
    if items == [] then (es, None)
    else
      var item := items[0];
      if !item.0.StrKey? then (es, Some(KeyError))
      else if NumberOf(item.1).None? then (es, Some(ValueError))
      else
        assert forall i :: 1 <= i < |items| ==> items[i] == items[1..][i - 1];
        ApplyItems(Put(es, KeyOf(item), NumberOf(item.1).value), items[1..])
  }

  /**
   * The loop only adds or overwrites: every key present before is still
   * present, a key no item writes keeps its value, every key added is an
   * upper-cased item key, and without an error every item's key is present.
   */
  lemma {:induction false} ApplyOnlyAddsOrOverwrites(es: Entries<real>, items: seq<(PyKey, PyValue)>)
    requires Sorted(es)
    ensures var r := ApplyItems(es, items);
            AsMap(es).Keys <= AsMap(r.0).Keys
    ensures var r := ApplyItems(es, items);
            forall k :: k in AsMap(es) && !Writes(items, k) ==> AsMap(r.0)[k] == AsMap(es)[k]
    ensures var r := ApplyItems(es, items);
            forall k :: k in AsMap(r.0) && k !in AsMap(es) ==> Writes(items, k) && ToUpper(k) == k
    ensures var r := ApplyItems(es, items);
            r.1.None? ==> forall i :: 0 <= i < |items| ==> KeyOf(items[i]) in AsMap(r.0)
    decreases |items|
  {
    if items != [] && Accepted(items[0]) {
      var item := items[0];
      var k := KeyOf(item);
      ToUpperIdempotent(item.0.s);
      var es' := Put(es, k, NumberOf(item.1).value);
      ApplyOnlyAddsOrOverwrites(es', items[1..]);
      assert forall i :: 1 <= i < |items| ==> items[i] == items[1..][i - 1];
      forall k' | Writes(items[1..], k') ensures Writes(items, k') {
        var i :| 0 <= i < |items[1..]| && items[1..][i].0.StrKey? && KeyOf(items[1..][i]) == k';
        assert items[i + 1] == items[1..][i];
      }
      assert Writes(items, k) by { assert items[0].0.StrKey? && KeyOf(items[0]) == k; }
    }
  }

  /**
   * When every item is accepted, each written key holds the value of the
   * last item that writes it.
   */
  lemma {:induction false} LastItemWins(es: Entries<real>, items: seq<(PyKey, PyValue)>, i: nat)
    requires Sorted(es) && ApplyItems(es, items).1.None?
    requires i < |items|
    requires forall j :: i < j < |items| ==> KeyOf(items[j]) != KeyOf(items[i])
    ensures var m := AsMap(ApplyItems(es, items).0);
            KeyOf(items[i]) in m && m[KeyOf(items[i])] == NumberOf(items[i].1).value
    decreases |items|
  {
    ApplyCons(es, items);
    if i == 0 {
      LastItemWinsHead(es, items);
    } else {
      var es' := Put(es, KeyOf(items[0]), NumberOf(items[0].1).value);
      var rest := items[1..];
      assert rest[i - 1] == items[i];
      forall j | i - 1 < j < |rest| ensures KeyOf(rest[j]) != KeyOf(rest[i - 1]) {
        assert rest[j] == items[j + 1];
      }
      LastItemWins(es', rest, i - 1);
    }
  }

  /** An accepted first item is written, then the loop goes on with the others. */
  lemma ApplyCons(es: Entries<real>, items: seq<(PyKey, PyValue)>)
    requires Sorted(es) && items != [] && Accepted(items[0])
    ensures ApplyItems(es, items) == ApplyItems(Put(es, KeyOf(items[0]), NumberOf(items[0].1).value), items[1..])
  {
  }

  /** The first item's value survives when no later item writes its key. */
  lemma LastItemWinsHead(es: Entries<real>, items: seq<(PyKey, PyValue)>)
    requires Sorted(es) && ApplyItems(es, items).1.None? && items != []
    requires forall j :: 0 < j < |items| ==> KeyOf(items[j]) != KeyOf(items[0])
    ensures var m := AsMap(ApplyItems(es, items).0);
            KeyOf(items[0]) in m && m[KeyOf(items[0])] == NumberOf(items[0].1).value
  {
    assert Accepted(items[0]);
    var k := KeyOf(items[0]);
    var es' := Put(es, k, NumberOf(items[0].1).value);
    var rest := items[1..];
    ApplyCons(es, items);
    assert !Writes(rest, k) by {
      forall j | 0 <= j < |rest| ensures !(rest[j].0.StrKey? && KeyOf(rest[j]) == k) {
        assert rest[j] == items[j + 1];
      }
    }
    assert k in AsMap(es') && AsMap(es')[k] == NumberOf(items[0].1).value;
    ApplyOnlyAddsOrOverwrites(es', rest);
  }

  /** A command's name and parameters. */
  class Command {
    var name: string
    var parameters: Entries<real>

    predicate Valid()
      reads this
    {
      Sorted(parameters)
    }

    constructor()
      ensures Valid() && name == "" && parameters == []
    {
      name := "";
      parameters := [];
    }

    /** `setName` (CommandPyImp.cpp:120-125): the name is stored upper-cased. */
    method SetName(arg: string)
      modifies this
      ensures name == ToUpper(arg) && parameters == old(parameters)
    {
      name := ToUpper(arg);
    }

    /** Runs the dictionary loop over `items` on the parameters. */
    method Apply(items: seq<(PyKey, PyValue)>) returns (err: Option<string>)
      requires Valid()
      modifies this
      ensures Valid()
      ensures (parameters, err) == ApplyItems(old(parameters), items) && name == old(name)
    {
      var i := 0;
      while i < |items|
        invariant 0 <= i <= |items| && Valid() && name == old(name)
        invariant ApplyItems(old(parameters), items) == ApplyItems(parameters, items[i..])
      {
        var item := items[i];
        assert items[i..][0] == item && items[i..][1..] == items[i + 1..];
        ghost var before := parameters;
        if !item.0.StrKey? {
          return Some(KeyError);
        }
        var ckey := ToUpper(item.0.s);
        var cvalue: real;
        match item.1 {
          case PyInt(n) =>
            cvalue := n as real;
          case PyFloat(x) =>
            cvalue := x;
          case OtherValue =>
            return Some(ValueError);
        }
        parameters := Put(parameters, ckey, cvalue);
        assert ApplyItems(before, items[i..]) == ApplyItems(parameters, items[i + 1..]);
        i := i + 1;
      }
      err := None;
    }

    /**
     * `setParameters` (CommandPyImp.cpp:139-168): only adds or overwrites
     * keys; existing keys the argument does not name are kept.
     */
    method SetParameters(items: seq<(PyKey, PyValue)>) returns (err: Option<string>)
      requires Valid()
      modifies this
      ensures Valid()
      ensures (parameters, err) == ApplyItems(old(parameters), items) && name == old(name)
    {
      err := Apply(items);
    }

    /**
     * `PyInit` with a name and a parameter dictionary
     * (CommandPyImp.cpp:46-92): a non-empty name is parsed as G-code first
     * (`parsed` is what `setFromGCode` yields), a parse error giving -1;
     * then the dictionary is applied, a TypeError giving -1.
     */
    method Init(nameArg: string, items: seq<(PyKey, PyValue)>, parsed: Result<(string, Entries<real>)>)
      returns (r: int)
      requires Valid()
      requires parsed.Ok? ==> Sorted(parsed.value.1)
      modifies this
      ensures Valid()
      ensures r == 0 || r == -1
      ensures nameArg != "" && parsed.Err? ==> r == -1 && name == old(name) && parameters == old(parameters)
      ensures !(nameArg != "" && parsed.Err?) ==>
                var start := if nameArg != "" then parsed.value else (old(name), old(parameters));
                name == start.0 && parameters == ApplyItems(start.1, items).0 &&
                (r == 0 <==> ApplyItems(start.1, items).1.None?)
    {
      var sname := ToUpper(nameArg);
      if sname != [] {
        if parsed.Err? {
          return -1;
        }
        name, parameters := parsed.value.0, parsed.value.1;
      }
      var err := Apply(items);
      r := if err.Some? then -1 else 0;
    }

    /**
     * `setCustomAttributes` (CommandPyImp.cpp:246-266): a one-letter
     * attribute given a number is stored under the upper-case letter and
     * gives 1; anything else stores nothing and gives 0.
     */
    method SetCustomAttribute(attr: string, obj: PyValue) returns (r: int)
      requires Valid()
      modifies this
      ensures Valid() && name == old(name)
      ensures r == 1 <==> |attr| == 1 && IsAlphaAscii(attr[0]) && NumberOf(obj).Some?
      ensures r == 0 || r == 1
      ensures r == 1 ==> parameters == Put(old(parameters), ToUpper(attr), NumberOf(obj).value)
      ensures r == 0 ==> parameters == old(parameters)
    {
      if |attr| == 1 {
        if IsAlphaAscii(attr[0]) {
          var satt := ToUpper(attr);
          var cvalue: real;
          match obj {
            case PyInt(n) =>
              cvalue := n as real;
            case PyFloat(x) =>
              cvalue := x;
            case OtherValue =>
              return 0;
          }
          parameters := Put(parameters, satt, cvalue);
          return 1;
        }
      }
      return 0;
    }

    /**
     * `getCustomAttributes` (CommandPyImp.cpp:230-244): for a one-letter
     * attribute, the value under its upper-case letter or None; any other
     * name is not handled here.
     */
    function CustomAttribute(attr: string): (r: Attribute)
      requires Valid()
      reads this
      ensures r.NotHandled? <==> !(|attr| == 1 && IsAlphaAscii(attr[0]))
      ensures r.FloatValue? <==> !r.NotHandled? && ToUpper(attr) in AsMap(parameters)
      ensures r.FloatValue? ==> r.x == AsMap(parameters)[ToUpper(attr)]
    {
      if |attr| == 1 && IsAlphaAscii(attr[0]) then
        match Get(parameters, ToUpper(attr))
        case Some(x) => FloatValue(x)
        case None => NoneValue
      else NotHandled
    }

    /**
     * `representation` (CommandPyImp.cpp:22-36): "Command NAME [ K:v ... ]",
     * entries in key order; `fmt` is the five-digit stream formatting.
     */
    function Representation(fmt: real -> string): (r: string)
      reads this
      ensures IsPrefix("Command " + name + " [", r) && |r| >= 2 && r[|r| - 2..] == " ]"
      ensures forall i :: 0 <= i < |parameters| ==>
                ContainsAt(r, EntryText(parameters[i], fmt), |"Command " + name + " ["| + |EntriesText(parameters[..i], fmt)|)
    {
      var head := "Command " + name + " [";
      Framed(head, parameters, fmt);
      head + EntriesText(parameters, fmt) + " ]"
    }
  }

  /** The entries framed by a head and " ]": each entry sits after the head and the entries before it. */
  lemma Framed(head: string, es: Entries<real>, fmt: real -> string)
    ensures var r := head + EntriesText(es, fmt) + " ]";
            IsPrefix(head, r) && |r| >= 2 && r[|r| - 2..] == " ]"
    ensures var r := head + EntriesText(es, fmt) + " ]";
            forall i :: 0 <= i < |es| ==>
              ContainsAt(r, EntryText(es[i], fmt), |head| + |EntriesText(es[..i], fmt)|)
  {
    var body := EntriesText(es, fmt);
    var r := head + body + " ]";
    assert r[..|head|] == head;
    forall i | 0 <= i < |es|
      ensures ContainsAt(r, EntryText(es[i], fmt), |head| + |EntriesText(es[..i], fmt)|)
    {
      EntryPrintedInOrder(es, i, fmt);
      ContainsAtShift(head, body, " ]", EntryText(es[i], fmt), |EntriesText(es[..i], fmt)|);
    }
  }

  lemma ContainsAtShift(head: string, body: string, tail: string, e: string, at: nat)
    requires ContainsAt(body, e, at)
    ensures ContainsAt(head + body + tail, e, |head| + at)
  {
    assert (head + body + tail)[|head| + at..|head| + at + |e|] == body[at..at + |e|];
  }

  /** What reading a custom attribute yields. */
  datatype Attribute = NotHandled | NoneValue | FloatValue(x: real)

  /** One entry as `representation` prints it: " K:v". */
  function EntryText(e: (string, real), fmt: real -> string): string
  {
    " " + e.0 + ":" + fmt(e.1)
  }

  /** The entries printed one after another. */
  function EntriesText(es: Entries<real>, fmt: real -> string): string
  {
    if es == [] then "" else EntryText(es[0], fmt) + EntriesText(es[1..], fmt)
  }

  /** Printing two runs of entries prints the first, then the second. */
  lemma {:induction false} EntriesTextAppend(a: Entries<real>, b: Entries<real>, fmt: real -> string)
    ensures EntriesText(a + b, fmt) == EntriesText(a, fmt) + EntriesText(b, fmt)
  {
    if a != [] {
      assert (a + b)[1..] == a[1..] + b;
      assert (a + b)[0] == a[0];
      EntriesTextAppend(a[1..], b, fmt);
    } else {
      assert a + b == b;
    }
  }

  /**
   * Entry i is printed right after the entries before it, so the entries
   * appear in the list's (key) order.
   */
  lemma EntryPrintedInOrder(es: Entries<real>, i: nat, fmt: real -> string)
    requires i < |es|
    ensures ContainsAt(EntriesText(es, fmt), EntryText(es[i], fmt), |EntriesText(es[..i], fmt)|)
  {
    assert es == es[..i] + es[i..];
    EntriesTextAppend(es[..i], es[i..], fmt);
    var before := EntriesText(es[..i], fmt);
    var e := EntryText(es[i], fmt);
    var after := EntriesText(es[i..], fmt);
    assert after == e + EntriesText(es[i..][1..], fmt);
    assert (before + after)[|before|..|before| + |e|] == after[..|e|];
  }

  /**
   * Writing a custom attribute and reading it back gives the number
   * written, under either letter case.
   */
  lemma CustomAttributeRoundTrip(es: Entries<real>, attr: string, obj: PyValue)
    requires Sorted(es) && |attr| == 1 && IsAlphaAscii(attr[0]) && NumberOf(obj).Some?
    ensures var es' := Put(es, ToUpper(attr), NumberOf(obj).value);
            Get(es', ToUpper(attr)) == Some(NumberOf(obj).value) &&
            Get(es', ToUpper(ToLower(attr))) == Some(NumberOf(obj).value)
  {
    UpperOfLower(attr);
    var es' := Put(es, ToUpper(attr), NumberOf(obj).value);
    assert AsMap(es') == AsMap(es)[ToUpper(attr) := NumberOf(obj).value];
  }
}
