/**
 * Gui::DockWnd::SelectionView (src/Gui/SelectionView.cpp): the dock window
 * listing the current selection as "Doc.Obj (Label)" lines, with a search
 * box that lists the active document's objects by label instead.
 *
 * The selection singleton is seen through the messages it sends; each
 * message carries the label its object has in the document. The Python
 * commands the buttons run are returned as text.
 */
module SelectionView {
  import opened Wrappers
  import opened Strings

  /** One selected element: document, object, sub-element (empty for none) and the object's label. */
  datatype SelEntry = SelEntry(docName: string, objName: string, subName: string, objLabel: string)

  /** A list item: its text and the names kept as user data. */
  datatype Item = Item(text: string, data: seq<string>)

  /** The selection messages the view reacts to; any other kind only refreshes the count. */
  datatype Message =
    | AddSelection(entry: SelEntry)
    | ClrSelection
    | RmvSelection(entry: SelEntry)
    | SetSelection(entries: seq<SelEntry>)
    | OtherMessage

  /**
   * The text of an item (SelectionView.cpp:95-108): "Doc.Obj (Label)",
   * or "Doc.Obj.Sub (Label)" when there is a sub-element.
   */
  function ItemText(e: SelEntry): (r: string)
    ensures IsPrefix(e.docName + "." + e.objName, r)
    ensures e.subName != "" ==> IsPrefix(e.docName + "." + e.objName + "." + e.subName + " (", r)
    ensures e.subName == "" ==> IsPrefix(e.docName + "." + e.objName + " (", r)
    ensures r[|r| - 1] == ')'
  {
    var named := e.docName + "." + e.objName + (if e.subName != "" then "." + e.subName else "");
    var r := named + " (" + e.objLabel + ")";
    assert r[..|e.docName + "." + e.objName|] == e.docName + "." + e.objName;
    assert e.subName != "" ==> r[..|e.docName + "." + e.objName + "." + e.subName + " ("|] ==
                               e.docName + "." + e.objName + "." + e.subName + " (";
    assert e.subName == "" ==> r[..|e.docName + "." + e.objName + " ("|] == e.docName + "." + e.objName + " (";
    r
  }

  /** The item for an entry: its text, with [doc, obj] or [doc, obj, sub] as user data. */
  function ItemOf(e: SelEntry): (r: Item)
    ensures |r.data| == (if e.subName != "" then 3 else 2)
    ensures r.data[0] == e.docName && r.data[1] == e.objName
  {
    Item(ItemText(e), [e.docName, e.objName] + (if e.subName != "" then [e.subName] else []))
  }

  /** How many items show this text. */
  function CountText(items: seq<Item>, text: string): (r: nat)
    ensures r <= |items|
    ensures r == 0 <==> forall k :: 0 <= k < |items| ==> items[k].text != text
  {
    if items == [] then 0
    else (if items[0].text == text then 1 else 0) + CountText(items[1..], text)
  }

  /** The items without those showing this text. */
  function DropText(items: seq<Item>, text: string): (r: seq<Item>)
    ensures |r| + CountText(items, text) == |items|
    ensures forall k :: 0 <= k < |r| ==> r[k].text != text && r[k] in items
  {
    if items == [] then []
    else if items[0].text == text then DropText(items[1..], text)
    else [items[0]] + DropText(items[1..], text)
  }

  /** Items that do not show the text are all kept. */
  lemma {:induction false} DropTextAbsent(items: seq<Item>, text: string)
    requires CountText(items, text) == 0
    ensures DropText(items, text) == items
  {
    if items != [] {
      DropTextAbsent(items[1..], text);
    }
  }

  /**
   * The list after a selection message (SelectionView.cpp:82-171): an added
   * element is appended; a cleared selection empties the list; a removed
   * element's item is deleted only when exactly one item shows its text;
   * a new selection replaces the list by its elements in order.
   */
  function AfterMessage(items: seq<Item>, m: Message): (r: seq<Item>)
  {
    match m
    case AddSelection(e) => items + [ItemOf(e)]
    case ClrSelection => []
    case RmvSelection(e) =>
      if CountText(items, ItemText(e)) == 1 then DropText(items, ItemText(e)) else items
    case SetSelection(es) => ItemsOf(es)
    case OtherMessage => items
  }

  function ItemsOf(es: seq<SelEntry>): (r: seq<Item>)
    ensures |r| == |es| && forall k :: 0 <= k < |es| ==> r[k] == ItemOf(es[k])
  {
    seq(|es|, k requires 0 <= k < |es| => ItemOf(es[k]))
  }

  /** Removing an element whose text shows twice or more, or not at all, leaves the list alone. */
  lemma RemovalNeedsUniqueMatch(items: seq<Item>, e: SelEntry)
    ensures CountText(items, ItemText(e)) != 1 ==> AfterMessage(items, RmvSelection(e)) == items
    ensures CountText(items, ItemText(e)) == 1 ==>
              |AfterMessage(items, RmvSelection(e))| == |items| - 1 &&
              CountText(AfterMessage(items, RmvSelection(e)), ItemText(e)) == 0
  {
    var t := ItemText(e);
    if CountText(items, t) == 1 {
      var r := DropText(items, t);
      assert forall k :: 0 <= k < |r| ==> r[k].text != t;
    }
  }

  /** The row of the one item showing the text; dropping the text removes just that row. */
  function TextRow(items: seq<Item>, text: string): (k: nat)
    requires CountText(items, text) == 1
    ensures k < |items| && items[k].text == text
    ensures DropText(items, text) == items[..k] + items[k + 1..]
  {
    if items[0].text == text then
      DropFirstRow(items, text);
      0
    else
      var k := TextRow(items[1..], text);
      DropLaterRow(items, text, k);
      k + 1
  }

  /** The text shows first: dropping it removes row 0 alone. */
  lemma DropFirstRow(items: seq<Item>, text: string)
    requires CountText(items, text) == 1 && items[0].text == text
    ensures DropText(items, text) == items[..0] + items[1..]
  {
    DropTextAbsent(items[1..], text);
    assert items[..0] + items[1..] == items[1..];
  }

  /** The text shows later: dropping it keeps row 0 and removes row `k + 1`. */
  lemma DropLaterRow(items: seq<Item>, text: string, k: nat)
    requires items != [] && items[0].text != text && k + 1 < |items|
    requires DropText(items[1..], text) == items[1..][..k] + items[1..][k + 1..]
    ensures DropText(items, text) == items[..k + 1] + items[k + 2..]
  {
    var rest := items[1..];
    var d := DropText(rest, text);
    assert DropText(items, text) == [items[0]] + d;
    assert items[..k + 1] == [items[0]] + rest[..k];
    assert items[k + 2..] == rest[k + 1..];
    assert [items[0]] + d == ([items[0]] + rest[..k]) + rest[k + 1..];
  }

  /**
   * The current row once row `k` is deleted and `count` rows remain. The
   * current item keeps its place among the others; when it is the row
   * deleted, a single-selection list view moves it to the next row, or to
   * the previous one when the last row went, and to none on an empty list.
   */
  function RowAfterRemoval(current: int, k: nat, count: nat): int
  {
    if current < k then current
    else if current > k then current - 1
    else if k < count then k
    else k - 1
  }

  /**
   * The current row after a message: deleting the list clears it, an
   * appended item leaves it alone, and a deleted item moves it as above.
   */
  function CurrentAfterMessage(items: seq<Item>, current: int, m: Message): int
  {
    match m
    case ClrSelection => -1
    case SetSelection(_) => -1
    case RmvSelection(e) =>
      if CountText(items, ItemText(e)) == 1 then RowAfterRemoval(current, TextRow(items, ItemText(e)), |items| - 1)
      else current
    case AddSelection(_) => current
    case OtherMessage => current
  }

  /**
   * A message keeps the current row inside the list, and the current item
   * stays current through every message that does not delete it.
   */
  lemma CurrentFollowsItem(items: seq<Item>, current: int, m: Message)
    requires -1 <= current < |items|
    ensures var r := AfterMessage(items, m);
            var c := CurrentAfterMessage(items, current, m);
            -1 <= c < |r| &&
            (current != -1 && (m.AddSelection? || m.OtherMessage? ||
                               (m.RmvSelection? && items[current].text != ItemText(m.entry))) ==>
               c != -1 && r[c] == items[current]) &&
            (c == -1 ==> current == -1 || r == [] || m.ClrSelection? || m.SetSelection?)
  {
    if m.RmvSelection? && CountText(items, ItemText(m.entry)) == 1 {
      var k := TextRow(items, ItemText(m.entry));
      var r := items[..k] + items[k + 1..];
      if current != -1 && current < k {
        assert r[current] == items[current];
      } else if current > k {
        assert r[current - 1] == items[current];
      }
    }
  }

  lemma {:induction false} CountTextAppend(items: seq<Item>, more: seq<Item>, text: string)
    ensures CountText(items + more, text) == CountText(items, text) + CountText(more, text)
  {
    if items != [] {
      assert (items + more)[1..] == items[1..] + more;
      CountTextAppend(items[1..], more, text);
    } else {
      assert items + more == more;
    }
  }

  lemma {:induction false} DropTextAppend(items: seq<Item>, more: seq<Item>, text: string)
    ensures DropText(items + more, text) == DropText(items, text) + DropText(more, text)
  {
    if items != [] {
      var all := items + more;
      assert all[0] == items[0] && all[1..] == items[1..] + more;
      DropTextAppend(items[1..], more, text);
      if items[0].text != text {
        assert DropText(all, text) == [items[0]] + (DropText(items[1..], text) + DropText(more, text));
      }
    } else {
      assert items + more == more;
    }
  }

  /**
   * Adding an element whose text the list does not show yet and removing
   * it again gives back the list.
   */
  lemma AddThenRemove(items: seq<Item>, e: SelEntry)
    requires CountText(items, ItemText(e)) == 0
    ensures AfterMessage(AfterMessage(items, AddSelection(e)), RmvSelection(e)) == items
  {
    var t := ItemText(e);
    CountTextAppend(items, [ItemOf(e)], t);
    DropTextAppend(items, [ItemOf(e)], t);
    DropTextAbsent(items, t);
    assert CountText([ItemOf(e)], t) == 1;
    assert DropText([ItemOf(e)], t) == [];
  }

  /** An object of the active document: its name and label. */
  datatype DocEntry = DocEntry(objName: string, objLabel: string)

  /** The active document: its name and its objects in document order. */
  datatype ActiveDoc = ActiveDoc(name: string, objects: seq<DocEntry>)

  /** The objects whose label contains the text, ignoring case, in document order. */
  function Found(objects: seq<DocEntry>, text: string): seq<DocEntry>
  {
    if objects == [] then []
    else
      var o := objects[|objects| - 1];
      Found(objects[..|objects| - 1], text) + (if ContainsIgnoringCase(o.objLabel, text) then [o] else [])
  }

  /** The hits are the objects whose label contains the text, and all of them. */
  lemma {:induction false} FoundSelects(objects: seq<DocEntry>, text: string)
    ensures var r := Found(objects, text);
            forall k :: 0 <= k < |r| ==> r[k] in objects && ContainsIgnoringCase(r[k].objLabel, text)
    ensures var r := Found(objects, text);
            forall o :: o in objects && ContainsIgnoringCase(o.objLabel, text) ==> o in r
  {
    if objects != [] {
      var init := objects[..|objects| - 1];
      var last := objects[|objects| - 1];
      FoundSelects(init, text);
      assert objects == init + [last];
      var r := Found(objects, text);
      var f := Found(init, text);
      forall k | 0 <= k < |r|
        ensures r[k] in objects && ContainsIgnoringCase(r[k].objLabel, text)
      {
        if k < |f| {
          assert r[k] == f[k];
        }
      }
      forall o | o in objects && ContainsIgnoringCase(o.objLabel, text)
        ensures o in r
      {
        if o != last {
          assert o in init;
          assert o in f;
        }
      }
    }
  }

  /** The item a search hit shows: "Doc.Obj (Label)" with [doc, obj] as user data. */
  function HitItem(doc: string, o: DocEntry): (r: Item)
    ensures r == ItemOf(SelEntry(doc, o.objName, "", o.objLabel))
  {
    Item(doc + "." + o.objName + " (" + o.objLabel + ")", [doc, o.objName])
  }

  /** The items the hits show, in order. */
  function HitItems(doc: string, hits: seq<DocEntry>): (r: seq<Item>)
    ensures |r| == |hits| && forall k :: 0 <= k < |hits| ==> r[k] == HitItem(doc, hits[k])
  {
    seq(|hits|, k requires 0 <= k < |hits| => HitItem(doc, hits[k]))
  }

  /** The names of the hits, in order. */
  function HitNames(hits: seq<DocEntry>): (r: seq<string>)
    ensures |r| == |hits| && forall k :: 0 <= k < |hits| ==> r[k] == hits[k].objName
  {
    seq(|hits|, k requires 0 <= k < |hits| => hits[k].objName)
  }

  /** Reading one more object: a hit is listed after the earlier ones, anything else changes nothing. */
  lemma FoundStep(objects: seq<DocEntry>, text: string, i: nat, doc: string)
    requires i < |objects|
    ensures var o := objects[i];
            var before := Found(objects[..i], text);
            if ContainsIgnoringCase(o.objLabel, text) then
              Found(objects[..i + 1], text) == before + [o] &&
              HitItems(doc, before + [o]) == HitItems(doc, before) + [HitItem(doc, o)] &&
              HitNames(before + [o]) == HitNames(before) + [o.objName]
            else Found(objects[..i + 1], text) == before
  {
    assert objects[..i + 1][..i] == objects[..i];
  }

  /** Keeping everything found keeps the document order: found objects form a subsequence. */
  lemma {:induction false} FoundIsSubsequence(objects: seq<DocEntry>, text: string, i: nat, j: nat)
    requires i < j < |Found(objects, text)|
    ensures exists p, q :: 0 <= p < q < |objects| && objects[p] == Found(objects, text)[i] && objects[q] == Found(objects, text)[j]
  {
    var init := objects[..|objects| - 1];
    var f := Found(init, text);
    var r := Found(objects, text);
    if j < |f| {
      FoundIsSubsequence(init, text, i, j);
      var p, q :| 0 <= p < q < |init| && init[p] == f[i] && init[q] == f[j];
      assert objects[p] == r[i] && objects[q] == r[j];
    } else {
      FoundSelects(init, text);
      assert r[i] == f[i] && f[i] in init;
      var p :| 0 <= p < |init| && init[p] == f[i];
      assert objects[p] == r[i] && objects[|objects| - 1] == r[j];
    }
  }

  /** The dock window's list, count label, current row and search hits. */
  class View {
    var items: seq<Item>
    var countShown: nat
    var current: int
    var searchList: seq<string>

    /** The count label shows the number of items; the current row is one of them or -1. */
    predicate Valid()
      reads this
    {
      countShown == |items| && -1 <= current < |items|
    }

    constructor()
      ensures Valid() && items == [] && searchList == [] && current == -1
    {
      items := [];
      countShown := 0;
      current := -1;
      searchList := [];
    }

    /**
     * `OnChange` (SelectionView.cpp:82-171): the list after the message,
     * and the count label set to its length.
     */
    method OnChange(m: Message)
      requires Valid()
      modifies this
      ensures Valid()
      ensures items == AfterMessage(old(items), m)
      ensures current == CurrentAfterMessage(old(items), old(current), m)
      ensures searchList == old(searchList)
    {
      match m {
        case AddSelection(e) =>
          items := items + [ItemOf(e)];
        case ClrSelection =>
          items := [];
          current := -1;
        case RmvSelection(e) =>
          var t := ItemText(e);
          if CountText(items, t) == 1 {
            var k := TextRow(items, t);
            items := DropText(items, t);
            current := RowAfterRemoval(current, k, |items|);
          }
        case SetSelection(es) =>
          items := [];
          current := -1;
          var i := 0;
          while i < |es|
            invariant 0 <= i <= |es|
            invariant items == ItemsOf(es[..i])
            invariant searchList == old(searchList) && current == -1
          {
            items := items + [ItemOf(es[i])];
            i := i + 1;
          }
          assert es[..i] == es;
        case OtherMessage =>
      }
      countShown := |items|;
    }

    /** The user picks a row: it becomes current, and a row outside the list leaves none. */
    method SetCurrent(row: int)
      requires Valid()
      modifies this
      ensures Valid()
      ensures current == (if 0 <= row < |items| then row else -1)
      ensures items == old(items) && countShown == old(countShown) && searchList == old(searchList)
    {
      current := if 0 <= row < |items| then row else -1;
    }

    /**
     * `search` (SelectionView.cpp:173-206): nothing for empty text;
     * otherwise the hits are forgotten and, with an active document, the
     * list shows that document's objects whose label contains the text,
     * ignoring case, in document order.
     */
    method Search(text: string, doc: Option<ActiveDoc>)
      requires Valid()
      modifies this
      ensures Valid()
      ensures text == "" ==> items == old(items) && searchList == old(searchList)
      ensures text != "" && doc.None? ==> items == old(items) && searchList == []
      ensures text == "" || doc.None? ==> current == old(current)
      ensures text != "" && doc.Some? ==> current == -1
      ensures text != "" && doc.Some? ==>
                var hits := Found(doc.value.objects, text);
                items == HitItems(doc.value.name, hits) && searchList == HitNames(hits)
    {
      if text != "" {
        searchList := [];
        if doc.Some? {
          var objects := doc.value.objects;
          items := [];
          current := -1;
          var i := 0;
          while i < |objects|
            invariant 0 <= i <= |objects|
            invariant current == -1
            invariant items == HitItems(doc.value.name, Found(objects[..i], text))
            invariant searchList == HitNames(Found(objects[..i], text))
          {
            var o := objects[i];
            FoundStep(objects, text, i, doc.value.name);
            if ContainsIgnoringCase(o.objLabel, text) {
              searchList := searchList + [o.objName];
              items := items + [HitItem(doc.value.name, o)];
            }
            i := i + 1;
          }
          assert objects[..i] == objects;
          countShown := |items|;
        }
      }
    }

    /**
     * `select` (SelectionView.cpp:223-238) of the current item: the
     * commands run, none when there is no current item or it keeps fewer
     * than two names.
     */
    method Select() returns (commands: seq<string>)
      requires Valid()
      ensures current == -1 || |items[current].data| < 2 ==> commands == []
      ensures current != -1 && |items[current].data| >= 2 ==>
                commands == ["Gui.Selection.clearSelection()",
                             "Gui.Selection.addSelection(" + ObjectExpr(items[current].data) + ")"]
    {
      if current == -1 {
        return [];
      }
      var elements := items[current].data;
      if |elements| < 2 {
        return [];
      }
      commands := ["Gui.Selection.clearSelection()", "Gui.Selection.addSelection(" + ObjectExpr(elements) + ")"];
    }

    /** `deselect` (SelectionView.cpp:240-252): the same guard, one removal command. */
    method Deselect() returns (commands: seq<string>)
      requires Valid()
      ensures current == -1 || |items[current].data| < 2 ==> commands == []
      ensures current != -1 && |items[current].data| >= 2 ==>
                commands == ["Gui.Selection.removeSelection(" + ObjectExpr(items[current].data) + ")"]
    {
      if current == -1 {
        return [];
      }
      var elements := items[current].data;
      if |elements| < 2 {
        return [];
      }
      commands := ["Gui.Selection.removeSelection(" + ObjectExpr(elements) + ")"];
    }

    /** `touch` (SelectionView.cpp:266-276): the same guard, one touch command. */
    method Touch() returns (commands: seq<string>)
      requires Valid()
      ensures current == -1 || |items[current].data| < 2 ==> commands == []
      ensures current != -1 && |items[current].data| >= 2 ==>
                commands == [ObjectExpr(items[current].data) + ".touch()"]
    {
      if current == -1 {
        return [];
      }
      var elements := items[current].data;
      if |elements| < 2 {
        return [];
      }
      commands := [ObjectExpr(elements) + ".touch()"];
    }
  }

  /** `App.getDocument("doc").getObject("obj")` for the first two names of an item. */
  function ObjectExpr(elements: seq<string>): (r: string)
    requires |elements| >= 2
    ensures Contains(r, "\"" + elements[1] + "\")")
  {
    var r := "App.getDocument(\"" + elements[0] + "\").getObject(\"" + elements[1] + "\")";
    var tail := "\"" + elements[1] + "\")";
    assert r[|r| - |tail|..] == tail;
    assert ContainsAt(r, tail, |r| - |tail|);
    r
  }

  /** The module part of a type name: the text before its first ':', or "" without one. */
  function ModuleOf(typeName: string): (r: string)
    ensures ':' in typeName ==> r == typeName[..IndexOf(typeName, ':')] && ':' !in r
    ensures ':' !in typeName ==> r == ""
  {
    if ':' in typeName then typeName[..IndexOf(typeName, ':')] else ""
  }

  /** The first type of the ancestry whose module is "App", or the ancestry's length. */
  function FirstAppType(ancestry: seq<string>): (k: nat)
    ensures k <= |ancestry|
    ensures k < |ancestry| ==> ModuleOf(ancestry[k]) == "App"
    ensures forall j :: 0 <= j < k ==> ModuleOf(ancestry[j]) != "App"
  {
    if ancestry == [] then 0
    else if ModuleOf(ancestry[0]) == "App" then 0
    else 1 + FirstAppType(ancestry[1..])
  }

  /**
   * `getModule` (SelectionView.cpp:336-358) on a type's ancestry, the
   * type first and its parents after it (empty for an unknown type): the
   * module of the last type before the first "App" one, "" when the type
   * itself is an App type.
   */
  method GetModule(ancestry: seq<string>) returns (prefix: string)
    ensures var k := FirstAppType(ancestry);
            prefix == (if k == 0 then "" else ModuleOf(ancestry[k - 1]))
    ensures prefix != "App"
  {
    prefix := "";
    var i := 0;
    while i < |ancestry|
      invariant 0 <= i <= FirstAppType(ancestry)
      invariant prefix == (if i == 0 then "" else ModuleOf(ancestry[i - 1]))
      invariant prefix != "App"
    {
      FirstAppTypeAt(ancestry, i);
      var moduleName := ModuleOf(ancestry[i]);
      if moduleName != "App" {
        prefix := moduleName;
      } else {
        break;
      }
      i := i + 1;
    }
  }

  /** Before the first App type, a position holds an App type exactly when it is that first one. */
  lemma FirstAppTypeAt(ancestry: seq<string>, i: nat)
    requires i < |ancestry| && i <= FirstAppType(ancestry)
    ensures ModuleOf(ancestry[i]) == "App" <==> i == FirstAppType(ancestry)
  {
  }

  /** An object's geometry as `supportPart` sees it: none, or its element type names. */
  datatype Geometry = NotGeoFeature | NoGeometry | ElementTypes(types: seq<string>)

  /**
   * `supportPart` (SelectionView.cpp:375-391): the part name starts with
   * one of the element type names of the object's geometry.
   */
  function SupportPart(g: Geometry, part: string): (r: bool)
    ensures r <==> g.ElementTypes? && exists k :: 0 <= k < |g.types| && IsPrefix(g.types[k], part)
  {
    g.ElementTypes? && StartsWithAny(g.types, part)
  }

  function StartsWithAny(types: seq<string>, part: string): (r: bool)
    ensures r <==> exists k :: 0 <= k < |types| && IsPrefix(types[k], part)
  {
    if types == [] then false
    else if IsPrefix(types[0], part) then true
    else
      assert forall k :: 1 <= k < |types| ==> types[k] == types[1..][k - 1];
      StartsWithAny(types[1..], part)
  }
}
