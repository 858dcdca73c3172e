/**
 * View commands of src/Gui/CommandView.cpp:
 * - Std_FreezeViews, which keeps up to 50 camera settings in hidden or
 *   visible "Restore view &N" actions;
 * - Std_DrawStyle's icon update;
 * - Std_ToggleVisibility's group filter;
 * - Std_ViewIvIssueCamPos's camera-string cleanup.
 *
 * The 3D view is seen through the camera text it hands back. The XML file
 * is seen through what was parsed from it, and the message boxes through
 * the answer given. A shortcut Ctrl+1+k is written as k.
 */
module CommandView {
  import opened Wrappers
  import opened Strings

  /** `maxViews`: the number of view slots. */
  const MaxViews := 50

  /** The number of actions before the first view slot (`offset`). */
  const SlotOffset := 6

  /** A slot's text: blank, or "Restore view &N". */
  datatype SlotText = Blank | RestoreView(n: nat)

  /** One view action: visibility, text, the camera settings in its tool tip, its shortcut. */
  datatype Slot = Slot(visible: bool, text: SlotText, toolTip: string, shortcut: Option<nat>)

  /** A freshly created, hidden slot. */
  const EmptySlot := Slot(false, Blank, "", None)

  /** The first hidden slot, the one a freeze fills. */
  function FirstHidden(s: seq<Slot>): (r: Option<nat>)
    ensures r.Some? ==> r.value < |s| && !s[r.value].visible
    ensures r.Some? ==> forall k :: 0 <= k < r.value ==> s[k].visible
    ensures r.None? ==> forall k :: 0 <= k < |s| ==> s[k].visible
  {
    if s == [] then None
    else if !s[0].visible then Some(0)
    else match FirstHidden(s[1..]) {
      case None => None
      case Some(i) => Some(i + 1)
    }
  }

  /** Slot `index` holding a view: visible, numbered index + 1, with a shortcut when index < 9. */
  function Filled(prior: Slot, index: nat, camera: string): Slot
  {
    Slot(true, RestoreView(index + 1), camera, if index < 9 then Some(index) else prior.shortcut)
  }

  /** Exactly the first `n` slots are visible. */
  predicate VisiblePrefix(s: seq<Slot>, n: int)
  {
    forall k :: 0 <= k < |s| ==> (s[k].visible <==> k < n)
  }

  /** With the views kept as a prefix, the first hidden slot is the one right after them. */
  lemma FirstHiddenAfterPrefix(s: seq<Slot>, n: nat)
    requires n <= |s| && VisiblePrefix(s, n)
    ensures FirstHidden(s) == (if n < |s| then Some(n) else None)
  {
    var h := FirstHidden(s);
    if n < |s| {
      assert !s[n].visible;
      assert h.Some? ==> h.value == n;
    } else {
      assert forall k :: 0 <= k < |s| ==> s[k].visible;
    }
  }

  /**
   * The text a saved view is written with (CommandView.cpp:309-321): the
   * tool tip without its first line, the other lines joined by spaces;
   * empty when there is at most one line.
   */
  function SavedPosition(data: string): string
  {
    if data == [] then ""
    else
      var lines := Split(data, '\n');
      if |lines| > 1 then Join(lines[1..], " ") else ""
  }

  /** The settings written for the views, up to the first hidden slot. */
  function SavedSettings(s: seq<Slot>): (r: seq<string>)
    ensures |r| <= |s|
    ensures forall k :: 0 <= k < |r| ==> s[k].visible && r[k] == SavedPosition(s[k].toolTip)
  {
    if s == [] || !s[0].visible then []
    else
      var rest := SavedSettings(s[1..]);
      assert forall k :: 0 <= k < |rest| ==> s[k + 1] == s[1..][k];
      [SavedPosition(s[0].toolTip)] + rest
  }

  /** A visible slot contributes its setting, then the rest follow. */
  lemma SavedSettingsStep(s: seq<Slot>, k: nat, settings: seq<string>)
    requires k < |s| && s[k].visible
    requires settings + SavedSettings(s[k..]) == SavedSettings(s)
    ensures (settings + [SavedPosition(s[k].toolTip)]) + SavedSettings(s[k + 1..]) == SavedSettings(s)
  {
    assert s[k..][1..] == s[k + 1..];
    assert SavedSettings(s[k..]) == [SavedPosition(s[k].toolTip)] + SavedSettings(s[k + 1..]);
  }

  /** The settings stop at the end or at the first hidden slot: those collected are all of them. */
  lemma SavedSettingsStop(s: seq<Slot>, k: nat, settings: seq<string>)
    requires k <= |s| && (k == |s| || !s[k].visible)
    requires settings + SavedSettings(s[k..]) == SavedSettings(s)
    ensures settings == SavedSettings(s)
  {
    if k < |s| {
      assert s[k..][0] == s[k];
    }
    assert SavedSettings(s[k..]) == [];
    assert settings + [] == settings;
  }

  /** With the views kept as a prefix, every kept view is written, and no other. */
  lemma {:induction false} SavedSettingsOfPrefix(s: seq<Slot>, n: nat)
    requires n <= |s| && VisiblePrefix(s, n)
    ensures |SavedSettings(s)| == n
  {
    if n > 0 {
      assert VisiblePrefix(s[1..], n - 1);
      SavedSettingsOfPrefix(s[1..], n - 1);
    } else if s != [] {
      assert !s[0].visible;
    }
  }

  /** The parsed content of a views file: its root tag, schema version (if numeric) and cameras. */
  datatype ViewsFile = ViewsFile(rootTag: string, schemaVersion: Option<int>, cameras: seq<string>)

  /** The slots after restoring `n` cameras: those filled in order, all others hidden. */
  function Restored(s: seq<Slot>, cameras: seq<string>, n: nat): (r: seq<Slot>)
    requires n <= |s| && n <= |cameras|
    ensures |r| == |s| && VisiblePrefix(r, n)
    ensures forall k :: 0 <= k < n ==> r[k] == Filled(s[k], k, cameras[k])
    ensures forall k :: n <= k < |s| ==> r[k] == s[k].(visible := false)
  {
    seq(|s|, k requires 0 <= k < |s| => if k < n then Filled(s[k], k, cameras[k]) else s[k].(visible := false))
  }

  /** Std_FreezeViews (CommandView.cpp:172-435). */
  class FreezeViews {
    const slots: array<Slot>
    var savedViews: int
    var separatorVisible: bool
    var saveEnabled: bool
    var freezeEnabled: bool
    var clearEnabled: bool

    /** The kept views are exactly the visible slots, and they come first. */
    predicate Valid()
      reads this, slots
    {
      slots.Length == MaxViews && 0 <= savedViews <= MaxViews && VisiblePrefix(slots[..], savedViews)
    }

    /** The command with its action created (CommandView.cpp:203-241): 50 hidden slots. */
    constructor()
      ensures Valid() && savedViews == 0 && fresh(slots)
      ensures forall k :: 0 <= k < slots.Length ==> slots[k] == EmptySlot
    {
      slots := new Slot[MaxViews](_ => EmptySlot);
      savedViews := 0;
      separatorVisible := false;
      saveEnabled := false;
      freezeEnabled := true;
      clearEnabled := false;
    }

    /**
     * Freeze (iMsg 3, CommandView.cpp:255-276): the first hidden slot takes
     * the camera and becomes visible, and one more view is counted; with
     * every slot in use nothing changes.
     */
    method Freeze(camera: string)
      requires Valid()
      modifies this, slots
      ensures Valid()
      ensures var h := FirstHidden(old(slots[..]));
              h.None? ==> slots[..] == old(slots[..]) && savedViews == old(savedViews)
      ensures var h := FirstHidden(old(slots[..]));
              h.Some? ==> slots[..] == old(slots[..])[h.value := Filled(old(slots[h.value]), h.value, camera)] &&
                          savedViews == old(savedViews) + 1
      ensures separatorVisible == old(separatorVisible)
    {
      FirstHiddenAfterPrefix(slots[..], savedViews);
      var index := 0;
      while index < slots.Length
        invariant 0 <= index <= slots.Length
        invariant forall k :: 0 <= k < index ==> slots[k].visible
      {
        if !slots[index].visible {
          assert FirstHidden(old(slots[..])) == Some(index);
          savedViews := savedViews + 1;
          slots[index] := Filled(slots[index], index, camera);
          return;
        }
        index := index + 1;
      }
    }

    /** Clear (iMsg 4, CommandView.cpp:277-282): no views kept, every slot hidden. */
    method Clear()
      requires Valid()
      modifies this, slots
      ensures Valid() && savedViews == 0
      ensures forall k :: 0 <= k < slots.Length ==> slots[k] == old(slots[k]).(visible := false)
      ensures separatorVisible == old(separatorVisible)
    {
      savedViews := 0;
      var k := 0;
      while k < slots.Length
        invariant 0 <= k <= slots.Length
        invariant savedViews == 0 && separatorVisible == old(separatorVisible)
        invariant forall j :: 0 <= j < k ==> slots[j] == old(slots[j]).(visible := false)
        invariant forall j :: k <= j < slots.Length ==> slots[j] == old(slots[j])
      {
        slots[k] := slots[k].(visible := false);
        k := k + 1;
      }
      assert VisiblePrefix(slots[..], 0);
    }

    /**
     * `onSaveViews` (CommandView.cpp:292-330) once a file was chosen and
     * opened: the count written and the settings of each view, up to the
     * first hidden slot.
     */
    method SaveViews(chosen: bool) returns (written: Option<(int, seq<string>)>)
      requires Valid()
      ensures !chosen ==> written.None?
      ensures chosen ==> written == Some((savedViews, SavedSettings(slots[..])))
      ensures chosen ==> |written.value.1| == savedViews
    {
      if !chosen {
        return None;
      }
      ghost var s := slots[..];
      var settings: seq<string> := [];
      var k := 0;
      while k < slots.Length && slots[k].visible
        invariant 0 <= k <= slots.Length
        invariant settings + SavedSettings(s[k..]) == SavedSettings(s)
      {
        SavedSettingsStep(s, k, settings);
        settings := settings + [SavedPosition(slots[k].toolTip)];
        k := k + 1;
      }
      SavedSettingsStop(s, k, settings);
      SavedSettingsOfPrefix(s, savedViews);
      written := Some((savedViews, settings));
    }

    /**
     * `onRestoreViews` (CommandView.cpp:332-417): with views kept, only
     * when the user confirms; then only for a parsed file whose root is
     * "FrozenViews" with SchemaVersion 1. The first min(cameras, slots)
     * slots take the cameras in order, the rest are hidden, and that many
     * views are counted.
     */
    method RestoreViews(confirmed: bool, file: Option<ViewsFile>)
      requires Valid()
      modifies this, slots
      ensures Valid()
      ensures var applies := (old(savedViews) == 0 || confirmed) && file.Some? &&
                             file.value.rootTag == "FrozenViews" && file.value.schemaVersion == Some(1);
              !applies ==> slots[..] == old(slots[..]) && savedViews == old(savedViews) &&
                           separatorVisible == old(separatorVisible)
      ensures var applies := (old(savedViews) == 0 || confirmed) && file.Some? &&
                             file.value.rootTag == "FrozenViews" && file.value.schemaVersion == Some(1);
              applies ==>
                var n := if |file.value.cameras| < MaxViews then |file.value.cameras| else MaxViews;
                savedViews == n &&
                slots[..] == Restored(old(slots[..]), file.value.cameras, n) &&
                separatorVisible == (old(separatorVisible) || n > 0)
    {
      if savedViews > 0 && !confirmed {
        return;
      }
      if file.None? {
        return;
      }
      var f := file.value;
      if f.rootTag != "FrozenViews" {
        return;
      }
      if f.schemaVersion.None? {
        return;
      }
      if f.schemaVersion.value == 1 {
        var cameras := f.cameras;
        var n := if |cameras| < slots.Length then |cameras| else slots.Length;
        savedViews := n;
        if n > 0 {
          separatorVisible := true;
        }
        ghost var before := slots[..];
        var i := 0;
        assert n <= |cameras| && n <= slots.Length;
        while i < n
          invariant 0 <= i <= n
          invariant savedViews == n && separatorVisible == (old(separatorVisible) || n > 0)
          invariant forall k :: 0 <= k < i ==> slots[k] == Filled(before[k], k, cameras[k])
          invariant forall k :: i <= k < slots.Length ==> slots[k] == before[k]
        {
          slots[i] := Filled(slots[i], i, cameras[i]);
          i := i + 1;
        }
        var index := n;
        while index < slots.Length
          invariant n <= index <= slots.Length
          invariant savedViews == n && separatorVisible == (old(separatorVisible) || n > 0)
          invariant forall k :: 0 <= k < n ==> slots[k] == Filled(before[k], k, cameras[k])
          invariant forall k :: n <= k < index ==> slots[k] == before[k].(visible := false)
          invariant forall k :: index <= k < slots.Length ==> slots[k] == before[k]
        {
          slots[index] := slots[index].(visible := false);
          index := index + 1;
        }
        assert slots[..] == Restored(before, cameras, n);
      }
    }

    /**
     * `isActive` (CommandView.cpp:420-435): with a 3D view active, saving
     * and clearing are enabled iff views are kept and freezing iff fewer
     * than 50 are; the separator shows iff views are kept.
     */
    method IsActive(hasView: bool) returns (r: bool)
      requires Valid()
      modifies this
      ensures Valid() && r == hasView && savedViews == old(savedViews)
      ensures separatorVisible == (savedViews > 0)
      ensures hasView ==> saveEnabled == (savedViews > 0) && clearEnabled == (savedViews > 0) &&
                          freezeEnabled == (savedViews < MaxViews)
      ensures !hasView ==> saveEnabled == old(saveEnabled) && clearEnabled == old(clearEnabled) &&
                           freezeEnabled == old(freezeEnabled)
    {
      if hasView {
        saveEnabled := savedViews > 0;
        freezeEnabled := savedViews < MaxViews;
        clearEnabled := savedViews > 0;
        separatorVisible := savedViews > 0;
        return true;
      }
      separatorVisible := savedViews > 0;
      return false;
    }

    /**
     * Activating a view (CommandView.cpp:283-289): the message sent to the
     * active view is "SetCamera " and the slot's settings.
     */
    function ActivateMessage(iMsg: int): (r: Option<string>)
      requires Valid()
      reads this, slots
      ensures r.Some? <==> SlotOffset <= iMsg < SlotOffset + MaxViews
      ensures r.Some? ==> IsPrefix("SetCamera ", r.value) && r.value[10..] == slots[iMsg - SlotOffset].toolTip
    {
      if SlotOffset <= iMsg < SlotOffset + MaxViews then Some("SetCamera " + slots[iMsg - SlotOffset].toolTip)
      else None
    }
  }

  /** Freezing is enabled exactly when a slot is free for the next view. */
  lemma FreezeEnabledIffSlotFree(s: seq<Slot>, savedViews: nat)
    requires |s| == MaxViews && savedViews <= MaxViews && VisiblePrefix(s, savedViews)
    ensures savedViews < MaxViews <==> FirstHidden(s).Some?
    ensures savedViews < MaxViews ==> FirstHidden(s) == Some(savedViews)
  {
    FirstHiddenAfterPrefix(s, savedViews);
  }

  /** The override modes the draw-style menu lists, entries 1 to 6. */
  const DrawStyles := ["Flat Lines", "Shaded", "Wireframe", "Point", "Hidden Line", "No shading"]

  /**
   * `StdCmdDrawStyle::updateIcon` (CommandView.cpp:651-681): the entry
   * checked for the view's override mode; 0 (As is) for any mode not listed.
   */
  function DrawStyleEntry(mode: string): (r: nat)
    ensures r <= 6
  {
    if mode == "Flat Lines" then 1
    else if mode == "Shaded" then 2
    else if mode == "Wireframe" then 3
    else if mode == "Point" then 4
    else if mode == "Hidden Line" then 5
    else if mode == "No shading" then 6
    else 0
  }

  /** The checked entry names the mode back, and entry 0 means the mode is none of the six. */
  lemma DrawStyleEntryNamesMode(mode: string)
    ensures DrawStyleEntry(mode) > 0 ==> DrawStyles[DrawStyleEntry(mode) - 1] == mode
    ensures DrawStyleEntry(mode) == 0 <==> mode !in DrawStyles
  {
  }

  /** Each listed mode checks its own entry. */
  lemma DrawStyleEntryOfListed(k: nat)
    requires k < |DrawStyles|
    ensures DrawStyleEntry(DrawStyles[k]) == k + 1
  {
    var m := DrawStyles[k];
    assert forall j :: 0 <= j < |DrawStyles| && j != k ==> DrawStyles[j] != m by {
      assert |DrawStyles[0]| == 10 && |DrawStyles[1]| == 6 && |DrawStyles[2]| == 9;
      assert |DrawStyles[3]| == 5 && |DrawStyles[4]| == 11 && |DrawStyles[5]| == 10;
      assert DrawStyles[0][0] != DrawStyles[5][0];
    }
    DrawStyleEntryNamesMode(m);
  }

  /**
   * The groups Std_ToggleVisibility leaves alone (CommandView.cpp:761-772):
   * each selected group with a selected member, once per occurrence.
   */
  function IgnoredGroups(sel: seq<nat>, members: map<nat, seq<nat>>, all: seq<nat>): (r: seq<nat>)
    ensures forall g :: g in r <==> g in sel && g in members && exists m :: m in members[g] && m in all
  {
    if sel == [] then []
    else
      var g := sel[0];
      var rest := IgnoredGroups(sel[1..], members, all);
      if g in members && exists m :: m in members[g] && m in all then [g] + rest else rest
  }

  /** Every element is at most every later one. */
  predicate Ordered(s: seq<nat>)
  {
    forall i, j :: 0 <= i < j < |s| ==> s[i] <= s[j]
  }

  /** std::sort over object pointers, here their ids. */
  function SortIds(s: seq<nat>): (r: seq<nat>)
    ensures multiset(r) == multiset(s) && Ordered(r)
  {
    if s == [] then []
    else
      assert s == [s[0]] + s[1..];
      InsertId(s[0], SortIds(s[1..]))
  }

  function InsertId(x: nat, s: seq<nat>): (r: seq<nat>)
    requires Ordered(s)
    ensures multiset(r) == multiset(s) + multiset{x} && Ordered(r)
  {
    if s == [] || x <= s[0] then [x] + s
    else
      assert s == [s[0]] + s[1..];
      var rest := InsertId(x, s[1..]);
      HeadBeforeInserted(s, x, rest);
      [s[0]] + rest
  }

  /** The head of an ordered list stays first when a larger id goes into its tail. */
  lemma HeadBeforeInserted(s: seq<nat>, x: nat, rest: seq<nat>)
    requires s != [] && Ordered(s) && s[0] < x && Ordered(rest)
    requires multiset(rest) == multiset(s[1..]) + multiset{x}
    ensures Ordered([s[0]] + rest)
  {
    var r := [s[0]] + rest;
    forall i, j | 0 <= i < j < |r| ensures r[i] <= r[j] {
      if i == 0 {
        assert r[j] == rest[j - 1];
        assert r[j] in multiset(rest);
        AtLeastHead(s, r[j]);
      }
    }
  }

  /** The elements of `s` that are not in `drop`, in order: std::set_difference on a sorted `s`. */
  function Without(s: seq<nat>, drop: seq<nat>): (r: seq<nat>)
    ensures forall x :: x in r <==> x in s && x !in drop
    ensures forall x :: multiset(r)[x] == if x in drop then 0 else multiset(s)[x]
  {
    if s == [] then []
    else
      assert s == [s[0]] + s[1..];
      if s[0] in drop then Without(s[1..], drop)
      else [s[0]] + Without(s[1..], drop)
  }

  /** Leaving elements out of an ordered list keeps it ordered. */
  lemma {:induction false} WithoutKeepsOrder(s: seq<nat>, drop: seq<nat>)
    requires Ordered(s)
    ensures Ordered(Without(s, drop))
  {
    if s != [] {
      assert Ordered(s[1..]);
      WithoutKeepsOrder(s[1..], drop);
      if s[0] !in drop {
        var rest := Without(s[1..], drop);
        var r := [s[0]] + rest;
        forall i, j | 0 <= i < j < |r| ensures r[i] <= r[j] {
          if i == 0 {
            AtLeastHead(s, r[j]);
            assert r[j] in rest;
          }
        }
      }
    }
  }

  /** In an ordered list, what the tail holds is at least the head. */
  lemma AtLeastHead(s: seq<nat>, y: nat)
    requires s != [] && Ordered(s)
    ensures y in s[1..] ==> s[0] <= y
    ensures y in multiset(s[1..]) ==> s[0] <= y
  {
    if y in s[1..] {
      var k :| 0 <= k < |s[1..]| && s[1..][k] == y;
      assert s[k + 1] == y;
    }
  }

  /**
   * The objects Std_ToggleVisibility toggles in a document
   * (CommandView.cpp:761-782): with no group to ignore, the selection as
   * it is; otherwise the selection sorted, without the ignored groups.
   * Every other object is toggled as many times as it is selected, an
   * ignored group not at all: `ignore` holds a group once per time it is
   * selected, so `std::set_difference` drops every copy of it.
   */
  function ToggleTargets(sel: seq<nat>, members: map<nat, seq<nat>>): (r: seq<nat>)
    ensures forall x :: x in r <==> x in sel && !(x in members && exists m :: m in members[x] && m in sel)
    ensures forall x :: multiset(r)[x] ==
              if x in members && (exists m :: m in members[x] && m in sel) then 0 else multiset(sel)[x]
    ensures IgnoredGroups(sel, members, sel) == [] ==> r == sel
    ensures IgnoredGroups(sel, members, sel) != [] ==> Ordered(r)
  {
    var ignore := IgnoredGroups(sel, members, sel);
    if ignore == [] then sel
    else
      var sorted := SortIds(sel);
      assert forall x :: x in sorted <==> x in multiset(sel);
      WithoutKeepsOrder(sorted, ignore);
      Without(sorted, ignore)
  }

  /** `std::string::erase(0, find_first_of('\n'))` and the newline replacement: the spec of the cleanup. */
  function CameraLine(s: string): (r: string)
  {
    if '\n' in s then Spaced(s[IndexOf(s, '\n')..]) else ""
  }

  /** Every newline turned into a space. */
  function Spaced(t: string): (r: string)
    ensures |r| == |t| && '\n' !in r
    ensures forall k :: 0 <= k < |t| ==> r[k] == (if t[k] == '\n' then ' ' else t[k])
  {
    if t == [] then [] else [if t[0] == '\n' then ' ' else t[0]] + Spaced(t[1..])
  }

  /**
   * `StdCmdViewIvIssueCamPos::activated` (CommandView.cpp:2133-2157): the
   * camera text without its first line, each newline turned into a space
   * one at a time, and the macro line that sets that camera.
   */
  method IssueCameraPosition(camera: string) returns (console: string, macroLine: string)
    ensures console == CameraLine(camera)
    ensures macroLine == "Gui.SendMsgToActiveView(\"SetCamera " + console + "\")"
  {
    var t: string;
    if '\n' in camera {
      t := camera[IndexOf(camera, '\n')..];
    } else {
      t := "";
    }
    ghost var start := t;
    while '\n' in t
      invariant Spaced(t) == Spaced(start)
      decreases multiset(t)['\n']
    {
      var pos := IndexOf(t, '\n');
      SpacedReplace(t, pos);
      t := t[pos := ' '];
    }
    SpacedWithoutNewline(t);
    console := t;
    macroLine := "Gui.SendMsgToActiveView(\"SetCamera " + t + "\")";
  }

  /** Replacing one newline by a space leaves one newline fewer and the same spaced text. */
  lemma SpacedReplace(t: string, pos: nat)
    requires pos < |t| && t[pos] == '\n'
    ensures Spaced(t[pos := ' ']) == Spaced(t)
    ensures multiset(t[pos := ' '])['\n'] < multiset(t)['\n']
  {
    var u := t[pos := ' '];
    assert t == t[..pos] + [t[pos]] + t[pos + 1..];
    assert u == t[..pos] + [' '] + t[pos + 1..];
    var a := Spaced(u);
    var b := Spaced(t);
    assert forall k :: 0 <= k < |t| ==> a[k] == b[k];
  }

  /** Text without a newline is its own spaced form. */
  lemma SpacedWithoutNewline(t: string)
    requires '\n' !in t
    ensures Spaced(t) == t
  {
    var a := Spaced(t);
    assert forall k :: 0 <= k < |t| ==> a[k] == t[k];
  }

  /** Text around a newline: the part before it, a space, the rest spaced. */
  lemma SpacedAround(a: string, rest: string)
    requires '\n' !in a
    ensures Spaced(a + ['\n'] + rest) == a + " " + Spaced(rest)
  {
    var l := Spaced(a + ['\n'] + rest);
    var r := a + " " + Spaced(rest);
    assert |l| == |r|;
    forall k | 0 <= k < |l| ensures l[k] == r[k] {
      if k < |a| {
        assert (a + ['\n'] + rest)[k] == a[k];
      } else if k > |a| {
        assert (a + ['\n'] + rest)[k] == rest[k - |a| - 1];
      }
    }
  }

  /** Turning newlines into spaces is joining the lines with spaces. */
  lemma {:induction false} SpacedJoinsLines(t: string)
    ensures Spaced(t) == Join(Split(t, '\n'), " ")
    decreases |t|
  {
    if '\n' in t {
      var i := IndexOf(t, '\n');
      var a := t[..i];
      var rest := t[i + 1..];
      assert t == a + ['\n'] + rest;
      SpacedJoinsLines(rest);
      SpacedAround(a, rest);
      var parts := Split(rest, '\n');
      assert Split(t, '\n') == [a] + parts;
      assert ([a] + parts)[1..] == parts;
      assert Join([a] + parts, " ") == a + " " + Join(parts, " ");
    } else {
      SpacedWithoutNewline(t);
    }
  }

  /**
   * The console text of the camera command is the text the views file
   * would store for the same camera, after the one space that replaced
   * the first newline.
   */
  lemma CameraLineIsSavedPosition(camera: string)
    requires '\n' in camera
    ensures CameraLine(camera) == " " + SavedPosition(camera)
  {
    var i := IndexOf(camera, '\n');
    var rest := camera[i + 1..];
    assert camera[i..] == [] + ['\n'] + rest;
    SpacedAround([], rest);
    SpacedJoinsLines(rest);
    assert Split(camera, '\n') == [camera[..i]] + Split(rest, '\n');
    assert Split(camera, '\n')[1..] == Split(rest, '\n');
  }
}
