/**
 * Gui::Dialog::DlgWorkbenchesImp (src/Gui/DlgWorkbenchesImp.cpp): the
 * customisation page with two lists of workbench names, the enabled ones
 * and the disabled ones. The lists are loaded from, and saved to, the
 * comma-separated preference strings "Enabled" and "Disabled"; the
 * parameter store itself is a string in and a string out here.
 *
 * A list item is seen through the workbench name it carries as user data;
 * its menu text enters only through the key the sorted disabled list orders
 * by, and icons are left out. A list's current item is its row, -1 when
 * there is none.
 */
module Workbenches {
  import opened Wrappers
  import opened Strings
  import opened StdMap

  const AllWorkbenches := "ALL"
  const NoneWorkbench := "NoneWorkbench"
  const EmptyListMessage := "QList::at: index out of range"

  /**
   * The order of a sorted Qt list: `a` may stand before `b` when its key is
   * not larger. The key of a list-widget item is the collation key of its
   * display text, so that comparing keys compares the texts the way
   * `localeAwareCompare` does; QStringList::sort compares the names
   * themselves.
   */
  predicate KeyLessEq(key: string -> string, a: string, b: string)
  {
    key(a) == key(b) || Less(key(a), key(b))
  }

  /** Each item's key is at most the next item's key. */
  predicate AscendingBy(key: string -> string, s: seq<string>)
  {
    forall i :: 0 < i < |s| ==> KeyLessEq(key, s[i - 1], s[i])
  }

  /** The key QStringList::sort orders by: the string itself. */
  function Identity(name: string): string
  {
    name
  }

  /** Each name is at most the next one. */
  predicate Ascending(s: seq<string>)
  {
    AscendingBy(Identity, s)
  }

  lemma KeyLessEqTransitive(key: string -> string, a: string, b: string, c: string)
    requires KeyLessEq(key, a, b) && KeyLessEq(key, b, c)
    ensures KeyLessEq(key, a, c)
  {
    if key(a) != key(b) && key(b) != key(c) {
      LessTransitive(key(a), key(b), key(c));
    }
  }

  /**
   * std::lower_bound, which a sorted QListWidget uses to place an added
   * item: the first row whose key is not below the key of `x`.
   */
  function LowerBound(key: string -> string, x: string, s: seq<string>): (r: nat)
    ensures r <= |s|
    ensures forall k :: 0 <= k < r ==> Less(key(s[k]), key(x))
    ensures r < |s| ==> KeyLessEq(key, x, s[r])
  {
    if s == [] then 0
    else if KeyLessEq(key, x, s[0]) then 0
    else
      LessTotal(key(x), key(s[0]));
      1 + LowerBound(key, x, s[1..])
  }

  /** `addItem` on a list with sorting enabled: `x` goes in at its lower bound. */
  function InsertBy(key: string -> string, x: string, s: seq<string>): (r: seq<string>)
    ensures |r| == |s| + 1 && multiset(r) == multiset(s) + multiset{x}
  {
    var p := LowerBound(key, x, s);
    assert s == s[..p] + s[p..];
    s[..p] + [x] + s[p..]
  }

  /** Inserting at the lower bound keeps a list ascending, with `x` at that row. */
  lemma InsertByAscending(key: string -> string, x: string, s: seq<string>)
    requires AscendingBy(key, s)
    ensures var r := InsertBy(key, x, s);
            AscendingBy(key, r) && r[LowerBound(key, x, s)] == x
  {
    var p := LowerBound(key, x, s);
    var r := InsertBy(key, x, s);
    forall i | 0 < i < |r|
      ensures KeyLessEq(key, r[i - 1], r[i])
    {
      if i < p {
        assert r[i - 1] == s[i - 1] && r[i] == s[i];
      } else if i == p {
        assert r[i - 1] == s[p - 1] && r[i] == x;
      } else if i == p + 1 {
        assert r[i - 1] == x && r[i] == s[p];
      } else {
        assert r[i - 1] == s[i - 2] && r[i] == s[i - 1];
      }
    }
  }

  /** Items added one by one, in order, to a list with sorting enabled. */
  function InsertAllBy(key: string -> string, s: seq<string>): (r: seq<string>)
    ensures AscendingBy(key, r) && multiset(r) == multiset(s)
  {
    if s == [] then []
    else
      var init := InsertAllBy(key, s[..|s| - 1]);
      InsertByAscending(key, s[|s| - 1], init);
      assert s == s[..|s| - 1] + [s[|s| - 1]];
      InsertBy(key, s[|s| - 1], init)
  }

  /** Adding one more item to the sorted list inserts it into what was built so far. */
  lemma InsertAllBySnoc(key: string -> string, s: seq<string>, x: string)
    ensures InsertAllBy(key, s + [x]) == InsertBy(key, x, InsertAllBy(key, s))
  {
    assert (s + [x])[..|s|] == s;
  }

  /** One pass of the constructor's second loop over the disabled list. */
  lemma DisabledStep(key: string -> string, known: seq<string>, unwanted: seq<string>, j: nat)
    requires j < |known|
    ensures InsertAllBy(key, KnownUnwanted(known[..j + 1], unwanted)) ==
            if known[j] in unwanted then InsertBy(key, known[j], InsertAllBy(key, KnownUnwanted(known[..j], unwanted)))
            else InsertAllBy(key, KnownUnwanted(known[..j], unwanted))
  {
    var before := KnownUnwanted(known[..j], unwanted);
    assert known[..j + 1][..j] == known[..j];
    if known[j] in unwanted {
      assert KnownUnwanted(known[..j + 1], unwanted) == before + [known[j]];
      InsertAllBySnoc(key, before, known[j]);
    } else {
      assert KnownUnwanted(known[..j + 1], unwanted) == before + [];
      assert before + [] == before;
    }
  }

  /** One pass of the constructor's second loop over the names added to the enabled list. */
  lemma UnlistedStep(known: seq<string>, wanted: seq<string>, unwanted: seq<string>, j: nat)
    requires j < |known|
    ensures Unlisted(known[..j + 1], wanted, unwanted) ==
            Unlisted(known[..j], wanted, unwanted) +
            (if known[j] !in unwanted && known[j] !in wanted then [known[j]] else [])
  {
    assert known[..j + 1][..j] == known[..j];
  }

  /** Taking one item out of an ascending list leaves it ascending. */
  lemma RemoveAscending(key: string -> string, s: seq<string>, row: nat)
    requires AscendingBy(key, s) && row < |s|
    ensures AscendingBy(key, s[..row] + s[row + 1..])
  {
    var r := s[..row] + s[row + 1..];
    forall i | 0 < i < |r|
      ensures KeyLessEq(key, r[i - 1], r[i])
    {
      if i < row {
        assert r[i - 1] == s[i - 1] && r[i] == s[i];
      } else if i == row {
        assert r[i - 1] == s[row - 1] && r[i] == s[row + 1];
        KeyLessEqTransitive(key, s[row - 1], s[row], s[row + 1]);
      } else {
        assert r[i - 1] == s[i] && r[i] == s[i + 1];
      }
    }
  }

  /** QStringList::sort: an ascending rearrangement of the names. */
  function SortNames(s: seq<string>): (r: seq<string>)
    ensures Ascending(r) && multiset(r) == multiset(s)
  {
    InsertAllBy(Identity, s)
  }

  /** The first row holding `x`. */
  function RowOf(x: string, s: seq<string>): (r: nat)
    requires x in s
    ensures r < |s| && s[r] == x && x !in s[..r]
  {
    if s[0] == x then 0
    else
      var r := 1 + RowOf(x, s[1..]);
      assert s[..r] == [s[0]] + s[1..][..r - 1];
      r
  }

  /**
   * `load_disabled_workbenches` (DlgWorkbenchesImp.cpp:205-216): the stored
   * string split on ',' without empty parts.
   */
  function LoadDisabled(stored: string): (r: seq<string>)
    ensures forall k :: 0 <= k < |r| ==> r[k] != "" && ',' !in r[k]
  {
    SplitSkipEmpty(stored, ',')
  }

  /**
   * `load_enabled_workbenches` (DlgWorkbenchesImp.cpp:184-203): the stored
   * string split like the disabled one; a first entry "ALL" is replaced by
   * every known workbench and the whole list sorted. The first entry is
   * read without a check, so a string with no name in it is an error.
   */
  function LoadEnabled(stored: string, known: seq<string>): (r: Result<seq<string>>)
    ensures r.Err? <==> SplitSkipEmpty(stored, ',') == []
    ensures r.Ok? && SplitSkipEmpty(stored, ',')[0] != AllWorkbenches ==> r.value == SplitSkipEmpty(stored, ',')
    ensures r.Ok? && SplitSkipEmpty(stored, ',')[0] == AllWorkbenches ==>
              Ascending(r.value) && multiset(r.value) == multiset(SplitSkipEmpty(stored, ',')[1..] + known)
  {
    var parts := SplitSkipEmpty(stored, ',');
    if parts == [] then Err(EmptyListMessage)
    else if parts[0] == AllWorkbenches then Ok(SortNames(parts[1..] + known))
    else Ok(parts)
  }

  /** What `save_workbenches` writes for a list: each name followed by ','. */
  function SaveText(names: seq<string>): string
  {
    if names == [] then "" else names[0] + "," + SaveText(names[1..])
  }

  /** The "Enabled" string: the list's text, or "NoneWorkbench" for an empty list. */
  function SaveEnabledText(names: seq<string>): string
  {
    if names == [] then NoneWorkbench else SaveText(names)
  }

  /** Splitting a saved list keeps every name and leaves one empty part at the end. */
  lemma {:induction false} SplitSaveText(names: seq<string>)
    requires forall k :: 0 <= k < |names| ==> ',' !in names[k]
    ensures Split(SaveText(names), ',') == names + [""]
  {
    if names != [] {
      SplitSaveText(names[1..]);
      SplitSaveTextStep(names);
    }
  }

  lemma SplitSaveTextStep(names: seq<string>)
    requires names != [] && ',' !in names[0]
    requires Split(SaveText(names[1..]), ',') == names[1..] + [""]
    ensures Split(SaveText(names), ',') == names + [""]
  {
    var tail := SaveText(names[1..]);
    SplitAfterSep(names[0], ',', tail);
    assert SaveText(names) == names[0] + [','] + tail;
    assert names == [names[0]] + names[1..];
  }

  /** Dropping the empty parts of non-empty names followed by "" gives the names. */
  lemma {:induction false} NonEmptyPartsOfNames(names: seq<string>)
    requires forall k :: 0 <= k < |names| ==> names[k] != ""
    ensures NonEmptyParts(names + [""]) == names
  {
    if names == [] {
      assert NonEmptyParts([""]) == NonEmptyParts([]);
    } else {
      assert (names + [""])[1..] == names[1..] + [""];
      NonEmptyPartsOfNames(names[1..]);
      assert names == [names[0]] + names[1..];
    }
  }

  /**
   * Loading what was saved gives back the list, for names that are
   * non-empty and hold no comma.
   */
  lemma LoadDisabledSaveText(names: seq<string>)
    requires forall k :: 0 <= k < |names| ==> names[k] != "" && ',' !in names[k]
    ensures LoadDisabled(SaveText(names)) == names
  {
    SplitSaveText(names);
    NonEmptyPartsOfNames(names);
  }

  /**
   * The enabled list round-trips too unless its first name is "ALL"; an
   * empty list comes back as the single unknown name "NoneWorkbench".
   */
  lemma LoadEnabledSaveEnabledText(names: seq<string>, known: seq<string>)
    requires forall k :: 0 <= k < |names| ==> names[k] != "" && ',' !in names[k]
    ensures names != [] && names[0] != AllWorkbenches ==> LoadEnabled(SaveEnabledText(names), known) == Ok(names)
    ensures names == [] ==> LoadEnabled(SaveEnabledText(names), known) == Ok([NoneWorkbench])
  {
    if names != [] {
      LoadDisabledSaveText(names);
    } else {
      assert forall k :: 0 <= k < |NoneWorkbench| ==> NoneWorkbench[k] != ',';
      assert ',' !in NoneWorkbench;
      assert Split(NoneWorkbench, ',') == [NoneWorkbench];
      assert [NoneWorkbench][1..] == [];
      assert NonEmptyParts([NoneWorkbench]) == [NoneWorkbench];
      assert |NoneWorkbench| != |AllWorkbenches|;
    }
  }

  /** The names of `wanted` that are known, in order (the constructor's first loop). */
  function KnownWanted(wanted: seq<string>, known: seq<string>): (r: seq<string>)
  {
    if wanted == [] then []
    else
      var last := wanted[|wanted| - 1];
      KnownWanted(wanted[..|wanted| - 1], known) + (if last in known then [last] else [])
  }

  /** The known names that are disabled, in the known order. */
  function KnownUnwanted(known: seq<string>, unwanted: seq<string>): (r: seq<string>)
  {
    if known == [] then []
    else
      var last := known[|known| - 1];
      KnownUnwanted(known[..|known| - 1], unwanted) + (if last in unwanted then [last] else [])
  }

  /** The known names in neither list, in the known order. */
  function Unlisted(known: seq<string>, wanted: seq<string>, unwanted: seq<string>): (r: seq<string>)
  {
    if known == [] then []
    else
      var last := known[|known| - 1];
      Unlisted(known[..|known| - 1], wanted, unwanted) + (if last !in unwanted && last !in wanted then [last] else [])
  }

  lemma {:induction false} KnownWantedMembers(wanted: seq<string>, known: seq<string>)
    ensures forall x :: x in KnownWanted(wanted, known) <==> x in wanted && x in known
  {
    if wanted != [] {
      var init := wanted[..|wanted| - 1];
      KnownWantedMembers(init, known);
      assert wanted == init + [wanted[|wanted| - 1]];
    }
  }

  lemma {:induction false} KnownUnwantedMembers(known: seq<string>, unwanted: seq<string>)
    ensures forall x :: x in KnownUnwanted(known, unwanted) <==> x in known && x in unwanted
  {
    if known != [] {
      var init := known[..|known| - 1];
      KnownUnwantedMembers(init, unwanted);
      assert known == init + [known[|known| - 1]];
    }
  }

  lemma {:induction false} UnlistedMembers(known: seq<string>, wanted: seq<string>, unwanted: seq<string>)
    ensures forall x :: x in Unlisted(known, wanted, unwanted) <==> x in known && x !in wanted && x !in unwanted
  {
    if known != [] {
      var init := known[..|known| - 1];
      UnlistedMembers(init, wanted, unwanted);
      assert known == init + [known[|known| - 1]];
    }
  }

  /**
   * After the constructor's merge (DlgWorkbenchesImp.cpp:46-60) only known
   * names are listed, unknown preference names are dropped, every known
   * workbench is in at least one list, and a known name is disabled
   * exactly when the disabled preference lists it.
   */
  lemma MergeCoversKnown(wanted: seq<string>, unwanted: seq<string>, known: seq<string>, key: string -> string)
    ensures var enabled := KnownWanted(wanted, known) + Unlisted(known, wanted, unwanted);
            var disabled := InsertAllBy(key, KnownUnwanted(known, unwanted));
            (forall x :: x in enabled ==> x in known) &&
            (forall x :: x in disabled <==> x in known && x in unwanted) &&
            (forall x :: x in known ==> x in enabled || x in disabled) &&
            (forall x :: x in wanted && x in known ==> x in enabled)
  {
    KnownWantedMembers(wanted, known);
    KnownUnwantedMembers(known, unwanted);
    UnlistedMembers(known, wanted, unwanted);
    var disabled := InsertAllBy(key, KnownUnwanted(known, unwanted));
    assert forall x :: x in disabled <==> x in multiset(KnownUnwanted(known, unwanted));
  }

  /**
   * The constructor's second loop (DlgWorkbenchesImp.cpp:53-60): each known
   * workbench the disabled preference lists goes to the sorted disabled
   * list, and each one in neither preference list is added to the enabled list.
   */
  method SortKnown(known: seq<string>, wanted: seq<string>, unwanted: seq<string>, sortKey: string -> string)
    returns (dis: seq<string>, added: seq<string>)
    ensures dis == InsertAllBy(sortKey, KnownUnwanted(known, unwanted))
    ensures added == Unlisted(known, wanted, unwanted)
  {
    dis := [];
    added := [];
    var j := 0;
    while j < |known|
      invariant 0 <= j <= |known|
      invariant dis == InsertAllBy(sortKey, KnownUnwanted(known[..j], unwanted))
      invariant added == Unlisted(known[..j], wanted, unwanted)
    {
      var w := known[j];
      DisabledStep(sortKey, known, unwanted, j);
      UnlistedStep(known, wanted, unwanted, j);
      if w in unwanted {
        dis := InsertBy(sortKey, w, dis);
      } else if w !in wanted {
        added := added + [w];
      }
      j := j + 1;
    }
    assert known[..j] == known;
  }

  /**
   * The disabled list follows the menu texts, not the known order: Sketcher
   * listed before Arch still shows Arch first.
   */
  lemma DisabledInMenuTextOrder()
    ensures InsertAllBy(n => if n == "SketcherWorkbench" then "Sketcher" else "Arch",
                        ["SketcherWorkbench", "ArchWorkbench"]) == ["ArchWorkbench", "SketcherWorkbench"]
  {
    var key := n => if n == "SketcherWorkbench" then "Sketcher" else "Arch";
    var one := InsertAllBy(key, ["SketcherWorkbench"]);
    assert ["SketcherWorkbench", "ArchWorkbench"][..1] == ["SketcherWorkbench"];
    assert [ "SketcherWorkbench"][..0] == [];
    assert one == ["SketcherWorkbench"];
    assert Less(key("ArchWorkbench"), key("SketcherWorkbench"));
    assert LowerBound(key, "ArchWorkbench", one) == 0;
  }

  /** `shift_workbench`'s target row: QListWidget::insertItem clamps it into the list. */
  function Clamp(row: int, count: nat): (r: nat)
    ensures r <= count
    ensures 0 <= row <= count ==> r == row
  {
    if row < 0 then 0 else if row > count then count else row
  }

  /** The list with the item at `from` taken out and inserted at `to` of what remains. */
  function MoveItem(s: seq<string>, from: nat, to: nat): (r: seq<string>)
    requires from < |s| && to < |s|
  {
    var rest := s[..from] + s[from + 1..];
    rest[..to] + [s[from]] + rest[to..]
  }

  /** Moving an item only rearranges the list, and the item lands at `to`. */
  lemma MoveItemRearranges(s: seq<string>, from: nat, to: nat)
    requires from < |s| && to < |s|
    ensures var r := MoveItem(s, from, to);
            |r| == |s| && r[to] == s[from] && multiset(r) == multiset(s)
  {
    var rest := s[..from] + s[from + 1..];
    assert s == s[..from] + [s[from]] + s[from + 1..];
    assert multiset(s) == multiset(rest) + multiset{s[from]};
    assert rest == rest[..to] + rest[to..];
    assert multiset(rest) == multiset(rest[..to]) + multiset(rest[to..]);
  }

  /** Moving an item one row and back again restores the list. */
  lemma MoveItemBack(s: seq<string>, from: nat, to: nat)
    requires from < |s| && to < |s|
    ensures MoveItem(MoveItem(s, from, to), to, from) == s
  {
    var rest := s[..from] + s[from + 1..];
    var r := MoveItem(s, from, to);
    assert r[..to] == rest[..to];
    assert r[to + 1..] == rest[to..];
    assert r[..to] + r[to + 1..] == rest;
    assert s == s[..from] + [s[from]] + s[from + 1..];
  }

  /**
   * The two lists of the page and their current rows. `sortKey` gives each
   * workbench the collation key of its menu text (DlgWorkbenchesImp.cpp:83-84),
   * which the disabled list, sorted since the constructor, orders by.
   */
  class Dialog {
    const sortKey: string -> string
    var enabled: seq<string>
    var disabled: seq<string>
    var enabledRow: int
    var disabledRow: int

    /** Each current row is a row of its list, or -1; the disabled list is sorted. */
    predicate Valid()
      reads this
    {
      -1 <= enabledRow < |enabled| && -1 <= disabledRow < |disabled| &&
      AscendingBy(sortKey, disabled)
    }

    /**
     * The constructor (DlgWorkbenchesImp.cpp:28-63) given the loaded
     * preference lists and the known workbenches: the known enabled names
     * in their order, then each known name in neither list. The disabled
     * list has sorting enabled (line 36), so each known name the disabled
     * preference lists is added at its sorted place. Row 0 is made current
     * in both lists.
     */
    constructor(wanted: seq<string>, unwanted: seq<string>, known: seq<string>, sortKey: string -> string)
      ensures this.sortKey == sortKey
      ensures enabled == KnownWanted(wanted, known) + Unlisted(known, wanted, unwanted)
      ensures disabled == InsertAllBy(sortKey, KnownUnwanted(known, unwanted))
      ensures enabledRow == (if enabled == [] then -1 else 0)
      ensures disabledRow == (if disabled == [] then -1 else 0)
      ensures Valid()
    {
      var en: seq<string> := [];
      var i := 0;
      while i < |wanted|
        invariant 0 <= i <= |wanted|
        invariant en == KnownWanted(wanted[..i], known)
      {
        assert wanted[..i + 1][..i] == wanted[..i];
        if wanted[i] in known {
          en := en + [wanted[i]];
        }
        i := i + 1;
      }
      assert wanted[..i] == wanted;
      var dis, added := SortKnown(known, wanted, unwanted, sortKey);
      this.sortKey := sortKey;
      enabled := en + added;
      disabled := dis;
      enabledRow := if en + added == [] then -1 else 0;
      disabledRow := if dis == [] then -1 else 0;
    }

    /**
     * `move_workbench` (DlgWorkbenchesImp.cpp:120-127) of the current
     * disabled item (lines 129-135): it is appended to the enabled list and
     * becomes its current item. The disabled list's current row passes to
     * the next row, or to the previous one when the last row went.
     */
    method AddToEnabled()
      requires Valid()
      modifies this
      ensures Valid()
      ensures old(disabledRow) == -1 ==>
                enabled == old(enabled) && disabled == old(disabled) &&
                enabledRow == old(enabledRow) && disabledRow == old(disabledRow)
      ensures old(disabledRow) != -1 ==>
                var r := old(disabledRow);
                enabled == old(enabled) + [old(disabled)[r]] &&
                disabled == old(disabled)[..r] + old(disabled)[r + 1..] &&
                enabledRow == |enabled| - 1 &&
                disabledRow == (if r < |disabled| then r else r - 1)
    {
      if disabledRow != -1 {
        var r := disabledRow;
        RemoveAscending(sortKey, disabled, r);
        enabled := enabled + [disabled[r]];
        enabledRow := |enabled| - 1;
        disabled := disabled[..r] + disabled[r + 1..];
        disabledRow := if r < |disabled| then r else r - 1;
      }
    }

    /**
     * The current enabled item moved to the disabled list
     * (DlgWorkbenchesImp.cpp:137-143): the sorted disabled list takes it at
     * its lower bound, and that row becomes current there.
     */
    method RemoveFromEnabled()
      requires Valid()
      modifies this
      ensures Valid()
      ensures old(enabledRow) == -1 ==>
                enabled == old(enabled) && disabled == old(disabled) &&
                enabledRow == old(enabledRow) && disabledRow == old(disabledRow)
      ensures old(enabledRow) != -1 ==>
                var r := old(enabledRow);
                var x := old(enabled)[r];
                disabled == InsertBy(sortKey, x, old(disabled)) &&
                disabledRow == LowerBound(sortKey, x, old(disabled)) && disabled[disabledRow] == x &&
                enabled == old(enabled)[..r] + old(enabled)[r + 1..] &&
                enabledRow == (if r < |enabled| then r else r - 1)
    {
      if enabledRow != -1 {
        var r := enabledRow;
        var x := enabled[r];
        InsertByAscending(sortKey, x, disabled);
        disabledRow := LowerBound(sortKey, x, disabled);
        disabled := InsertBy(sortKey, x, disabled);
        enabled := enabled[..r] + enabled[r + 1..];
        enabledRow := if r < |enabled| then r else r - 1;
      }
    }

    /**
     * `shift_workbench` (DlgWorkbenchesImp.cpp:145-159): the current enabled
     * item is taken out and inserted one row up or down, clamped into the
     * list; the target row is then made current, which leaves no current
     * item when the target row lies outside the list.
     */
    method Shift(up: bool)
      requires Valid()
      modifies this
      ensures Valid()
      ensures disabled == old(disabled) && disabledRow == old(disabledRow)
      ensures old(enabledRow) == -1 ==> enabled == old(enabled) && enabledRow == -1
      ensures old(enabledRow) != -1 ==>
                var target := old(enabledRow) + (if up then -1 else 1);
                enabled == MoveItem(old(enabled), old(enabledRow), Clamp(target, |old(enabled)| - 1)) &&
                enabledRow == (if 0 <= target < |enabled| then target else -1)
    {
      if enabledRow != -1 {
        var direction := if up then -1 else 1;
        var index := enabledRow;
        var item := enabled[index];
        var rest := enabled[..index] + enabled[index + 1..];
        var at := Clamp(index + direction, |rest|);
        enabled := rest[..at] + [item] + rest[at..];
        enabledRow := if 0 <= index + direction < |enabled| then index + direction else -1;
      }
    }

    /**
     * The add-all button (DlgWorkbenchesImp.cpp:176-182): the first disabled
     * item is moved until the disabled list is empty, so the enabled list
     * gains the disabled names in order and the last one is current.
     */
    method AddAllToEnabled()
      requires Valid()
      modifies this
      ensures Valid()
      ensures enabled == old(enabled) + old(disabled) && disabled == [] && disabledRow == -1
      ensures old(disabled) != [] ==> enabledRow == |enabled| - 1
      ensures old(disabled) == [] ==> enabledRow == old(enabledRow)
    {
      ghost var moved := 0;
      while |disabled| > 0
        invariant Valid()
        invariant 0 <= moved <= |old(disabled)|
        invariant enabled == old(enabled) + old(disabled)[..moved]
        invariant disabled == old(disabled)[moved..]
        invariant moved > 0 ==> enabledRow == |enabled| - 1
        invariant moved == 0 ==> enabledRow == old(enabledRow)
        invariant disabled == [] ==> disabledRow == -1
        decreases |disabled|
      {
        assert old(disabled)[..moved + 1] == old(disabled)[..moved] + [disabled[0]];
        enabled := enabled + [disabled[0]];
        enabledRow := |enabled| - 1;
        disabled := disabled[1..];
        disabledRow := if 0 < |disabled| then 0 else -1;
        moved := moved + 1;
      }
      assert old(disabled)[..moved] == old(disabled);
    }

    /**
     * `save_workbenches` (DlgWorkbenchesImp.cpp:218-244): the "Enabled" and
     * "Disabled" strings, built name by name.
     */
    method Save() returns (enabledText: string, disabledText: string)
      ensures enabledText == SaveEnabledText(enabled)
      ensures disabledText == SaveText(disabled)
    {
      if |enabled| == 0 {
        enabledText := NoneWorkbench;
      } else {
        enabledText := "";
        var i := 0;
        while i < |enabled|
          invariant 0 <= i <= |enabled|
          invariant enabledText + SaveText(enabled[i..]) == SaveText(enabled)
        {
          assert enabled[i..][1..] == enabled[i + 1..];
          enabledText := enabledText + (enabled[i] + ",");
          i := i + 1;
        }
      }
      disabledText := "";
      var j := 0;
      while j < |disabled|
        invariant 0 <= j <= |disabled|
        invariant disabledText + SaveText(disabled[j..]) == SaveText(disabled)
      {
        assert disabled[j..][1..] == disabled[j + 1..];
        disabledText := disabledText + (disabled[j] + ",");
        j := j + 1;
      }
    }

    /**
     * The sort button (DlgWorkbenchesImp.cpp:171-174): `sortItems` orders the
     * enabled list by the same key as the disabled list, and the current
     * item stays current at its new row.
     */
    method SortEnabled()
      requires Valid()
      modifies this
      ensures Valid()
      ensures AscendingBy(sortKey, enabled) && multiset(enabled) == multiset(old(enabled))
      ensures old(enabledRow) == -1 ==> enabledRow == -1
      ensures old(enabledRow) != -1 ==> 0 <= enabledRow && enabled[enabledRow] == old(enabled)[old(enabledRow)]
      ensures disabled == old(disabled) && disabledRow == old(disabledRow)
    {
      var sorted := InsertAllBy(sortKey, enabled);
      assert |sorted| == |multiset(sorted)| == |enabled|;
      if enabledRow != -1 {
        var x := enabled[enabledRow];
        assert x in multiset(sorted);
        enabledRow := RowOf(x, sorted);
      }
      enabled := sorted;
    }
  }
}
