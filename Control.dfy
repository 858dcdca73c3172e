/**
 * Gui::ControlSingleton (src/Gui/Control.cpp): the one place that knows
 * which task dialog is active. At most one task dialog is active at a
 * time; it is shown in the combo view when that dock window exists, or in
 * the task panel the file keeps otherwise.
 *
 * A task dialog is an id with its three "may alter" answers. Whether the
 * combo view exists is a parameter of each call, and the Qt widgets are
 * seen through which dialog each of them was handed.
 */
module Control {
  import opened Wrappers

  /** A task dialog: its identity and what it allows while active. */
  datatype TaskDialog = TaskDialog(id: nat, allowDocument: bool, allowView: bool, allowSelection: bool)

  /**
   * The control's state: the active dialog, whether the file's task panel
   * exists, the dialog last handed to the combo view and to that panel,
   * the warnings printed and the `closedDialog` connections made.
   */
  datatype State = State(
    active: Option<TaskDialog>,
    hasTaskPanel: bool,
    comboDialog: Option<TaskDialog>,
    panelDialog: Option<TaskDialog>,
    warnings: nat,
    connections: nat)

  /**
   * `showDialog` (Control.cpp:76-128): refused with a warning while another
   * dialog is active; with the combo view the dialog is shown there and
   * becomes the active one (connected once); without it, a task panel is
   * created for the dialog if there is none yet, and the active dialog is
   * left as it was.
   */
  function ShowDialog(s: State, dlg: Option<TaskDialog>, hasCombo: bool): State
  {
    if s.active.Some? && s.active != dlg then s.(warnings := s.warnings + 1)
    else if hasCombo then
      if s.active == dlg then s.(comboDialog := dlg)
      else s.(comboDialog := dlg, active := dlg, connections := s.connections + 1)
    else if !s.hasTaskPanel then s.(hasTaskPanel := true, panelDialog := dlg)
    else s
  }

  /** While a dialog is active, showing any other one only prints a warning. */
  lemma OnlyOneActiveDialog(s: State, dlg: Option<TaskDialog>, hasCombo: bool)
    requires s.active.Some? && dlg != s.active
    ensures ShowDialog(s, dlg, hasCombo) == s.(warnings := s.warnings + 1)
  {
  }

  /**
   * The active dialog changes only when there was none and the combo view
   * exists, and then it becomes the dialog shown.
   */
  lemma ActiveChangesOnlyThroughCombo(s: State, dlg: Option<TaskDialog>, hasCombo: bool)
    ensures var t := ShowDialog(s, dlg, hasCombo);
            t.active != s.active ==> hasCombo && s.active.None? && t.active == dlg
    ensures var t := ShowDialog(s, dlg, hasCombo);
            hasCombo && (s.active.None? || s.active == dlg) ==> t.active == dlg && t.comboDialog == dlg
    ensures !hasCombo ==> ShowDialog(s, dlg, hasCombo).active == s.active
  {
  }

  /** Showing the same dialog twice connects it once: the second call only re-shows it. */
  lemma ShowTwiceConnectsOnce(s: State, dlg: Option<TaskDialog>)
    ensures var once := ShowDialog(s, dlg, true);
            var twice := ShowDialog(once, dlg, true);
            twice.active == once.active && twice.connections == once.connections &&
            twice.comboDialog == once.comboDialog
  {
  }

  /**
   * The dialog handed to the file's task panel is destroyed: its
   * `destroyed` signal deletes the panel's dock window (Control.cpp:117),
   * and with it the panel, so the QPointer `_taskPanel` (line 28) is null
   * again. Destroying any other dialog leaves the panel alone.
   */
  function PanelDialogDestroyed(s: State, dlg: TaskDialog): (t: State)
    ensures s.hasTaskPanel && s.panelDialog == Some(dlg) ==> !t.hasTaskPanel && t.panelDialog.None?
    ensures t.(hasTaskPanel := s.hasTaskPanel, panelDialog := s.panelDialog) == s
    ensures !(s.hasTaskPanel && s.panelDialog == Some(dlg)) ==> t == s
  {
    if s.hasTaskPanel && s.panelDialog == Some(dlg) then s.(hasTaskPanel := false, panelDialog := None) else s
  }

  /**
   * Without the combo view a second dialog is ignored while the first
   * one's panel lives, and gets a panel of its own once that dialog is gone.
   */
  lemma PanelReopensAfterDestroy(s: State, first: TaskDialog, second: TaskDialog)
    requires s.active.None? && !s.hasTaskPanel
    ensures var shown := ShowDialog(s, Some(first), false);
            ShowDialog(shown, Some(second), false) == shown &&
            ShowDialog(PanelDialogDestroyed(shown, first), Some(second), false).panelDialog == Some(second)
  {
  }

  /** `closedDialog` (Control.cpp:188-200): no dialog is active any more. */
  function ClosedDialog(s: State): (t: State)
    ensures t.active.None?
    ensures t.(active := s.active) == s
  {
    s.(active := None)
  }

  /** After a dialog is closed, any dialog can be shown in the combo view and becomes active. */
  lemma ClosedThenShow(s: State, dlg: TaskDialog)
    ensures ShowDialog(ClosedDialog(s), Some(dlg), true).active == Some(dlg)
  {
  }

  /** `isAllowedAlterDocument` (Control.cpp:202-207): the active dialog's answer, true without one. */
  function IsAllowedAlterDocument(s: State): (r: bool)
    ensures s.active.None? ==> r
    ensures s.active.Some? ==> r == s.active.value.allowDocument
  {
    if s.active.Some? then s.active.value.allowDocument else true
  }

  /** `isAllowedAlterView` (Control.cpp:210-215). */
  function IsAllowedAlterView(s: State): (r: bool)
    ensures s.active.None? ==> r
    ensures s.active.Some? ==> r == s.active.value.allowView
  {
    if s.active.Some? then s.active.value.allowView else true
  }

  /** `isAllowedAlterSelection` (Control.cpp:217-222). */
  function IsAllowedAlterSelection(s: State): (r: bool)
    ensures s.active.None? ==> r
    ensures s.active.Some? ==> r == s.active.value.allowSelection
  {
    if s.active.Some? then s.active.value.allowSelection else true
  }

  /** Without the combo view no dialog becomes active, so every change stays allowed. */
  lemma WithoutComboEverythingAllowed(s: State, dlg: Option<TaskDialog>)
    requires s.active.None?
    ensures var t := ShowDialog(s, dlg, false);
            IsAllowedAlterDocument(t) && IsAllowedAlterView(t) && IsAllowedAlterSelection(t)
  {
  }

  /**
   * The file-level QPointer `_taskPanel` (Control.cpp:28) and the dialog
   * handed to its panel. It belongs to the file, not to a control: it is
   * null when the program starts and survives `destruct`.
   */
  class TaskPanelSlot {
    var hasTaskPanel: bool
    var panelDialog: Option<TaskDialog>

    constructor()
      ensures !hasTaskPanel && panelDialog.None?
    {
      hasTaskPanel := false;
      panelDialog := None;
    }
  }

  /** The control object itself, seeing the file's task panel through `panel`. */
  class ControlSingleton {
    var active: Option<TaskDialog>
    var comboDialog: Option<TaskDialog>
    var warnings: nat
    var connections: nat
    const panel: TaskPanelSlot

    function Current(): State
      reads this, panel
    {
      State(active, panel.hasTaskPanel, comboDialog, panel.panelDialog, warnings, connections)
    }

    /**
     * The constructor (Control.cpp:30-34): no active dialog; the task
     * panel is whatever the file holds.
     */
    constructor(panel: TaskPanelSlot)
      ensures this.panel == panel
      ensures Current() == State(None, panel.hasTaskPanel, None, panel.panelDialog, 0, 0)
    {
      active := None;
      comboDialog := None;
      warnings := 0;
      connections := 0;
      this.panel := panel;
    }

    /** `showDialog`, step by step (Control.cpp:76-128). */
    method Show(dlg: Option<TaskDialog>, hasCombo: bool)
      modifies this, panel
      ensures Current() == ShowDialog(old(Current()), dlg, hasCombo)
    {
      if active.Some? && active != dlg {
        warnings := warnings + 1;
        return;
      }
      if hasCombo {
        comboDialog := dlg;
        if active == dlg {
          return;
        }
        active := dlg;
        connections := connections + 1;
      } else if !panel.hasTaskPanel {
        panel.hasTaskPanel := true;
        panel.panelDialog := dlg;
      }
    }

    /** The panel's dialog destroyed, which deletes the panel (Control.cpp:117). */
    method DialogDestroyed(dlg: TaskDialog)
      modifies panel
      ensures Current() == PanelDialogDestroyed(old(Current()), dlg)
    {
      if panel.hasTaskPanel && panel.panelDialog == Some(dlg) {
        panel.hasTaskPanel := false;
        panel.panelDialog := None;
      }
    }

    /** `closedDialog` (Control.cpp:188-200). */
    method Closed()
      modifies this
      ensures Current() == ClosedDialog(old(Current()))
    {
      active := None;
    }
  }

  /**
   * The file's two statics: the singleton pointer `_pcSingleton`
   * (Control.cpp:27) and the task panel (line 28). Only the pointer is
   * reset by `destruct`; the panel belongs to the file, not to the control.
   */
  class Registry {
    var singleton: ControlSingleton?
    const panel: TaskPanelSlot

    /** Every control made here sees the file's task panel. */
    predicate Valid()
      reads this, singleton
    {
      singleton != null ==> singleton.panel == panel
    }

    /** Program start: no control and no task panel. */
    constructor()
      ensures Valid() && singleton == null && fresh(panel)
      ensures !panel.hasTaskPanel && panel.panelDialog.None?
    {
      singleton := null;
      panel := new TaskPanelSlot();
    }

    /**
     * `instance` (Control.cpp:226-231): the existing control, or a new one
     * created and kept on first use; a new one sees the task panel as the
     * file holds it.
     */
    method Instance() returns (c: ControlSingleton)
      requires Valid()
      modifies this
      ensures Valid() && singleton == c && c.panel == panel
      ensures old(singleton) != null ==> c == old(singleton)
      ensures old(singleton) == null ==>
        fresh(c) && c.Current() == State(None, panel.hasTaskPanel, None, panel.panelDialog, 0, 0)
      ensures panel.hasTaskPanel == old(panel.hasTaskPanel) && panel.panelDialog == old(panel.panelDialog)
    {
      if singleton == null {
        singleton := new ControlSingleton(panel);
      }
      c := singleton;
    }

    /** `destruct` (Control.cpp:233-238): the control is dropped and the pointer reset; the task panel stays. */
    method Destruct()
      modifies this
      ensures Valid() && singleton == null
      ensures panel.hasTaskPanel == old(panel.hasTaskPanel) && panel.panelDialog == old(panel.panelDialog)
    {
      singleton := null;
    }

    /** Two calls of `instance` in a row hand back the same control. */
    method InstanceTwice() returns (first: ControlSingleton, second: ControlSingleton)
      requires Valid()
      modifies this
      ensures first == second && singleton == first
    {
      first := Instance();
      second := Instance();
    }

    /**
     * Without the combo view, a dialog shown before `destruct` keeps its
     * task panel after it: a control created again ignores the next
     * dialog, since the file's panel is still there.
     */
    method PanelOutlivesControl(first: TaskDialog, second: TaskDialog) returns (c: ControlSingleton)
      requires Valid() && singleton == null && !panel.hasTaskPanel
      modifies this, panel
      ensures c.Current().hasTaskPanel && c.Current().panelDialog == Some(first)
    {
      var a := Instance();
      a.Show(Some(first), false);
      Destruct();
      c := Instance();
      c.Show(Some(second), false);
    }
  }
}
