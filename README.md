# FreeCAD core slice, modelled in Dafny

This project models a slice of FreeCAD: the code that builds meshes, the
per-object recompute hooks of a few document objects, some link and group
queries, and a set of small state machines, tables, parsers and formatters
from the GUI, the base library and the Path workbench. The CAD kernel
(OpenCASCADE), Qt, Coin and the Python interpreter are not modelled. Where
the code depends on them, their answers are parameters, which act as
oracles.

One Dafny module stands for each source file:

- **Mesh construction** (`src/Mod/Mesh/App/Core/Builder.cpp`):
  - `MeshCore` holds the kernel data: points, facets, edges and the
    `Vertex` order.
  - `MeshBuilder` is the `MeshBuilder` class. It keeps its point set and
    index counter and works on a `MeshKernel` object.
  - `MeshNeighbours` states `SetNeighbourhood` as a function, with its
    closed form.
  - `MeshPrune` states `RemoveUnreferencedPoints` as a function.
  - `MeshFastBuilder` covers `MeshFastBuilder::Finish`. It sorts, merges
    equal vertices in place on an array, and remaps facet corners.
- **Document objects**:
  - `DocModel` is the shared document slice that the other modules use.
  - `AppPart` is `Part::getPartOfObject`.
  - `OriginGroup` is `OriginGroupExtension`.
  - `FeaturePython` is `FeaturePythonImp`.
  - `Attach` is `AttachExtension`.
  - `PartShape` holds the shape oracles.
  - `PartBoolean` is `Part::Boolean`.
  - `PartFace` is `Part::Face`.
  - `DocumentObserver` covers `DocumentT`, `DocumentObjectT`,
    `DocumentObserver` and `DocumentObjectObserver`.
- **Base and GUI**:
  - `UnitsSchema` is the internal units schema.
  - `Workbenches` is the workbench dialog and its preference strings.
  - `CommandView` covers FreezeViews, DrawStyle, ToggleVisibility and the
    camera command.
  - `SelectionView` is the selection dock window.
  - `Control` is the task-dialog controller.
  - `SyntaxHighlighter` is the colour table.
- **Path workbench**:
  - `PathCommand` is the `Path.Command` Python wrapper.
  - `PathCompound` is the compound feature wrapper.
  - `PathGui` covers the property helpers and `QuantitySpinBox`.
  - `PathDeburr` is the Deburr operation's geometry and pass depths.
  - `PathIconViewProvider` is the generic view provider and its registry.
- **Shared helpers**: `Wrappers` (`Option`/`Result`), `Strings` (split,
  join, upper-casing) and `StdMap` (a `std::map` as a sorted list of
  pairs).

The source keeps some state in objects that it updates in place: the mesh
builders, the kernel, the observers, the task controller, the highlighter,
the dialogs, the view providers and the link owner of `relinkToOrigin`.
Those objects are Dafny classes, and their methods are proved against
specification functions. Pure queries and tables are functions. Lemmas
relate the functions to one another.

## Model

| member | source | states |
|---|---|---|
| AppPart.FirstPartAt | src/App/Part.cpp:55-61 | The first Part in a list: no earlier entry is a Part, and None exactly when no entry is one. |
| AppPart.GetPartOfObject | src/App/Part.cpp:51-62 | `getPartOfObject`: a result is a Part that links to the object directly, and the result is null exactly when no entry of the direct InList is a Part. |
| AppPart.PartOfObjectIsFirstInList | src/App/Part.cpp:51-62 | The result is a Part that links directly to the object, no earlier InList entry is a Part, and the result is null exactly when no InList entry is a Part; nothing beyond the direct InList is searched. |
| Attach.ChangeDecision | src/Mod/Part/App/AttachExtension.cpp:75-98 | The decision of `changeAttacherType`: nothing when the name is the current attacher's type or when there is no attacher and the name is empty; clearing for an empty name; installing a registered engine type; an AttachEngineException for any other name. |
| Attach.VisibilityFor | src/Mod/Part/App/AttachExtension.cpp:162-177 | The visibility rules of `extensionOnChanged` and `onExtendedDocumentRestored`: from whether positioning attached the object, the mode, and whether the attacher holds exactly one reference. |
| Attach.PathParameterShownOnlyOnCurve | src/Mod/Part/App/AttachExtension.cpp:162-177 | MapPathParameter is shown only for an attached object in a point-on-curve mode with one reference, and then MapReversed and AttachmentOffset are shown too and the placement is read-only. |
| Attach.RestoresOffset | src/Mod/Part/App/AttachExtension.cpp:189-196 | `extHandleChangedPropertyName`: a property stored under the legacy name "superPlacement" with the placement property's type is read into AttachmentOffset. |
| Attach.AttachExtension.constructor | src/Mod/Part/App/AttachExtension.cpp:23-50 | The constructor: a 3D attach engine, deactivated, no support, the three optional properties hidden. |
| Attach.AttachExtension.SetAttacher | src/Mod/Part/App/AttachExtension.cpp:58-73 | `setAttacher`: installs the engine (set up from the current properties) and writes AttacherType only when it differs, so the onChanged call it triggers finds nothing to change. |
| Attach.AttachExtension.ChangeAttacherType | src/Mod/Part/App/AttachExtension.cpp:75-99 | `changeAttacherType`: true when the attacher was replaced or cleared, false when nothing needed to change, an error for a name that is no engine type. |
| Attach.AttachExtension.PositionBySupport | src/Mod/Part/App/AttachExtension.cpp:101-115 | `positionBySupport`: an error without an attacher; otherwise the engine is set up from the properties, and the result is false in deactivated mode or when the engine cancels, an error when it fails, and true once the placement is written. |
| Attach.AttachExtension.UpdateVisibility | src/Mod/Part/App/AttachExtension.cpp:162-177 | Writes the three hidden bits and the placement read-only bit as `VisibilityFor` gives them for the positioning outcome; nothing else changes. |
| Attach.AttachExtension.OnChanged | src/Mod/Part/App/AttachExtension.cpp:139-187 | `extensionOnChanged`. For one of the five attachment properties, outside a restore, positioning runs: the placement becomes the engine's placement when there is an engine, the mode is not Deactivated and positioning succeeded, and stays otherwise; a failure sets the Error status instead of escaping, and the visibility bits follow the outcome. A change of AttacherType gives what `ChangeDecision` decides: an escaping error with nothing changed, no change, clearing the engine, or installing the named engine (true for the last two). Every other property returns false and leaves the engine and its type. |
| Attach.AttachExtension.DocumentRestored | src/Mod/Part/App/AttachExtension.cpp:198-228 | `onExtendedDocumentRestored`: with an engine, the placement becomes the engine's placement when the mode is not Deactivated and positioning succeeded; the visibility bits are updated like `extensionOnChanged`, except that a positioning failure is swallowed and leaves every bit and the placement as they were. AttacherType is unchanged. |
| Attach.AttachExtension.Execute | src/Mod/Part/App/AttachExtension.cpp:122-137 | `extensionExecute`: repositions when the mapping properties are touched, the placement following the engine's outcome; a positioning failure escapes as an error, otherwise the base extension's result is returned. The engine, its type, the support and the map mode are unchanged. |
| Attach.AttachExtension.HandleChangedPropertyName | src/Mod/Part/App/AttachExtension.cpp:189-196 | `extHandleChangedPropertyName`: reads the stored value into AttachmentOffset only for the legacy name. |
| CommandView.FirstHidden | src/Gui/CommandView.cpp:255-276 | The slot a freeze fills: the first hidden one, with every slot before it visible; None when all slots are in use. |
| CommandView.FirstHiddenAfterPrefix | src/Gui/CommandView.cpp:255-276 | With the views kept as a prefix, the first hidden slot is the one right after them. |
| CommandView.SavedSettings | src/Gui/CommandView.cpp:309-321 | The settings written for the views, up to the first hidden slot. |
| CommandView.SavedSettingsOfPrefix | src/Gui/CommandView.cpp:309-321 | With the views kept as a prefix, every kept view is written, and no other. |
| CommandView.Restored | src/Gui/CommandView.cpp:397-416 | The slots after restoring `n` cameras: those filled in order, all others hidden. |
| CommandView.FreezeViews.constructor | src/Gui/CommandView.cpp:203-241 | The command with its action created: 50 hidden slots. |
| CommandView.FreezeViews.Freeze | src/Gui/CommandView.cpp:255-276 | Freeze (iMsg 3, CommandView.cpp:255-276): the first hidden slot takes the camera and becomes visible, and one more view is counted; with every slot in use nothing changes. |
| CommandView.FreezeViews.Clear | src/Gui/CommandView.cpp:277-282 | Clear (iMsg 4, CommandView.cpp:277-282): no views kept, every slot hidden. |
| CommandView.FreezeViews.SaveViews | src/Gui/CommandView.cpp:292-330 | `onSaveViews` once a file was chosen and opened: the count written and the settings of each view, up to the first hidden slot. |
| CommandView.FreezeViews.RestoreViews | src/Gui/CommandView.cpp:332-417 | `onRestoreViews`: with views kept, only when the user confirms; then only for a parsed file whose root is "FrozenViews" with SchemaVersion 1. The first min(cameras, slots) slots take the cameras in order, the rest are hidden, and that many views are counted. |
| CommandView.FreezeViews.IsActive | src/Gui/CommandView.cpp:420-435 | `isActive`: with a 3D view active, saving and clearing are enabled iff views are kept and freezing iff fewer than 50 are; the separator shows iff views are kept. |
| CommandView.FreezeViews.ActivateMessage | src/Gui/CommandView.cpp:283-289 | Activating a view: the message sent to the active view is "SetCamera " and the slot's settings. |
| CommandView.FreezeEnabledIffSlotFree | src/Gui/CommandView.cpp:420-435 | Freezing is enabled exactly when a slot is free for the next view. |
| CommandView.DrawStyleEntry | src/Gui/CommandView.cpp:651-681 | `StdCmdDrawStyle::updateIcon`: the entry checked for the view's override mode; 0 (As is) for any mode not listed. |
| CommandView.DrawStyleEntryNamesMode | src/Gui/CommandView.cpp:651-681 | The checked entry names the mode back, and entry 0 means the mode is none of the six. |
| CommandView.DrawStyleEntryOfListed | src/Gui/CommandView.cpp:651-681 | Every mode of the draw-style list checks the entry one past its own position, and no two listed modes share an entry. |
| CommandView.IgnoredGroups | src/Gui/CommandView.cpp:761-772 | The groups Std_ToggleVisibility leaves alone: each selected group with a selected member, once per occurrence. |
| CommandView.Without | src/Gui/CommandView.cpp:776-781 | std::set_difference on a sorted `s`: an element is kept exactly when it is not in `drop`, with every copy it has in `s`, and every copy of a dropped element goes. |
| CommandView.WithoutKeepsOrder | src/Gui/CommandView.cpp:761-782 | Dropping the ignored groups from the sorted selection leaves it sorted. |
| CommandView.ToggleTargets | src/Gui/CommandView.cpp:761-782 | The objects Std_ToggleVisibility toggles: with no group to ignore, the selection as it is; otherwise sorted. An object is a target exactly when it is selected and is not a group with a selected member; each target is toggled as many times as it is selected, an ignored group not at all. |
| CommandView.Spaced | src/Gui/CommandView.cpp:2146-2147 | Every newline turned into a space: same length, and no newline left. |
| CommandView.IssueCameraPosition | src/Gui/CommandView.cpp:2133-2157 | `StdCmdViewIvIssueCamPos::activated`: the camera text without its first line, each newline turned into a space one at a time, and the macro line that sets that camera. |
| CommandView.SpacedReplace | src/Gui/CommandView.cpp:2146-2147 | Replacing one newline by a space leaves one newline fewer and the same spaced text. |
| CommandView.SpacedWithoutNewline | src/Gui/CommandView.cpp:2146-2147 | Text without a newline is its own spaced form. |
| CommandView.SpacedAround | src/Gui/CommandView.cpp:2146-2147 | Text around a newline: the part before it, a space, the rest spaced. |
| CommandView.SpacedJoinsLines | src/Gui/CommandView.cpp:2146-2147 | Turning newlines into spaces is joining the lines with spaces. |
| CommandView.CameraLineIsSavedPosition | src/Gui/CommandView.cpp:2132-2157 | The console text of the camera command is the text the views file would store for the same camera, after the one space that replaced the first newline. |
| Control.OnlyOneActiveDialog | src/Gui/Control.cpp:76-128 | While a dialog is active, showing any other one only prints a warning. |
| Control.ActiveChangesOnlyThroughCombo | src/Gui/Control.cpp:76-128 | The active dialog changes only when there was none and the combo view exists, and then it becomes the dialog shown. |
| Control.ShowTwiceConnectsOnce | src/Gui/Control.cpp:76-128 | Showing the same dialog twice connects it once: the second call only re-shows it. |
| Control.PanelDialogDestroyed | src/Gui/Control.cpp:28-117 | The dialog of the file's task panel is destroyed: the panel's dock window goes with it, so the QPointer `_taskPanel` is null again and no dialog is shown there; destroying any other dialog changes nothing, and the active dialog, warnings and connections never change. |
| Control.PanelReopensAfterDestroy | src/Gui/Control.cpp:109-117 | Without the combo view, a second dialog is ignored while the first dialog's panel exists, and gets a panel of its own once the first dialog is destroyed. |
| Control.ClosedDialog | src/Gui/Control.cpp:188-200 | `closedDialog`: afterwards no dialog is active, and nothing else about the control changes. |
| Control.ClosedThenShow | src/Gui/Control.cpp:188-200 | After a dialog is closed, any dialog can be shown in the combo view and becomes active. |
| Control.IsAllowedAlterDocument | src/Gui/Control.cpp:202-207 | `isAllowedAlterDocument`: the active dialog's answer, true without one. |
| Control.IsAllowedAlterView | src/Gui/Control.cpp:210-215 | `isAllowedAlterView`: always allowed without an active dialog; with one, exactly what that dialog permits for the view. |
| Control.IsAllowedAlterSelection | src/Gui/Control.cpp:217-222 | `isAllowedAlterSelection`: always allowed without an active dialog; with one, exactly what that dialog permits for the selection. |
| Control.WithoutComboEverythingAllowed | src/Gui/Control.cpp:76-128 | Without the combo view no dialog becomes active, so every change stays allowed. |
| Control.TaskPanelSlot.constructor | src/Gui/Control.cpp:28 | The file-level `_taskPanel` starts null: no panel and no dialog in it. |
| Control.ControlSingleton.constructor | src/Gui/Control.cpp:27-34 | A new control: no active dialog, nothing shown in the combo view, no warnings and no connections; it sees the file-level task panel and its dialog as they stand, which may be a panel left from a destroyed control. |
| Control.ControlSingleton.Show | src/Gui/Control.cpp:76-128 | `showDialog` on the control object: its new state is `ShowDialog` of the state before, whose properties the Control lemmas prove. |
| Control.ControlSingleton.DialogDestroyed | src/Gui/Control.cpp:117 | The `destroyed` connection: the control's state becomes `PanelDialogDestroyed` of the old one. |
| Control.ControlSingleton.Closed | src/Gui/Control.cpp:188-200 | `closedDialog` on the control object: its new state is `ClosedDialog` of the state before, so no dialog stays active. |
| Control.Registry.constructor | src/Gui/Control.cpp:27-28 | Program start: `_pcSingleton` is null and the task panel is null. |
| Control.Registry.Instance | src/Gui/Control.cpp:226-231 | `instance`: the existing control, or a new one created and kept when there is none. A new control sees the file's task panel as it stands, and the panel is not touched. |
| Control.Registry.Destruct | src/Gui/Control.cpp:233-238 | `destruct`: afterwards there is no control instance, so the next `instance()` creates a fresh one; the file's task panel and its dialog stay as they were. |
| Control.Registry.InstanceTwice | src/Gui/Control.cpp:226-231 | Two calls of `instance` in a row hand back the same control. |
| Control.Registry.PanelOutlivesControl | src/Gui/Control.cpp:233-238 | Without the combo view: show a dialog, `destruct`, then `instance` and show a second dialog. The file's panel still holds the first dialog, and the second is not shown. |
| DocumentObserver.DocumentPython | src/App/DocumentObserver.cpp:66-79 | `getDocumentPython`: the active document is reached as `App.ActiveDocument`, any other by name. |
| DocumentObserver.ObjectPython | src/App/DocumentObserver.cpp:159-174 | `getObjectPython`: the document part, a dot, the object name. |
| DocumentObserver.ObjectPythonExtendsDocumentPython | src/App/DocumentObserver.cpp:159-174 | The object expression extends the document expression by "." and the object's name, whether or not its document is the active one. |
| DocumentObserver.DocumentPythonNamesDocument | src/App/DocumentObserver.cpp:66-79 | Distinct documents that are not active render distinctly: the name is recovered from between the quotes. |
| DocumentObserver.DocumentT.Assign | src/App/DocumentObserver.cpp:39-44 | Assignment from another holder: a self-assignment returns at once; otherwise the name is copied. |
| DocumentObserver.DocumentT.Python | src/App/DocumentObserver.cpp:66-79 | The expression for the held document name: `App.ActiveDocument` for the active document, `App.getDocument("name")` otherwise. |
| DocumentObserver.DocumentObjectT.AssignObject | src/App/DocumentObserver.cpp:107-112 | Assignment from an object: all three names are taken. |
| DocumentObserver.DocumentObjectT.Assign | src/App/DocumentObserver.cpp:98-105 | Assignment from another holder: a self-assignment returns at once; otherwise all three names are copied. |
| DocumentObserver.DocumentObjectT.Python | src/App/DocumentObserver.cpp:159-174 | The expression for the held object: the document expression, a dot, and the object name. |
| DocumentObserver.Observer.AttachDocument | src/App/DocumentObserver.cpp:209-226 | `attachDocument`: nothing for the document already attached; otherwise the current one is detached first and the new one connected. |
| DocumentObserver.Observer.DetachDocument | src/App/DocumentObserver.cpp:228-238 | `detachDocument`: afterwards no document is attached, and the signals are disconnected exactly when one was attached before. |
| DocumentObserver.AfterDeletion | src/App/DocumentObserver.cpp:316-321 | The observed set after deleting `obj`: `obj` is gone, and every other observed object stays observed. |
| DocumentObserver.DeletionEmptiesOnlyLast | src/App/DocumentObserver.cpp:316-324 | Deleting an object that is not observed leaves the set alone, and the set is left empty exactly when it held nothing but that object. |
| DocumentObserver.ObjectObserver.constructor | src/App/DocumentObserver.cpp:271-273 | A new observer: attached to no document, observing nothing, no cancellation yet. |
| DocumentObserver.ObjectObserver.AddToObservation | src/App/DocumentObserver.cpp:289-292 | `addToObservation`: the object joins the observed set, the others stay, and no cancellation happens. |
| DocumentObserver.ObjectObserver.RemoveFromObservation | src/App/DocumentObserver.cpp:294-297 | `removeFromObservation`: only that object leaves the observed set, and no cancellation happens even when the set becomes empty. |
| DocumentObserver.ObjectObserver.DeletedDocument | src/App/DocumentObserver.cpp:303-310 | `slotDeletedDocument`: deleting the observed document detaches, clears the set and cancels; any other document changes nothing. |
| DocumentObserver.ObjectObserver.DeletedObject | src/App/DocumentObserver.cpp:316-324 | `slotDeletedObject`: the object leaves the set if it was in it, and the observation is cancelled whenever the set is then empty, whether or not the object was observed. |
| FeaturePython.ExecuteResult | src/App/FeaturePython.cpp:34-78 | The result of `execute`. It is false while a proxy call is under way, without a usable proxy, or when the proxy returns the boolean False; a Python error becomes a RuntimeError "Label: text"; any other return value gives true. |
| FeaturePython.ExecuteCalls | src/App/FeaturePython.cpp:34-78 | `execute` calls the proxy at most once, exactly when the guard and the proxy allow it, and then calls its `execute` with the call guard set and no property. |
| FeaturePython.NotifyCalls | src/App/FeaturePython.cpp:80-152 | The proxy call a change notification makes, when it makes one. |
| FeaturePython.FeaturePythonImp.constructor | src/App/FeaturePython.cpp:22-24 | A new implementation: no proxy call under way and no call made. |
| FeaturePython.FeaturePythonImp.Execute | src/App/FeaturePython.cpp:34-78 | `execute`: guarded against re-entry by `PythonCall`, which is set only around the proxy call and cleared again on every exit path, the exceptional one included. |
| FeaturePython.FeaturePythonImp.Notify | src/App/FeaturePython.cpp:80-152 | `onChanged` and `onBeforeChange`: the proxy method is called only when the proxy offers it and the property has a name in the object; a Python error is reported and swallowed, so nothing escapes and the outcome does not matter. |
| MeshBuilder.Adopted | src/Mod/Mesh/App/Core/Builder.cpp:60-65 | The point set after adopting the kernel's points, with each point stored under the index of its first occurrence (the intended reading of Builder.cpp:60-65; see `AdoptedAsWritten`). |
| MeshBuilder.AdoptedAsWritten | src/Mod/Mesh/App/Core/Builder.cpp:60-65 | Builder.cpp:60-65 as written: the set keeps each adopted point with the `_ulProp` it already had, and `_ptIdx` becomes the size of the set. |
| MeshBuilder.AdoptedAsWrittenMisnumbers | src/Mod/Mesh/App/Core/Builder.cpp:60-65 | As written, adoption misnumbers points. Take kernel points A and B, both with property 0. A later facet corner at B is given index 0, which `Finish` fills with A. With A adopted twice, the next new point is given index 1, which is also A's slot. |
| MeshBuilder.MeshBuilder.constructor | src/Mod/Mesh/App/Core/Builder.cpp:21-24 | A new builder on a kernel: an empty point set and point numbering at 0. |
| MeshBuilder.MeshBuilder.Initialize | src/Mod/Mesh/App/Core/Builder.cpp:37-78 | With `deletion` the kernel is emptied and numbering starts at 0. Without it, any kernel whose facet corners name its points is adopted: its points move into the set in their order and its point array is emptied; its facets stay as they are. Adopted points are numbered by the corrected `Adopted` of the Builder.cpp:60-65 row under Findings (the first occurrence's position), not as the source is written. |
| MeshBuilder.MeshBuilder.ResolvePoint | src/Mod/Mesh/App/Core/Builder.cpp:113-127 | Looks `v` up in the set: a known point keeps its index; a new point gets `ptIdx`, which then goes up by one. |
| MeshBuilder.MeshBuilder.AddFacet | src/Mod/Mesh/App/Core/Builder.cpp:98-134 | The three points are numbered (old numbers kept), with the second and third swapped by `flip`. The facet is appended exactly when its corners are three different points, with the given flag and property; otherwise the facet list is unchanged. The builder stays valid, and facets that were all non-degenerate stay so. |
| MeshBuilder.MeshBuilder.ResolveCorners | src/Mod/Mesh/App/Core/Builder.cpp:113-127 | The corner loop of AddFacet: each corner ends up in the point set and gets its point index; a new point gets the next index, and points already known keep theirs. |
| MeshBuilder.MeshBuilder.AddGeomFacet | src/Mod/Mesh/App/Core/Builder.cpp:80-90 | The MeshGeomFacet overload: the facet's flag and property are taken only when asked for, 0 otherwise. Its three corners are numbered as by the point overload, and the facet with those indices, the flip applied, is appended exactly when its three points are different. |
| MeshBuilder.MeshBuilder.SetNeighbourhood | src/Mod/Mesh/App/Core/Builder.cpp:136-180 | The kernel facets become `MeshNeighbours.Neighbourhood` of the facets before the call; only neighbour slots change. |
| MeshBuilder.MeshBuilder.LinkEdge | src/Mod/Mesh/App/Core/Builder.cpp:146-176 | One edge of one facet: a new edge is recorded with the facet; a known one links the facet recorded for it and this one to each other, in the slot of the shared edge. |
| MeshBuilder.MeshBuilder.RemoveUnreferencedPoints | src/Mod/Mesh/App/Core/Builder.cpp:182-194 | After the call the kernel is `MeshPrune` of the facets and points before it: the points no corner names are gone, the others keep their order, and corners follow their points (see the `MeshPrune` lemmas). |
| MeshBuilder.MeshBuilder.RemoveInvalids | src/Mod/Mesh/App/Core/Builder.cpp:192-193 | Drops the points whose flag is cleared and renumbers the corners (the part of MeshKernel::RemoveInvalids this builder relies on). |
| MeshBuilder.MeshBuilder.Finish | src/Mod/Mesh/App/Core/Builder.cpp:196-233 | Writes the points into the kernel in index order, empties the set, links neighbours and drops unused points. Every facet corner still names the point it was given, and every kernel point is used. |
| MeshBuilder.MarkUsed | src/Mod/Mesh/App/Core/Builder.cpp:184-189 | Sets the valid flag of every point some facet corner names, starting from all points flagged invalid. |
| MeshBuilder.CountValid | src/Mod/Mesh/App/Core/Builder.cpp:191 | The count_if loop over the point flags: the number of points flagged valid. |
| MeshCore.VertexLessStrictTotal | src/Mod/Mesh/App/Core/Builder.cpp:250-257 | `VertexLess` is a strict total order, which std::sort needs of it. |
| MeshCore.NewFacet | src/Mod/Mesh/App/Core/Builder.cpp:130-131 | A facet as the builder creates it: no neighbours yet. |
| MeshCore.EdgesDistinct | src/Mod/Mesh/App/Core/Builder.cpp:141-148 | The three edges of a non-degenerate facet are distinct. |
| MeshCore.NeighbourSlot | src/Mod/Mesh/App/Core/Builder.cpp:153-168 | The neighbour slot of an earlier facet that a shared edge selects: slot 0 when corners 0 and 1 are the edge's end points, slot 2 when only corner 0 is, slot 1 otherwise. |
| MeshCore.NeighbourSlotOfEdge | src/Mod/Mesh/App/Core/Builder.cpp:153-168 | On a non-degenerate facet the selected slot is the one holding that edge. |
| MeshFastBuilder.Sort | src/Mod/Mesh/App/Core/Builder.cpp:309 | The ordering step of Finish: sorted by `VertexLess`, and a permutation of its input. |
| MeshFastBuilder.Tagged | src/Mod/Mesh/App/Core/Builder.cpp:303-305 | Each input vertex paired with the slot it came from, in input order. |
| MeshFastBuilder.SortedTagged | src/Mod/Mesh/App/Core/Builder.cpp:303-309 | The sorted tagged vertices are exactly the input: each names a slot of the input and carries that slot's position, and every slot appears. |
| MeshFastBuilder.MergeStep | src/Mod/Mesh/App/Core/Builder.cpp:313-319 | One iteration of the merge loop keeps `Merged`, whether it copies or not. |
| MeshFastBuilder.MergeEqual | src/Mod/Mesh/App/Core/Builder.cpp:313-319 | The merge loop of Finish, in place on the sorted array: each vertex that differs from the last kept one is copied down to the next free slot, and its input slot is mapped to the kept vertex. `from` names, for each kept vertex, a sorted position it came from. |
| MeshFastBuilder.CornersLandOnInput | src/Mod/Mesh/App/Core/Builder.cpp:321-327 | When every input slot maps to a point at its position, every corner of the facet built from slots 3f..3f+2 lies where the input vertex was. |
| MeshFastBuilder.MeshFastBuilder.constructor | src/Mod/Mesh/App/Core/Builder.cpp:263-265 | A new fast builder on a kernel: no vertices collected. |
| MeshFastBuilder.MeshFastBuilder.AddFacet | src/Mod/Mesh/App/Core/Builder.cpp:277-297 | Appends the three corners of a facet, in order, to the collected vertices. |
| MeshFastBuilder.MeshFastBuilder.Finish | src/Mod/Mesh/App/Core/Builder.cpp:299-338 | Builder.cpp:299-338. The kernel receives the distinct vertices in strictly increasing order and one facet per three input vertices (counted before merging), each corner naming the merged vertex at the input position it came from. The facets are not checked for repeated corners. |
| MeshFastBuilder.MeshFastBuilder.MergedVertices | src/Mod/Mesh/App/Core/Builder.cpp:302-319 | Tags, sorts and merges the input vertices: the merged vertices are strictly increasing, each comes from the input, and `ix` maps every input slot to the merged vertex at its position. |
| MeshFastBuilder.MeshFastBuilder.CornerFacets | src/Mod/Mesh/App/Core/Builder.cpp:321-327 | The facet loop of Finish: one new facet, without neighbours, per three input slots, whose corners are the merged indices of those three slots in order. |
| MeshFastBuilder.MeshFastBuilder.PointsOf | src/Mod/Mesh/App/Core/Builder.cpp:329-335 | The point loop of Finish: one kernel point per merged vertex, at its position and in its order. |
| MeshFastBuilder.MeshFastBuilder.SortVertices | src/Mod/Mesh/App/Core/Builder.cpp:303-309 | Tags every vertex with its slot and sorts them; `parallel_sort` is modelled as the sequential `Sort`. |
| MeshNeighbours.LinkStep | src/Mod/Mesh/App/Core/Builder.cpp:141-178 | One pass of the inner loop body for edge `i` of facet `f`: a new edge is recorded with `f`; a known edge links the facet recorded for it and `f`. Only neighbour slots change, and every recorded facet stays in range. |
| MeshNeighbours.Run | src/Mod/Mesh/App/Core/Builder.cpp:141-178 | The loop from position (`f`, `i`) to the end of the facet array: only neighbour slots change. |
| MeshNeighbours.Neighbourhood | src/Mod/Mesh/App/Core/Builder.cpp:136-180 | The facet array after SetNeighbourhood: only neighbour slots change; which ones and how `NeighbourhoodClosedForm` states. |
| MeshNeighbours.FirstHolder | src/Mod/Mesh/App/Core/Builder.cpp:136-180 | The first facet with an edge: it has the edge and no earlier facet does; None exactly when no facet has it. |
| MeshNeighbours.LastHolder | src/Mod/Mesh/App/Core/Builder.cpp:136-180 | The last facet with an edge: it has the edge and no later facet does; None exactly when no facet has it. |
| MeshNeighbours.NeighbourhoodClosedForm | src/Mod/Mesh/App/Core/Builder.cpp:136-180 | The closed form of SetNeighbourhood on non-degenerate facets. Slot `j` of facet `g` (edge `k`) points at the first facet that has `k` when that is another facet. When `g` is itself the first, the slot points at the last facet that has `k` if that is another facet. An edge no other facet has leaves the slot as it was. |
| MeshNeighbours.NeighbourIsFirstHolder | src/Mod/Mesh/App/Core/Builder.cpp:170 | A facet edge that an earlier facet already had is linked to the first such facet. |
| MeshNeighbours.FirstAndLastLinked | src/Mod/Mesh/App/Core/Builder.cpp:136-180 | The facets are linked symmetrically: the first facet that has an edge and the last that has it point at each other when they differ. |
| MeshPrune.UsedMask | src/Mod/Mesh/App/Core/Builder.cpp:184-189 | The flag of every point after the corner walk: set exactly when some facet corner names the point. |
| MeshPrune.CountTrue | src/Mod/Mesh/App/Core/Builder.cpp:191 | The number of `true` entries (std::count_if with MeshPoint::IsValid). |
| MeshPrune.Compact | src/Mod/Mesh/App/Core/Builder.cpp:192-193 | The elements whose flag is set, in their order: as many as there are set flags (RemoveInvalids on the point array). |
| MeshPrune.PruneKeepsGeometry | src/Mod/Mesh/App/Core/Builder.cpp:182-194 | After pruning, every corner still names the same point as before, and facets keep their neighbours, flags and properties. |
| MeshPrune.PruneLeavesOnlyReferenced | src/Mod/Mesh/App/Core/Builder.cpp:182-194 | After pruning, every point is used by some facet. |
| MeshPrune.PruneNoOpWhenAllUsed | src/Mod/Mesh/App/Core/Builder.cpp:191-193 | When every point is used, pruning changes nothing. |
| OriginGroup.GetOrigin | src/App/OriginGroupExtension.cpp:33-49 | `getOrigin`: the linked object when it is an App::Origin; a RuntimeError naming the group when nothing is linked, or naming the bad object and its type when it is not an Origin. |
| OriginGroup.GetOriginErrorNamesGroup | src/App/OriginGroupExtension.cpp:33-49 | Either error of `getOrigin` ends with the group's quoted name. |
| OriginGroup.MustExecute | src/App/OriginGroupExtension.cpp:72-78 | `extensionMustExecute`: 1 whenever the Origin link is touched, otherwise the base extension's answer. |
| OriginGroup.Execute | src/App/OriginGroupExtension.cpp:80-89 | `extensionExecute`: a missing or bad origin becomes an error return carrying getOrigin's message; otherwise the base extension's result is returned. Nothing is thrown. |
| OriginGroup.GroupOfObject | src/App/OriginGroupExtension.cpp:51-70 | `getGroupOfObject`: null for null; else the first InList object with an OriginGroupExtension, where for an origin feature an Origin in its InList is searched the same way first. |
| OriginGroup.ScanInList | src/App/OriginGroupExtension.cpp:51-70 | The loop of getGroupOfObject over one InList: whatever it finds is an origin group of the document. |
| OriginGroup.FirstGroupAt | src/App/OriginGroupExtension.cpp:51-70 | The position of the first object with an OriginGroupExtension. |
| OriginGroup.ScanIsFirstGroup | src/App/OriginGroupExtension.cpp:51-70 | Without recursion, the scan returns the first InList object that is a group. |
| OriginGroup.GroupOfPlainObject | src/App/OriginGroupExtension.cpp:51-70 | For an object that is not an origin feature, getGroupOfObject is the first InList object carrying an OriginGroupExtension, or null. |
| OriginGroup.ScanFindsNearGroup | src/App/OriginGroupExtension.cpp:51-70 | A result is either a direct InList entry or, for an origin feature, a group in the InList of an Origin that links to the feature. |
| OriginGroup.FeatureForRole | src/App/OriginGroupExtension.cpp:125 | `getOrigin()->getOriginFeature(role)`: the feature the group's origin holds for the role, an error when the origin is missing or bad or holds no such role. |
| OriginGroup.RelinkOne | src/App/OriginGroupExtension.cpp:122-125 | Where one link goes: an origin feature to its role's feature, anything else nowhere. |
| OriginGroup.RelinkLinks | src/App/OriginGroupExtension.cpp:132-139 | The loop over a link list, which stops at the first failing lookup. |
| OriginGroup.RelinkEntries | src/App/OriginGroupExtension.cpp:155-160 | The loop over sub-link entries; sub-names are carried over. |
| OriginGroup.RelinkAll | src/App/OriginGroupExtension.cpp:118-164 | The whole property loop: the relinked prefix, one setter flag per processed property, and the error that stopped it, if any. |
| OriginGroup.RelinkAllPointwise | src/App/OriginGroupExtension.cpp:118-164 | The loop processes the properties one by one: every processed property got its own relinked value, and an error comes from the first property whose relinking failed. |
| OriginGroup.RelinkPropertyByRole | src/App/OriginGroupExtension.cpp:119-163 | Relinking a property: a link to an origin feature now names the feature of the group's origin with the same Role, every other link and every sub-element name is kept, and the setter ran exactly when some link was to an origin feature. |
| OriginGroup.RelinkToOrigin | src/App/OriginGroupExtension.cpp:111-165 | `relinkToOrigin`: rewrites the owner's link properties in order. An exception from getOrigin or getOriginFeature stops the loop with the properties before it already rewritten and the failing one and those after it untouched. |
| OriginGroup.RelinkAt | src/App/OriginGroupExtension.cpp:119-163 | One pass of relinkToOrigin's loop, on the property at position `i`. |
| OriginGroup.RelinkAllStops | src/App/OriginGroupExtension.cpp:118-164 | Once the loop has failed, the properties after the failing one change nothing. |
| OriginGroup.RelinkedIntoOrigin | src/App/OriginGroupExtension.cpp:111-165 | After a relinking that did not fail, every origin-feature link points into the group's origin. |
| OriginGroup.RelinkOneTwice | src/App/OriginGroupExtension.cpp:122-125 | Relinking a link that was already relinked gives it back unchanged, when the origin's features carry their own roles. |
| OriginGroup.RelinkPropertyTwice | src/App/OriginGroupExtension.cpp:111-165 | Relinking an already relinked property leaves its value unchanged. |
| OriginGroup.RelinkAllTwice | src/App/OriginGroupExtension.cpp:111-165 | Relinking a property list that relinked without error succeeds again and changes nothing, so an owner listed twice ends as if listed once. |
| OriginGroup.AddObjects | src/App/OriginGroupExtension.cpp:167-173 | `addObjects`: every owner is relinked, in list order, before the base addObjects runs. On success every origin-feature link of every owner points into the group's origin, even when an owner is listed twice. When the owners are distinct or the origin features hold their own roles, each owner's properties on success are `RelinkAll` of its old ones. On a throw at owner k, the earlier owners are relinked, owner k holds its relinked prefix and old tail, and owners not yet reached are unchanged. The base GeoFeatureGroupExtension::addObjects is not part of this model. |
| OriginGroup.AddAt | src/App/OriginGroupExtension.cpp:167-173 | One pass of the `addObjects` loop: owner `i`'s properties become `RelinkAll` of its old ones and its links point into the origin; on a throw it holds the relinked prefix before the failing property, followed by its old tail. Earlier owners keep their relinked values. |
| OriginGroup.HasObject | src/App/OriginGroupExtension.cpp:175-181 | `hasObject`: true for the origin itself and for anything the origin holds; otherwise the GroupExtension answer. A linked object that is not an Origin makes getOrigin throw. |
| OriginGroup.UnsetupObject | src/App/OriginGroupExtension.cpp:102-109 | `onExtendedUnsetupObject`: the linked origin is removed from the document unless it is already being removed; nothing else is removed. |
| PartBoolean.MustExecute | src/Mod/Part/App/FeaturePartBoolean.cpp:39-48 | `mustExecute`: 1 when both operands are set and one of them is touched, else 0. |
| PartBoolean.ExecuteOutcome | src/Mod/Part/App/FeaturePartBoolean.cpp:50-121 | `execute`: the failures in the order the source tests them (not Part objects; a null operand, a throwing operation or a throwing `buildHistory`, caught as fatal; an unfinished operation with its not-a-solid report; a null result; an invalid result under CheckModel). Shape and History are written exactly on success: the operation's result, or the refined shape when Refine is on and the refinement produced one. Each operand has one history entry, joined with the refinement exactly when the refinement and the joins before it finished. |
| PartBoolean.RefineFailureKeepsResult | src/Mod/Part/App/FeaturePartBoolean.cpp:50-121 | A refinement failure is ignored: the unrefined result is kept with the two unjoined history entries, exactly as with refinement switched off. |
| PartBoolean.RefinedShapeWithUnjoinedHistory | src/Mod/Part/App/FeaturePartBoolean.cpp:100-111 | When the refinement's `buildHistory` or a `joinHistory` throws after the refined shape was taken, the refined shape is still written, but the tool's history is not joined and the base's only when its join finished. |
| PartBoolean.NotSolidReportNamesOperands | src/Mod/Part/App/FeaturePartBoolean.cpp:71-81 | The report of an unfinished operation starts with "Boolean operation failed" and names an operand exactly when it is not a solid. |
| PartBoolean.BooleanFeature.constructor | src/Mod/Part/App/FeaturePartBoolean.cpp:23-37 | A new feature: empty history, Refine from the preferences. |
| PartBoolean.BooleanFeature.Execute | src/Mod/Part/App/FeaturePartBoolean.cpp:50-121 | `execute`: returns what `ExecuteOutcome` says, writes its Shape and History on success and leaves both as they were otherwise; Refine is unchanged. |
| PartFace.MustExecute | src/Mod/Part/App/FeatureFace.cpp:43-50 | `mustExecute`: 1 when FaceMakerClass or Sources is touched, otherwise the Part::Feature answer. |
| PartFace.MakerInputs | src/Mod/Part/App/FeatureFace.cpp:66-87 | The loop of `execute` over `links`: the maker inputs when every source is usable, else the first unusable source's error. |
| PartFace.SeveralSourcesAreAdded | src/Mod/Part/App/FeatureFace.cpp:66-87 | A compound is handed over whole only when it is the only source; with several sources every shape is added, so the maker sees exactly the sources' shapes in order. |
| PartFace.ExecuteOutcome | src/Mod/Part/App/FeatureFace.cpp:58-97 | `execute`: no sources is an error return; a `ConstructFromType` error, and then a throw of `Build` once every source is usable, escape as errors; the first unusable source, or a null built face, is an error return. The face is written exactly on success, and it is the shape `Build` produced. |
| PartFace.FaceFeature.constructor | src/Mod/Part/App/FeatureFace.cpp:36-41 | A feature as restored from a legacy document: the legacy face maker, a null shape, nothing fed yet. |
| PartFace.FaceFeature.SetupObject | src/Mod/Part/App/FeatureFace.cpp:52-56 | `setupObject`: new objects use the bullseye maker. |
| PartFace.FaceFeature.Execute | src/Mod/Part/App/FeatureFace.cpp:58-97 | `execute`: returns what `ExecuteOutcome` says and writes its face on success, else keeps the shape; on success the maker was fed exactly `MakerInputs` of the sources; the maker class is unchanged. |
| PartFace.InputsSnoc | src/Mod/Part/App/FeatureFace.cpp:66-87 | Feeding one more usable source appends its input. |
| PartFace.FirstErrorWins | src/Mod/Part/App/FeatureFace.cpp:66-87 | The error reported is that of the first unusable source. |
| PathCommand.ApplyItems | src/Mod/Path/App/CommandPyImp.cpp:63-90 | The dictionary loop of `PyInit` and `setParameters`: items are written one by one under their upper-cased key; the first item with a non-string key or a non-number value stops the loop with a TypeError, the items before it staying written. |
| PathCommand.ApplyOnlyAddsOrOverwrites | src/Mod/Path/App/CommandPyImp.cpp:63-90 | The loop only adds or overwrites: every key present before is still present, a key no item writes keeps its value, every key added is an upper-cased item key, and without an error every item's key is present. |
| PathCommand.LastItemWins | src/Mod/Path/App/CommandPyImp.cpp:63-90 | When every item is accepted, each written key holds the value of the last item that writes it. |
| PathCommand.Command.SetName | src/Mod/Path/App/CommandPyImp.cpp:120-125 | `setName`: the name is stored upper-cased. |
| PathCommand.Command.Apply | src/Mod/Path/App/CommandPyImp.cpp:63-90 | The dictionary loop of `PyInit` and `setParameters`, run on the object: parameters and error are `ApplyItems` of the old parameters, whose lemmas say the loop only adds or overwrites; the name is untouched. |
| PathCommand.Command.SetParameters | src/Mod/Path/App/CommandPyImp.cpp:139-168 | `setParameters`: only adds or overwrites keys; existing keys the argument does not name are kept. |
| PathCommand.Command.Init | src/Mod/Path/App/CommandPyImp.cpp:46-92 | `PyInit` with a name and a parameter dictionary: a non-empty name is parsed as G-code first (`parsed` is what `setFromGCode` yields), a parse error giving -1; then the dictionary is applied, a TypeError giving -1. |
| PathCommand.Command.SetCustomAttribute | src/Mod/Path/App/CommandPyImp.cpp:246-266 | `setCustomAttributes`: a one-letter attribute given a number is stored under the upper-case letter and gives 1; anything else stores nothing and gives 0. |
| PathCommand.Command.CustomAttribute | src/Mod/Path/App/CommandPyImp.cpp:230-244 | `getCustomAttributes`: for a one-letter attribute, the value under its upper-case letter or None; any other name is not handled here. |
| PathCommand.Command.Representation | src/Mod/Path/App/CommandPyImp.cpp:22-36 | `representation`: "Command NAME [ K:v ... ]", entries in key order; `fmt` is the five-digit stream formatting. |
| PathCommand.EntriesTextAppend | src/Mod/Path/App/CommandPyImp.cpp:22-36 | Printing two runs of entries prints the first, then the second. |
| PathCommand.EntryPrintedInOrder | src/Mod/Path/App/CommandPyImp.cpp:22-36 | Entry i is printed right after the entries before it, so the entries appear in the list's (key) order. |
| PathCommand.CustomAttributeRoundTrip | src/Mod/Path/App/CommandPyImp.cpp:230-266 | Writing a custom attribute and reading it back gives the number written, under either letter case. |
| PathCompound.AddError | src/Mod/Path/App/FeaturePathCompoundPyImp.cpp:27-43 | The checks of `addObject`, in order: the argument's type, a valid object, the same document, not the compound itself. None means every check passes. |
| PathCompound.RemoveError | src/Mod/Path/App/FeaturePathCompoundPyImp.cpp:72-84 | The checks of `removeObject`: the first three of `addObject`, with their own messages, and no check against the compound itself. |
| PathCompound.AddAndRemoveAcceptTheSame | src/Mod/Path/App/FeaturePathCompoundPyImp.cpp:27-84 | The two methods accept the same objects except the compound itself, which only `removeObject` lets through. |
| PathCompound.RouteFor | src/Mod/Path/App/FeaturePathCompoundPyImp.cpp:45-65 | An accepted call goes to the proxy exactly when the compound is a Python compound whose Proxy is a Python object with that method bound to something other than this wrapper. It raises exactly when that attribute is not callable (the TypeError of `Py::Callable`) or has no `__self__` (AttributeError); otherwise it goes to the C++ compound. |
| PathCompound.NoRecursion | src/Mod/Path/App/FeaturePathCompoundPyImp.cpp:45-65 | A proxy method that is this compound's own wrapper method is never called back, so the call cannot recurse. |
| PathCompound.CompoundPy.AddObject | src/Mod/Path/App/FeaturePathCompoundPyImp.cpp:25-67 | `addObject`: a rejected object returns the first failing check's error and changes nothing; an accepted one either raises the error `RouteFor` gives, changing nothing, or is added exactly once, by the proxy or by the C++ compound as `RouteFor` says. |
| PathCompound.CompoundPy.RemoveObject | src/Mod/Path/App/FeaturePathCompoundPyImp.cpp:70-108 | `removeObject`: as `addObject`, with the two document checks only and removal instead of addition. |
| PathDeburr.EffectiveAngle | src/Mod/Path/PathScripts/PathDeburr.py:31-33 | A cutting-edge angle of 0 is taken as 180 degrees, a flat tool. |
| PathDeburr.ToolDepthAndOffset | src/Mod/Path/PathScripts/PathDeburr.py:29-41 | `toolDepthAndOffset`: the depth is the depth the tool needs for the width, 0 when the tangent is 0, plus the extra depth; the offset is the flat radius plus half the diameter less the width for a flat tool, or the extra depth over the tangent otherwise. That last division raises when the tangent of a non-flat tool is 0. |
| PathDeburr.FlatToolOffset | src/Mod/Path/PathScripts/PathDeburr.py:29-41 | A flat tool never fails, and its offset does not depend on the tangent: it is the flat radius plus half the diameter, less the width. |
| PathDeburr.ZeroAngleIsFlat | src/Mod/Path/PathScripts/PathDeburr.py:29-41 | A tool with angle 0 behaves exactly as one with angle 180. |
| PathDeburr.ExtraDepthShiftsBoth | src/Mod/Path/PathScripts/PathDeburr.py:29-41 | The offset of a pointed tool grows with the extra depth: each unit of extra depth moves the path out by one over the tangent, and down by one. |
| PathDeburr.ZValues | src/Mod/Path/PathScripts/PathDeburr.py:92-98 | The pass depths, step by step: with a step of 0 only the final depth; otherwise every multiple of the step strictly above the final depth, in the order reached, then the final depth (`PassDepths`). |
| PathDeburr.DefaultStepDownOnePass | src/Mod/Path/PathScripts/PathDeburr.py:112-118 | With the default step of 0 there is one pass, at the final depth. |
| PathDeburr.PassCountBounds | src/Mod/Path/PathScripts/PathDeburr.py:92-98 | The number of passes is the least count of steps that reaches the final depth. |
| PathDeburr.PassDepthsUnique | src/Mod/Path/PathScripts/PathDeburr.py:92-98 | The pass depths are determined by the step and the final depth: two lists that both satisfy `PassDepths` are equal. |
| PathDeburr.RejectAddBase | src/Mod/Path/PathScripts/PathDeburr.py:108-110 | `opRejectAddBase`: only features of the job's models may be added. |
| PathDeburr.SetupProperties | src/Mod/Path/PathScripts/PathDeburr.py:121-125 | `SetupProperties`: the setup sheet offers exactly Width and ExtraDepth, in that order. |
| PathDeburr.ObjectDeburr.DropClearanceMove | src/Mod/Path/PathScripts/PathDeburr.py:104-106 | The end of `opExecute`: the final move to clearance is dropped, and an empty list stays empty. |
| PathGui.LookupNonePersists | src/Mod/Path/PathScripts/PathGui.py:30-34 | Once a segment is missing, every longer path is missing too. |
| PathGui.OwnerIsObject | src/Mod/Path/PathScripts/PathGui.py:30-34 | A found attribute always belongs to an object that has it. |
| PathGui.ResolvedMeansFound | src/Mod/Path/PathScripts/PathGui.py:26-46 | A property is found only in an object that has it, under the path's last segment. |
| PathGui.AfterSet | src/Mod/Path/PathScripts/PathGui.py:48-52 | The tables after `setProperty` assigns `value`: only the targeted attribute changes. |
| PathGui.SetThenGet | src/Mod/Path/PathScripts/PathGui.py:43-52 | Setting a found property and reading it back gives the value set, provided the walk to its owner is not changed by the assignment and the value is not the owner itself. |
| PathGui.SetThenGetPlain | src/Mod/Path/PathScripts/PathGui.py:43-52 | For a plain (undotted) property name the walk to the owner cannot change: set then get gives the value. |
| PathGui.SplitWithoutSeparator | src/Mod/Path/PathScripts/PathGui.py:30 | A name without the separator splits into itself. |
| PathGui.JoinHasSeparator | src/Mod/Path/PathScripts/PathGui.py:30 | Joining two or more parts puts the separator into the text. |
| PathGui.CallbackBeforeAssignment | src/Mod/Path/PathScripts/PathGui.py:54-72 | The callback, when given, is called once, before the change it announces, and nothing else happens. |
| PathGui.SecondUpdateFindsValue | src/Mod/Path/PathScripts/PathGui.py:54-72 | Updating twice from the same widget value assigns once: after the first assignment the property holds the widget's value, which a reflexive `isRoughly` finds equal, so the second call returns False. |
| PathGui.ResolveProperty | src/Mod/Path/PathScripts/PathGui.py:26-41 | `_getProperty` as a loop over the dotted parts: it gives the owner and value that `Resolve` specifies. |
| PathGui.GetProperty | src/Mod/Path/PathScripts/PathGui.py:43-46 | `getProperty`: the value part of the resolution, the one `PropertyValue` specifies. |
| PathGui.SetProperty | src/Mod/Path/PathScripts/PathGui.py:48-52 | `setProperty`: the found attribute is assigned and its owner notified; a property not found changes nothing. |
| PathGui.UpdateInputField | src/Mod/Path/PathScripts/PathGui.py:54-72 | `updateInputField`. The widget's text has been parsed into `widgetValue`; `isRoughly` is PathGeom's comparison. A property whose value is not a number makes it raise. |
| PathGui.QuantitySpinBox.constructor | src/Mod/Path/PathScripts/PathGui.py:84-97 | The constructor: the controller is valid iff the property's value is not None; then the spin box is bound to "<object name>.<prop>" and takes the preferred unit of a quantity. |
| PathGui.QuantitySpinBox.Expression | src/Mod/Path/PathScripts/PathGui.py:99-103 | `expression`: the bound expression, '' for an invalid controller. |
| PathGui.QuantitySpinBox.UpdateSpinBox | src/Mod/Path/PathScripts/PathGui.py:105-113 | `updateSpinBox`: shows the given value, or the property's own when none is given; an invalid controller does nothing. |
| PathGui.QuantitySpinBox.UpdateProperty | src/Mod/Path/PathScripts/PathGui.py:115-119 | `updateProperty`: `updateInputField` with the spin box's value when valid, None (and no change) otherwise. |
| PathIconViewProvider.StateOf | src/Mod/Path/PathScripts/PathIconViewProvider.py:37-42 | `__getstate__`: the icon is saved, and the edit pair exactly when an edit module and callback were set. |
| PathIconViewProvider.AfterSetState | src/Mod/Path/PathScripts/PathIconViewProvider.py:44-48 | `__setstate__`: the icon is always taken; the edit attributes only when the saved module name is truthy, otherwise the object keeps its own. |
| PathIconViewProvider.SetStateOfOwnState | src/Mod/Path/PathScripts/PathIconViewProvider.py:37-48 | Restoring an object's own state into it changes nothing. |
| PathIconViewProvider.SaveLoadRoundTrip | src/Mod/Path/PathScripts/PathIconViewProvider.py:37-48 | Saving and loading into a fresh object (which has no attributes) restores the icon, and the edit attributes exactly when the module name was truthy. |
| PathIconViewProvider.IconPath | src/Mod/Path/PathScripts/PathIconViewProvider.py:50-51 | `getIcon`: ":/icons/Path-" then the icon name then ".svg", and the name can be read back from between them. |
| PathIconViewProvider.IconPathInjective | src/Mod/Path/PathScripts/PathIconViewProvider.py:50-51 | Different icons give different paths. |
| PathIconViewProvider.Lookup | src/Mod/Path/PathScripts/PathIconViewProvider.py:59-60 | `import_module` then `getattr`: succeeds exactly when the module name is set and importable and the callback name is set and defined in it; raises otherwise. |
| PathIconViewProvider.FreshProviderEditFails | src/Mod/Path/PathScripts/PathIconViewProvider.py:24-31 | A view provider as its constructor leaves it fails on `setEdit`, while the same one saved and loaded does not. |
| PathIconViewProvider.EditCall | src/Mod/Path/PathScripts/PathIconViewProvider.py:57-61 | `_onEditCallback` as intended: the callback runs only when an edit module has been set, as after `onEdit`. |
| PathIconViewProvider.EditCallSurvivesSaveLoad | src/Mod/Path/PathScripts/PathIconViewProvider.py:37-61 | With the intended guard, saving and loading a view provider never changes what editing it does. |
| PathIconViewProvider.ViewProvider.constructor | src/Mod/Path/PathScripts/PathIconViewProvider.py:24-31 | The constructor: the icon, the view object and its object, both edit attributes None, and the provider set as the view object's proxy. |
| PathIconViewProvider.ViewProvider.Attach | src/Mod/Path/PathScripts/PathIconViewProvider.py:33-35 | `attach`: the provider remembers the view object and its object, and nothing else changes. |
| PathIconViewProvider.ViewProvider.SetState | src/Mod/Path/PathScripts/PathIconViewProvider.py:44-48 | `__setstate__`: icon and edit target become `AfterSetState` of the old ones and the state; the view object and calls are untouched. |
| PathIconViewProvider.ViewProvider.OnEdit | src/Mod/Path/PathScripts/PathIconViewProvider.py:53-55 | `onEdit`: the callback is remembered by module and name, and nothing else changes. |
| PathIconViewProvider.ViewProvider.OnEditCallback | src/Mod/Path/PathScripts/PathIconViewProvider.py:57-61 | `_onEditCallback`, with the guard as intended: the result is `EditCall` of the edit target, and exactly the call `CallFor` gives is made. |
| PathIconViewProvider.ViewProvider.SetEdit | src/Mod/Path/PathScripts/PathIconViewProvider.py:63-67 | `setEdit`: in mode 0 the callback is called with True, and True is returned unless the callback lookup raises. The lookup follows the corrected `EditCall` of the PathIconViewProvider.py:28-29 row under Findings: a provider without an edit module makes no call, where the source as written raises. |
| PathIconViewProvider.ViewProvider.UnsetEdit | src/Mod/Path/PathScripts/PathIconViewProvider.py:69-71 | `unsetEdit`: the callback call with False is made as `CallFor` gives it, and an error comes back exactly when the lookup raises. The lookup follows the corrected `EditCall` of the PathIconViewProvider.py:28-29 row under Findings. |
| PathIconViewProvider.Find | src/Mod/Path/PathScripts/PathIconViewProvider.py:84-94 | The walk over the registry: the class registered for a name, None exactly when no entry has that name. |
| PathIconViewProvider.PutThenFind | src/Mod/Path/PathScripts/PathIconViewProvider.py:96-102 | Registering overwrites: the name now finds the new class, every other name what it found before. |
| PathIconViewProvider.PutLength | src/Mod/Path/PathScripts/PathIconViewProvider.py:96-102 | Registering a name twice leaves one entry for it: the list grows only for a new name. |
| PathIconViewProvider.Registry.RegisterViewProvider | src/Mod/Path/PathScripts/PathIconViewProvider.py:96-102 | `RegisterViewProvider`: the factory maps the name to the provider afterwards, as `Put` gives it. |
| PathIconViewProvider.Registry.Attach | src/Mod/Path/PathScripts/PathIconViewProvider.py:84-94 | `Attach`: the class registered for the name, found by walking the registry, or else a new generic view provider with the name as its icon, set as the view object's proxy. |
| SelectionView.ItemText | src/Gui/SelectionView.cpp:95-108 | The text of an item: "Doc.Obj (Label)", or "Doc.Obj.Sub (Label)" when there is a sub-element. |
| SelectionView.ItemOf | src/Gui/SelectionView.cpp:88-111 | The item for an entry: its text, with [doc, obj] or [doc, obj, sub] as user data. |
| SelectionView.CountText | src/Gui/SelectionView.cpp:116-135 | How many items show a text: none exactly when no item shows it. |
| SelectionView.DropText | src/Gui/SelectionView.cpp:116-135 | The items without those showing a text: exactly the counted ones are dropped. |
| SelectionView.DropTextAbsent | src/Gui/SelectionView.cpp:116-135 | Dropping a text no item shows keeps every item. |
| SelectionView.RemovalNeedsUniqueMatch | src/Gui/SelectionView.cpp:116-135 | Removing an element whose text shows twice or more, or not at all, leaves the list alone. |
| SelectionView.TextRow | src/Gui/SelectionView.cpp:133-135 | The one item `findItems` returns when exactly one item shows the text: its row, and deleting that item is what `DropText` leaves. |
| SelectionView.CurrentFollowsItem | src/Gui/SelectionView.cpp:82-171 | A message keeps the current row inside the list. Through an append, another message, or the deletion of another row, the same item stays current. There is no current item afterwards only if there was none before, the list is empty, or it was cleared or replaced. |
| SelectionView.AddThenRemove | src/Gui/SelectionView.cpp:82-171 | Adding an element whose text the list does not show yet and removing it again gives back the list. |
| SelectionView.FoundSelects | src/Gui/SelectionView.cpp:182-185 | The hits are the objects whose label contains the text, and all of them. |
| SelectionView.HitItem | src/Gui/SelectionView.cpp:187-200 | The item a search hit shows: "Doc.Obj (Label)" with [doc, obj] as user data. |
| SelectionView.FoundIsSubsequence | src/Gui/SelectionView.cpp:182-202 | Keeping everything found keeps the document order: found objects form a subsequence. |
| SelectionView.View.constructor | src/Gui/SelectionView.cpp:33-74 | A new view: no items, nothing found, no current item. |
| SelectionView.View.OnChange | src/Gui/SelectionView.cpp:82-171 | `OnChange`: the list after the message, the count label set to its length, and the current row as `CurrentAfterMessage` gives it, which `CurrentFollowsItem` shows follows the current item; the search hits are untouched. |
| SelectionView.View.SetCurrent | src/Gui/SelectionView.cpp:226 | A click on a row makes it the current item that `select`, `deselect` and `touch` read; a row outside the list leaves none; the list, label and hits are untouched. |
| SelectionView.View.Search | src/Gui/SelectionView.cpp:173-206 | `search`: nothing for empty text, the current item included. Otherwise the hits are forgotten. With an active document, the list is cleared, so there is no current item, and it then shows that document's objects whose label contains the text, ignoring case, in document order. Without one, the list and the current item stay. |
| SelectionView.View.Select | src/Gui/SelectionView.cpp:223-238 | `select` of the current item: the commands run, none when there is no current item or it keeps fewer than two names. |
| SelectionView.View.Deselect | src/Gui/SelectionView.cpp:240-252 | `deselect`: nothing without a current item holding at least document and object names; otherwise exactly one removeSelection command for that object. |
| SelectionView.View.Touch | src/Gui/SelectionView.cpp:266-276 | `touch`: nothing without a current item holding at least document and object names; otherwise exactly one touch command for that object. |
| SelectionView.ObjectExpr | src/Gui/SelectionView.cpp:236 | `App.getDocument("doc").getObject("obj")` for the first two names of an item. |
| SelectionView.ModuleOf | src/Gui/SelectionView.cpp:344-349 | The module part of a type name: the text before its first ':', or "" without one. |
| SelectionView.FirstAppType | src/Gui/SelectionView.cpp:343-355 | The first type of the ancestry whose module is "App", or the ancestry's length. |
| SelectionView.GetModule | src/Gui/SelectionView.cpp:336-358 | `getModule` on a type's ancestry, the type first and its parents after it (empty for an unknown type): the module of the last type before the first "App" one, "" when the type itself is an App type. |
| SelectionView.SupportPart | src/Gui/SelectionView.cpp:375-391 | `supportPart`: the part name starts with one of the element type names of the object's geometry. |
| StdMap.Put | src/Mod/Path/App/CommandPyImp.cpp:89 | `m[k] = v`: insert or overwrite, keeping the order. |
| StdMap.Get | src/Mod/Path/App/CommandPyImp.cpp:236-237 | `m.count(k)` and `m[k]` without insertion: the value under `k`, if any. |
| Strings.ToUpper | src/Mod/Path/App/CommandPyImp.cpp:76 | boost::to_upper: same length, and each ASCII lower-case letter replaced by its upper-case letter, every other character kept. |
| Strings.ToUpperIdempotent | src/Mod/Path/App/CommandPyImp.cpp:120-125 | Upper-casing twice changes nothing more than upper-casing once. |
| Strings.Split | src/Mod/Path/PathScripts/PathGui.py:30 | Split on every `sep`, keeping empty parts (QString::split with KeepEmptyParts, Python's str.split(sep)). |
| Strings.JoinSplit | src/Mod/Path/PathScripts/PathGui.py:30 | Joining the parts of a split gives back the original string. |
| Strings.SplitJoin | src/Mod/Path/PathScripts/PathGui.py:30 | Splitting a join of separator-free parts gives back the parts. |
| SyntaxHighlighter.TypeOf | src/Gui/SyntaxHighlighter.cpp:84-110 | The type a name stands for: when one is found, that type's name is the given name. |
| SyntaxHighlighter.TypeOfTypeName | src/Gui/SyntaxHighlighter.cpp:84-110 | Each type's name is recognised as that type: the names are distinct. |
| SyntaxHighlighter.ColorOf | src/Gui/SyntaxHighlighter.cpp:84-110 | `color`: the stored colour of a named type, invalid for any other name. |
| SyntaxHighlighter.ColorByTypeAgrees | src/Gui/SyntaxHighlighter.cpp:84-138 | Reading a colour by type and by the type's name agree. |
| SyntaxHighlighter.InvalidColorLocksType | src/Gui/SyntaxHighlighter.cpp:54-56 | A type whose colour was set to an invalid colour can never be given another one. |
| SyntaxHighlighter.InvalidColorLocksTypeExample | src/Gui/SyntaxHighlighter.cpp:51-82 | The sequence that shows it: setting Text to an invalid colour, then to black. |
| SyntaxHighlighter.SetColorThenColor | src/Gui/SyntaxHighlighter.cpp:51-82 | After setting a known type's colour, reading it gives that colour and every other type keeps its own; the text is rehighlighted iff the colour changed; unknown names change nothing. |
| SyntaxHighlighter.SetColorAsWrittenAgrees | src/Gui/SyntaxHighlighter.cpp:51-82 | The two agree except on a type whose stored colour is invalid. |
| SyntaxHighlighter.Highlighter.constructor | src/Gui/SyntaxHighlighter.cpp:17-24 | A new highlighter: the default colours of the eleven types and no rehighlighting yet. |
| SyntaxHighlighter.Highlighter.SetColorByName | src/Gui/SyntaxHighlighter.cpp:51-82 | `setColor`, with the guard testing for an unknown name rather than for an invalid stored colour (see `SetColorAsWritten`): a new colour for a known type is stored and the text rehighlighted once; anything else changes nothing. |
| UnitsSchema.Translate | src/Base/UnitsSchemaInternal.cpp:22-179 | `schemaTranslate`'s choice of unit text and factor for a quantity with the given unit and value: the factor is always positive, and the choice depends only on the magnitude of the value; the range-table lemmas state each unit's cascade. |
| UnitsSchema.NegationInvariant | src/Base/UnitsSchemaInternal.cpp:24 | A quantity and its negation are shown in the same unit with the same factor. |
| UnitsSchema.LookupFindsInterval | src/Base/UnitsSchemaInternal.cpp:36-65 | The row a magnitude falls in: the first row whose bound exceeds it, and every earlier bound is at most the magnitude. |
| UnitsSchema.LookupPastEnd | src/Base/UnitsSchemaInternal.cpp:36-65 | A magnitude at or past every bound of the table gets the fallback, as the final `else` of each cascade does. |
| UnitsSchema.LengthIsRangeTable | src/Base/UnitsSchemaInternal.cpp:36-65 | The Length cascade is the range table mm below 1e-9, nm below 1e-3, µm below 0.1, mm below 1e4, m below 1e7, km below 1e11, and mm past it. |
| UnitsSchema.PressureIsRangeTable | src/Base/UnitsSchemaInternal.cpp:126-147 | The Pressure and Stress cascade is the range table Pa below 10, kPa below 1e4, MPa below 1e7, GPa below 1e10, and Pa past it. |
| UnitsSchema.DensityIsRangeTable | src/Base/UnitsSchemaInternal.cpp:84-97 | The Density cascade is the range table kg/m^3 below 1e-4, kg/cm^3 below 1, kg/mm^3 past it. |
| UnitsSchema.LengthShownReadably | src/Base/UnitsSchemaInternal.cpp:36-65 | Outside the two scientific-notation ranges a length is shown as a number between 0.001 and 100000 of the chosen unit. |
| UnitsSchema.ThermalConductivityThreshold | src/Base/UnitsSchemaInternal.cpp:98-107 | ThermalConductivity switches to W/mm/K only strictly above 1e6; exactly 1e6 stays in W/m/K. |
| Workbenches.LowerBound | src/Gui/DlgWorkbenchesImp.cpp:36 | Where a sorted QListWidget puts an added item: every row before it has a key below the item's, and the row at it, if any, has a key not below the item's. |
| Workbenches.InsertBy | src/Gui/DlgWorkbenchesImp.cpp:80-86 | `addItem` on the sorted disabled list: one row longer, holding the old items and `x`. |
| Workbenches.InsertByAscending | src/Gui/DlgWorkbenchesImp.cpp:36 | Inserting at the lower bound keeps a list ascending by key, with the new item at that row. |
| Workbenches.InsertAllBy | src/Gui/DlgWorkbenchesImp.cpp:53-60 | Items added one by one to a list with sorting enabled: ascending by key, and a permutation of the items added. |
| Workbenches.RemoveAscending | src/Gui/DlgWorkbenchesImp.cpp:120-127 | Deleting one item of a list ascending by key leaves it ascending. |
| Workbenches.SortNames | src/Gui/DlgWorkbenchesImp.cpp:200 | QStringList::sort: ascending, and a permutation of the names. |
| Workbenches.LoadDisabled | src/Gui/DlgWorkbenchesImp.cpp:205-216 | `load_disabled_workbenches`: the stored string split on ',' without empty parts. |
| Workbenches.LoadEnabled | src/Gui/DlgWorkbenchesImp.cpp:184-203 | `load_enabled_workbenches`: the stored string split like the disabled one; a first entry "ALL" is replaced by every known workbench and the whole list sorted. The first entry is read without a check, so a string with no name in it is an error. |
| Workbenches.SplitSaveText | src/Gui/DlgWorkbenchesImp.cpp:218-244 | Splitting a saved list keeps every name and leaves one empty part at the end. |
| Workbenches.NonEmptyPartsOfNames | src/Gui/DlgWorkbenchesImp.cpp:192 | Dropping the empty parts of non-empty names followed by "" gives the names. |
| Workbenches.LoadDisabledSaveText | src/Gui/DlgWorkbenchesImp.cpp:205-244 | Loading what was saved gives back the list, for names that are non-empty and hold no comma. |
| Workbenches.LoadEnabledSaveEnabledText | src/Gui/DlgWorkbenchesImp.cpp:184-244 | The enabled list round-trips too unless its first name is "ALL"; an empty list comes back as the single unknown name "NoneWorkbench". |
| Workbenches.KnownWantedMembers | src/Gui/DlgWorkbenchesImp.cpp:46-52 | The first merge loop keeps exactly the wanted names that are known. |
| Workbenches.KnownUnwantedMembers | src/Gui/DlgWorkbenchesImp.cpp:53-60 | The second merge loop disables exactly the known names the disabled list holds. |
| Workbenches.UnlistedMembers | src/Gui/DlgWorkbenchesImp.cpp:53-60 | The known names in neither preference list are exactly those appended to the enabled list. |
| Workbenches.MergeCoversKnown | src/Gui/DlgWorkbenchesImp.cpp:46-60 | After the constructor's merge, whatever the sort key, only known names are listed and unknown preference names are dropped. Every known workbench is in at least one list, and a known name is disabled exactly when the disabled preference lists it. |
| Workbenches.SortKnown | src/Gui/DlgWorkbenchesImp.cpp:53-60 | The constructor's second loop: the disabled list is `InsertAllBy` of the known names the disabled preference lists, and the names added to the enabled list are the known ones in neither preference list, in known order. |
| Workbenches.DisabledInMenuTextOrder | src/Gui/DlgWorkbenchesImp.cpp:36 | With a menu text for Sketcher that sorts after the one for Arch, the disabled list shows Arch first although Sketcher is known first. |
| Workbenches.Clamp | src/Gui/DlgWorkbenchesImp.cpp:145-159 | `shift_workbench`'s target row: QListWidget::insertItem clamps it into the list. |
| Workbenches.MoveItemRearranges | src/Gui/DlgWorkbenchesImp.cpp:120-127 | Moving an item only rearranges the list, and the item lands at `to`. |
| Workbenches.MoveItemBack | src/Gui/DlgWorkbenchesImp.cpp:145-159 | Moving an item one row and back again restores the list. |
| Workbenches.Dialog.constructor | src/Gui/DlgWorkbenchesImp.cpp:28-63 | The constructor given the loaded preference lists, the known workbenches and the menu-text sort key. The enabled list holds the known enabled names in their order, then each known name in neither list. The disabled list holds the known names the disabled preference lists, each added at its sorted place by key. Row 0 is made current in both lists. |
| Workbenches.Dialog.AddToEnabled | src/Gui/DlgWorkbenchesImp.cpp:120-127 | `move_workbench` of the current disabled item: it is appended to the enabled list and becomes its current item. The disabled list's current row passes to the next row, or to the previous one when the last row went. |
| Workbenches.Dialog.RemoveFromEnabled | src/Gui/DlgWorkbenchesImp.cpp:137-143 | `move_workbench` of the current enabled item: nothing without one. Otherwise the item leaves the enabled list and is inserted into the disabled list at its lower bound by key, and that row becomes current there. The enabled current row passes to the next row, or to the previous one when the last went. |
| Workbenches.Dialog.Shift | src/Gui/DlgWorkbenchesImp.cpp:145-159 | `shift_workbench`: the current enabled item is taken out and inserted one row up or down, clamped into the list; the target row is then made current, which leaves no current item when the target row lies outside the list. |
| Workbenches.Dialog.AddAllToEnabled | src/Gui/DlgWorkbenchesImp.cpp:176-182 | The add-all button: the first disabled item is moved until the disabled list is empty, so the enabled list gains the disabled names in order and the last one is current. |
| Workbenches.Dialog.Save | src/Gui/DlgWorkbenchesImp.cpp:218-244 | `save_workbenches`: the "Enabled" and "Disabled" strings, built name by name. |
| Workbenches.Dialog.SortEnabled | src/Gui/DlgWorkbenchesImp.cpp:171-174 | The sort button: the enabled list becomes a permutation of itself, ascending by the menu-text key. The current item stays current, and no current item stays none. The disabled list is untouched. |

## Left out

- `src/App/Origin.cpp`, `src/Mod/Part/App/FaceMaker.cpp`, `Builder.h`, `MeshKernel` and `src/Gui/Command.cpp` are not part of this model.
  - `getOriginFeature` is a lookup in the origin's role table. A missing role is an error whose message text is made up.
  - The edge key of `SetNeighbourhood` is taken to be the normalised pair of point indices.
  - `MeshKernel::RemoveInvalids` is modelled only as the step this builder relies on: it drops unflagged points and renumbers corners. Removing facets by flag is not modelled.
- Floating point is not modelled.
  - Mesh points are compared exactly, and the point set has no tolerance.
  - The facet orientation test (a cross product and a dot product) is a boolean parameter `flip`.
  - Unit values and the Deburr depths are reals. Rounding and accumulation error in the repeated addition of the step are not modelled.
  - The int-to-double conversion of Path parameters is exact in the model.
- OpenCASCADE calls are parameters that give their outcome:
  - the boolean operation: unfinished, a result, or a throw;
  - the operands' `buildHistory`: built, or a throw;
  - the refinement: refined with both histories joined, a failure before the refined shape was taken, or a failure in its `buildHistory`/`joinHistory` after it was taken;
  - `BRepCheck_Analyzer`: valid or not;
  - `FaceMaker::ConstructFromType` and `FaceMaker::Build`: a result, or a throw that escapes `execute`;
  - `calculateAttachedPlacement` and the shape explorers, with their failures.
- Python is modelled only as far as the outcome of a call.
  - The Python C API, reference counting and argument parsing are left out.
  - Proxy calls return an outcome parameter.
  - An exception raised by a proxy's own `addObject`/`removeObject` while it runs (`method.apply`) is not modelled: the call is recorded as made. The exceptions of looking the method up (not callable, no `__self__`) are modelled.
  - `FeatureCompound::addObject`/`removeObject` are recorded as calls, not executed.
- Concurrency is not modelled. `parallel_sort` in `MeshFastBuilder::Finish` is a sequential sort. The source gives no guarantee about the order of equal vertices, and none is assumed.
- `MeshKernel::Adopt` is not modelled: it rebuilds neighbours after `MeshFastBuilder::Finish`. The kernel receives the points and facets as built.
- Progress, cancelling and memory are not modelled: the sequencer calls in `Builder.cpp` and the capacity-shrinking step of `Finish`.
- `PathCommand.Command.Init` leaves out the placement branch of `PyInit`.
- `DocumentObserver.Observer.AttachDocument` leaves out the call with a null document.
- `UnitsSchema.Translate` leaves out the `toLocale` formatting of the number. It states only the unit text and factor.
- `CommandView.FreezeViews.RestoreViews` and `SaveViews` leave out XML parsing and writing and file dialogs. The file is the parsed camera list and its root name and schema version.
- Icons, menu texts, tool tips other than the camera settings, and translations are not modelled. This covers `languageChange` and widget wiring.
- Qt list widgets are not modelled; their behaviour is assumed:
  - after a removal, the current row passes to the row that followed, or to the previous one when the last row went;
  - `insertItem` clamps its row into the list;
  - a list with sorting enabled inserts an added item at the lower bound of its display text, and `sortItems` orders by display text, keeping the current item current.
- `Workbenches.Dialog.constructor` takes `localeAwareCompare` on menu texts as a parameter: `sortKey` maps a workbench name to a collation key, and keys are compared code unit by code unit. Menu texts and the locale are not modelled otherwise.
- `Workbenches.Dialog.SortEnabled` tracks the current item by its name, so among items with equal names it does not say which one stays current. The order `sortItems` gives equal keys is not stated either, because std::sort is not stable.
- `SelectionView.View.Search` folds case for ASCII letters only (`ContainsIgnoringCase`). `Qt::CaseInsensitive` also folds other letters, so "Würfel" matches "WÜRFEL" in the source but not in the model.
- `OriginGroup.AddObjects` does not state the final properties of an owner listed twice when the origin features do not hold their own roles; the links into the origin are still stated. The `setValues` calls themselves are not recorded.
- `Control.ControlSingleton.DialogDestroyed` takes the deferred `deleteLater` of the dock window as immediate. Events that would run before it are not modelled.
- `Control.ControlSingleton.Closed` leaves out the assertion on the combo view.
- Several `SelectionView` operations are left out: `validateSearch`, `toPython`, `showPart` and the context menu. The preference store and the label widget are plain values.
- Persistence is plain strings: `Workbenches` reads and writes the preference strings, and no parameter store exists.
- `Workbenches.LoadEnabled`: for a stored string with no name in it, the source reads the first element of an empty list. That is undefined in Qt. The model returns an error there instead.
- `PathGui.ResolveProperty` has these limits:
  - Attribute lookup on values that are not objects is left out.
  - Only objects in the attribute table have attributes.
  - Logging and `Quantity` parsing of the widget text are parameters.
- Parts of `ObjectDeburr` are left out: the wire building of `opExecute`, `opFeatures`, `initOperation` and the `Create`/`SetupProperties` GUI glue. The model keeps the depth and offset computation, the pass depths, the final-move removal, `opRejectAddBase` and the setup property list.
- `PathDeburr.ZValues` requires a step that is not negative, or a final depth the first pass already reaches. With a negative step the loop of the source never ends, because the depth never gets closer.
- `PathIconViewProvider.Registry.Attach` leaves out constructor effects of custom registered providers. A registered provider is a name, and in that case the view object's proxy is left as it was.
- `SyntaxHighlighter.Highlighter.SetColorByName`: `highlightBlock` and the RGB range of colours are not modelled, and a colour is a value with a validity flag.
- The context menu (`setupContextMenu`) and the document recompute engine are not modelled.

## Findings

| source | as written | input that shows it | evidently intended | confidence | as-written member | corrected member |
|---|---|---|---|---|---|---|
| src/Mod/Mesh/App/Core/Builder.cpp:60-65 | When `Initialize` adopts the kernel's points, each point keeps its old `_ulProp` as its index in the set, and `_ptIdx` becomes the size of the set. | Kernel points A and B, both with `_ulProp` 0. A later corner at B is given index 0, which `Finish` fills with A. With A in the kernel twice, the next new point is given index 1, which is also A's slot. | Each adopted point is stored under the position of its first occurrence, and numbering continues after the adopted points. | not executed | MeshBuilder.AdoptedAsWrittenMisnumbers | MeshBuilder.Adopted |
| src/Mod/Path/PathScripts/PathIconViewProvider.py:28-29 | The constructor sets `editModule` to None, so the `hasattr` guard of `_onEditCallback` (lines 57-61) passes. | A freshly constructed provider given `setEdit(vobj, 0)` calls `importlib.import_module(None)`, which raises. | The callback is looked up only when an edit module has been set, as after `onEdit` or a load that restored one. | not executed | PathIconViewProvider.FreshProviderEditFails | PathIconViewProvider.EditCall |
| src/Gui/SyntaxHighlighter.cpp:54-56 | `setColor` tests `color(type).isValid()` to reject unknown type names, so a known type whose stored colour is invalid is rejected too. | Set Text to an invalid colour, then set it to black: Text stays invalid. | Only unknown names are rejected, and a known type can always be recoloured. | not executed | SyntaxHighlighter.InvalidColorLocksTypeExample | SyntaxHighlighter.SetColorThenColor |
