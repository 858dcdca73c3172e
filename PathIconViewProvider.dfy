/**
 * The generic Path view provider of PathScripts/PathIconViewProvider.py:
 * it gives an object its icon, remembers which module function edits it,
 * survives saving through `__getstate__`/`__setstate__`, and a registry
 * lets other view provider classes be used for given names.
 *
 * Importing a module and looking a function up in it are modelled by
 * `loadable`: the importable module names and the function names each
 * defines. A view provider class registered by name is known by the name
 * of that class.
 */
module PathIconViewProvider {
  import opened Wrappers

  /**
   * The `editModule`/`editCallback` attributes: absent (an object
   * restored from a file that never had them), or present, each None or a
   * name. The two are always set together.
   */
  datatype EditTarget = NoEditAttrs | EditAttrs(editModule: Option<string>, editCallback: Option<string>)

  /** The dictionary `__getstate__` returns: the icon, and the edit attributes when present. */
  datatype PickledState = PickledState(icon: string, edit: Option<(Option<string>, Option<string>)>)

  /** A call of an edit callback, with the object, its view object and the edit flag. */
  datatype Call = Call(moduleName: string, name: string, obj: nat, vobj: nat, edit: bool)

  /** Python truthiness of an optional name: present and non-empty. */
  predicate Truthy(m: Option<string>)
  {
    m.Some? && m.value != ""
  }

  /** `__getstate__` (PathIconViewProvider.py:37-42). */
  function StateOf(icon: string, edit: EditTarget): (st: PickledState)
    ensures st.icon == icon
    ensures st.edit.Some? <==> edit.EditAttrs?
    ensures edit.EditAttrs? ==> st.edit == Some((edit.editModule, edit.editCallback))
  {
    PickledState(icon, if edit.EditAttrs? then Some((edit.editModule, edit.editCallback)) else None)
  }

  /**
   * `__setstate__` (PathIconViewProvider.py:44-48): the icon is always
   * taken; the edit attributes only when the saved module name is truthy,
   * otherwise the object keeps its own.
   */
  function AfterSetState(icon: string, edit: EditTarget, st: PickledState): (r: (string, EditTarget))
    ensures r.0 == st.icon
    ensures st.edit.Some? && Truthy(st.edit.value.0) ==> r.1 == EditAttrs(st.edit.value.0, st.edit.value.1)
    ensures !(st.edit.Some? && Truthy(st.edit.value.0)) ==> r.1 == edit
  {
    (st.icon, if st.edit.Some? && Truthy(st.edit.value.0) then EditAttrs(st.edit.value.0, st.edit.value.1) else edit)
  }

  /** Restoring an object's own state into it changes nothing. */
  lemma SetStateOfOwnState(icon: string, edit: EditTarget)
    ensures AfterSetState(icon, edit, StateOf(icon, edit)) == (icon, edit)
  {
  }

  /**
   * Saving and loading into a fresh object (which has no attributes)
   * restores the icon, and the edit attributes exactly when the module
   * name was truthy.
   */
  lemma SaveLoadRoundTrip(icon: string, edit: EditTarget, anyIcon: string)
    ensures var (icon2, edit2) := AfterSetState(anyIcon, NoEditAttrs, StateOf(icon, edit));
            icon2 == icon &&
            (edit.EditAttrs? && Truthy(edit.editModule) ==> edit2 == edit) &&
            (!(edit.EditAttrs? && Truthy(edit.editModule)) ==> edit2 == NoEditAttrs)
  {
  }

  const IconPrefix := ":/icons/Path-"
  const IconSuffix := ".svg"

  /** `getIcon` (PathIconViewProvider.py:50-51): the resource path of the icon. */
  function IconPath(icon: string): (p: string)
    ensures |p| == |IconPrefix| + |icon| + |IconSuffix|
    ensures p[..|IconPrefix|] == IconPrefix && p[|p| - |IconSuffix|..] == IconSuffix
    ensures p[|IconPrefix|..|p| - |IconSuffix|] == icon
  {
    IconPrefix + icon + IconSuffix
  }

  /** Different icons give different paths. */
  lemma IconPathInjective(a: string, b: string)
    requires IconPath(a) == IconPath(b)
    ensures a == b
  {
    var p := IconPath(a);
    assert a == p[|IconPrefix|..|p| - |IconSuffix|];
  }

  /**
   * `_onEditCallback` as written (PathIconViewProvider.py:57-61): it runs
   * whenever the edit attributes exist, so a view provider fresh from its
   * constructor, whose `editModule` is None, makes `import_module(None)`
   * raise. Ok(true) means the callback is called, Ok(false) that nothing
   * happens.
   */
  function EditCallAsWritten(e: EditTarget, loadable: map<string, set<string>>): Result<bool>
  {
    match e
    case NoEditAttrs => Ok(false)
    case EditAttrs(None, _) => Err("AttributeError: 'NoneType' object has no attribute 'startswith'")
    case EditAttrs(Some(m), cb) => Lookup(m, cb, loadable)
  }

  /** Importing `m` and looking `cb` up in it. */
  function Lookup(m: string, cb: Option<string>, loadable: map<string, set<string>>): (r: Result<bool>)
    ensures r.Ok? ==> r.value
    ensures r.Ok? <==> m != "" && m in loadable && cb.Some? && cb.value in loadable[m]
  {
    if m == "" then Err("ValueError: Empty module name")
    else if m !in loadable then Err("ModuleNotFoundError: No module named " + m)
    else if cb.None? then Err("TypeError: attribute name must be string")
    else if cb.value !in loadable[m] then Err("AttributeError: module has no attribute " + cb.value)
    else Ok(true)
  }

  /** A view provider as its constructor leaves it fails on `setEdit`, while the same one saved and loaded does not. */
  lemma FreshProviderEditFails(icon: string, loadable: map<string, set<string>>)
    ensures EditCallAsWritten(EditAttrs(None, None), loadable).Err?
    ensures var (_, restored) := AfterSetState(icon, NoEditAttrs, StateOf(icon, EditAttrs(None, None)));
            EditCallAsWritten(restored, loadable) == Ok(false)
  {
  }

  /**
   * `_onEditCallback` as intended: the callback runs only when an edit
   * module has been set, as after `onEdit`.
   */
  function EditCall(e: EditTarget, loadable: map<string, set<string>>): (r: Result<bool>)
    ensures !(e.EditAttrs? && Truthy(e.editModule)) ==> r == Ok(false)
    ensures e.EditAttrs? && Truthy(e.editModule) ==> r == EditCallAsWritten(e, loadable)
  {
    match e
    case EditAttrs(Some(m), cb) => if m != "" then Lookup(m, cb, loadable) else Ok(false)
    case _ => Ok(false)
  }

  /** With the intended guard, saving and loading a view provider never changes what editing it does. */
  lemma EditCallSurvivesSaveLoad(icon: string, e: EditTarget, anyIcon: string, loadable: map<string, set<string>>)
    ensures EditCall(AfterSetState(anyIcon, NoEditAttrs, StateOf(icon, e)).1, loadable) == EditCall(e, loadable)
  {
  }

  /** The view object a provider is attached to. */
  class ViewObject {
    const objectId: nat
    const id: nat
    var proxy: ViewProvider?

    constructor(objectId: nat, id: nat)
      ensures this.objectId == objectId && this.id == id && proxy == null
    {
      this.objectId := objectId;
      this.id := id;
      proxy := null;
    }
  }

  /** `ViewProvider` (PathIconViewProvider.py:21-80). */
  class ViewProvider {
    var icon: string
    var vobj: ViewObject
    var obj: nat
    var edit: EditTarget
    /** The edit callbacks called so far. */
    var calls: seq<Call>

    /**
     * The constructor (PathIconViewProvider.py:24-31): the icon, the view
     * object and its object, both edit attributes None, and the provider
     * set as the view object's proxy.
     */
    constructor(vobj: ViewObject, icon: string)
      modifies vobj
      ensures this.icon == icon && this.vobj == vobj && obj == vobj.objectId
      ensures edit == EditAttrs(None, None) && calls == []
      ensures vobj.proxy == this
    {
      this.icon := icon;
      this.vobj := vobj;
      this.obj := vobj.objectId;
      this.edit := EditAttrs(None, None);
      this.calls := [];
      new;
      vobj.proxy := this;
    }

    /** `attach` (PathIconViewProvider.py:33-35). */
    method Attach(v: ViewObject)
      modifies this
      ensures vobj == v && obj == v.objectId
      ensures icon == old(icon) && edit == old(edit) && calls == old(calls)
    {
      vobj := v;
      obj := v.objectId;
    }

    /** `__getstate__`. */
    function GetState(): PickledState
      reads this
    {
      StateOf(icon, edit)
    }

    /** `__setstate__` (PathIconViewProvider.py:44-48). */
    method SetState(st: PickledState)
      modifies this
      ensures (icon, edit) == AfterSetState(old(icon), old(edit), st)
      ensures vobj == old(vobj) && obj == old(obj) && calls == old(calls)
    {
      icon := st.icon;
      if st.edit.Some? && Truthy(st.edit.value.0) {
        edit := EditAttrs(st.edit.value.0, st.edit.value.1);
      }
    }

    /** `onEdit` (PathIconViewProvider.py:53-55): the callback is remembered by module and name. */
    method OnEdit(moduleName: string, name: string)
      modifies this
      ensures edit == EditAttrs(Some(moduleName), Some(name))
      ensures icon == old(icon) && vobj == old(vobj) && obj == old(obj) && calls == old(calls)
    {
      edit := EditAttrs(Some(moduleName), Some(name));
    }

    /** The call `_onEditCallback` makes, when it makes one. */
    function CallFor(flag: bool, loadable: map<string, set<string>>): seq<Call>
      reads this, vobj
    {
      if EditCall(edit, loadable) == Ok(true) then [Call(edit.editModule.value, edit.editCallback.value, obj, vobj.id, flag)] else []
    }

    /** `_onEditCallback` (PathIconViewProvider.py:57-61), with the guard as intended. */
    method OnEditCallback(flag: bool, loadable: map<string, set<string>>) returns (r: Result<bool>)
      modifies this
      ensures r == EditCall(edit, loadable)
      ensures calls == old(calls) + CallFor(flag, loadable)
      ensures icon == old(icon) && edit == old(edit) && vobj == old(vobj) && obj == old(obj)
    {
      r := EditCall(edit, loadable);
      if r == Ok(true) {
        calls := calls + [Call(edit.editModule.value, edit.editCallback.value, obj, vobj.id, flag)];
      }
    }

    /**
     * `setEdit` (PathIconViewProvider.py:63-67): in mode 0 the callback is
     * called with True; True is returned unless the callback lookup raises.
     */
    method SetEdit(mode: int, loadable: map<string, set<string>>) returns (r: Result<bool>)
      modifies this
      ensures mode != 0 ==> r == Ok(true) && calls == old(calls)
      ensures mode == 0 ==> (r.Err? <==> EditCall(edit, loadable).Err?) && calls == old(calls) + CallFor(true, loadable)
      ensures r.Ok? ==> r.value
      ensures icon == old(icon) && edit == old(edit) && vobj == old(vobj) && obj == old(obj)
    {
      if mode == 0 {
        var c := OnEditCallback(true, loadable);
        if c.Err? {
          return Err(c.msg);
        }
      }
      return Ok(true);
    }

    /** `unsetEdit` (PathIconViewProvider.py:69-71): the callback is called with False. */
    method UnsetEdit(loadable: map<string, set<string>>) returns (err: Option<string>)
      modifies this
      ensures err.Some? <==> EditCall(edit, loadable).Err?
      ensures calls == old(calls) + CallFor(false, loadable)
      ensures icon == old(icon) && edit == old(edit) && vobj == old(vobj) && obj == old(obj)
    {
      var c := OnEditCallback(false, loadable);
      err := if c.Err? then Some(c.msg) else None;
    }
  }

  /** A registered name and the view provider class registered for it. */
  datatype Entry = Entry(name: string, provider: string)

  /** The class registered for a name, looking in registration order. */
  function Find(es: seq<Entry>, name: string): (r: Option<string>)
    ensures r.None? <==> forall i :: 0 <= i < |es| ==> es[i].name != name
  {
    if |es| == 0 then None
    else if es[0].name == name then Some(es[0].provider)
    else Find(es[1..], name)
  }

  /** `_factory[name] = provider`: an existing entry is replaced where it is, a new one goes last. */
  function Put(es: seq<Entry>, name: string, provider: string): (r: seq<Entry>)
  {
    if |es| == 0 then [Entry(name, provider)]
    else if es[0].name == name then [Entry(name, provider)] + es[1..]
    else [es[0]] + Put(es[1..], name, provider)
  }

  /** Registering overwrites: the name now finds the new class, every other name what it found before. */
  lemma {:induction false} PutThenFind(es: seq<Entry>, name: string, provider: string, other: string)
    ensures Find(Put(es, name, provider), name) == Some(provider)
    ensures other != name ==> Find(Put(es, name, provider), other) == Find(es, other)
  {
    if |es| > 0 && es[0].name != name {
      PutThenFind(es[1..], name, provider, other);
      assert Put(es, name, provider)[1..] == Put(es[1..], name, provider);
    }
  }

  /** Registering a name twice leaves one entry for it: the list grows only for a new name. */
  lemma {:induction false} PutLength(es: seq<Entry>, name: string, provider: string)
    ensures |Put(es, name, provider)| == |es| + (if Find(es, name).None? then 1 else 0)
  {
    if |es| > 0 && es[0].name != name {
      PutLength(es[1..], name, provider);
    }
  }

  /** What `Attach` hands back: an instance of a registered class, or the generic view provider. */
  datatype Attached = Custom(providerClass: string) | Generic(provider: ViewProvider)

  /** The module-level `_factory` dictionary. */
  class Registry {
    var factory: seq<Entry>

    constructor()
      ensures factory == []
    {
      factory := [];
    }

    /** `RegisterViewProvider` (PathIconViewProvider.py:96-102). */
    method RegisterViewProvider(name: string, provider: string)
      modifies this
      ensures factory == Put(old(factory), name, provider)
    {
      factory := Put(factory, name, provider);
    }

    /**
     * `Attach` (PathIconViewProvider.py:84-94): the class registered for
     * the name, found by walking the registry, or else a new generic view
     * provider with the name as its icon, set as the view object's proxy.
     */
    method Attach(vobj: ViewObject, name: string) returns (r: Attached)
      modifies vobj
      ensures Find(factory, name).Some? ==> r == Custom(Find(factory, name).value) && vobj.proxy == old(vobj.proxy)
      ensures Find(factory, name).None? ==>
        r.Generic? && fresh(r.provider) && r.provider.icon == name && r.provider.vobj == vobj &&
        r.provider.edit == EditAttrs(None, None) && vobj.proxy == r.provider
    {
      var i := 0;
      while i < |factory|
        invariant 0 <= i <= |factory|
        invariant Find(factory[i..], name) == Find(factory, name)
      {
        assert factory[i..][1..] == factory[i + 1..];
        if factory[i].name == name {
          return Custom(factory[i].provider);
        }
        i := i + 1;
      }
      var p := new ViewProvider(vobj, name);
      return Generic(p);
    }
  }
}
