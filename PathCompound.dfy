/**
 * The Python methods `addObject` and `removeObject` of a Path compound
 * (src/Mod/Path/App/FeaturePathCompoundPyImp.cpp): the checks an object
 * must pass, in order, and whether the change goes to the Python proxy's
 * own method or to the C++ group.
 *
 * The group operations themselves (`FeatureCompound::addObject` and
 * `removeObject`) and the proxy's methods are not part of this model: the
 * compound records which of them it called, in order.
 */
module PathCompound {
  import opened Wrappers

  /** A document object: its id, whether it has a name in its document, and that document. */
  datatype DocObject = DocObject(id: nat, named: bool, doc: nat)

  /**
   * The Python argument: not a document object at all, or a document
   * object wrapper whose C++ object may be gone (None).
   */
  datatype Arg = NotDocumentObject | Wrapper(ptr: Option<DocObject>)

  /**
   * The proxy's `addObject` or `removeObject` attribute: missing, present
   * but not callable, a callable without `__self__`, or a method bound to
   * this compound's own Python wrapper or to another object.
   */
  datatype ProxyMethod = Missing | NotCallable | Unbound | BoundToThis | BoundToOther

  /** The compound's `Proxy` property: absent, of another property type, or a Python object with two methods. */
  datatype ProxyProperty = NoProxy | OtherPropertyType | PythonObject(add: ProxyMethod, remove: ProxyMethod)

  /** The change made to the group, by the proxy or by the C++ compound. */
  datatype Op = ProxyAdd(id: nat) | CppAdd(id: nat) | ProxyRemove(id: nat) | CppRemove(id: nat)

  const ParseError := "TypeError: argument 1 must be App.DocumentObject"
  const AddInvalid := "Cannot add an invalid object"
  const AddOtherDocument := "Cannot add an object from another document to this group"
  const AddSelf := "Cannot add a group object to itself"
  const RemoveInvalid := "Cannot remove an invalid object"
  const RemoveOtherDocument := "Cannot remove an object from another document from this group"
  const NoSelfAttribute := "AttributeError: __self__"
  /** The exception `Py::Callable` raises for an attribute that is not callable; its text is not modelled. */
  const NotCallableError := "TypeError"

  /** A wrapper whose object exists and has a name in its document. */
  predicate Valid(arg: Arg)
  {
    arg.Wrapper? && arg.ptr.Some? && arg.ptr.value.named
  }

  /**
   * The checks of `addObject` (FeaturePathCompoundPyImp.cpp:27-43), in
   * order: the argument's type, a valid object, the same document, not
   * the compound itself. None means every check passes.
   */
  function AddError(arg: Arg, selfId: nat, doc: nat): (err: Option<string>)
    ensures arg.NotDocumentObject? ==> err == Some(ParseError)
    ensures arg.Wrapper? && !Valid(arg) ==> err == Some(AddInvalid)
    ensures Valid(arg) && arg.ptr.value.doc != doc ==> err == Some(AddOtherDocument)
    ensures Valid(arg) && arg.ptr.value.doc == doc && arg.ptr.value.id == selfId ==> err == Some(AddSelf)
    ensures err.None? <==> Valid(arg) && arg.ptr.value.doc == doc && arg.ptr.value.id != selfId
  {
    if arg.NotDocumentObject? then Some(ParseError)
    else if !Valid(arg) then Some(AddInvalid)
    else if arg.ptr.value.doc != doc then Some(AddOtherDocument)
    else if arg.ptr.value.id == selfId then Some(AddSelf)
    else None
  }

  /**
   * The checks of `removeObject` (FeaturePathCompoundPyImp.cpp:72-84):
   * the first three of `addObject`, with their own messages, and no
   * check against the compound itself.
   */
  function RemoveError(arg: Arg, doc: nat): (err: Option<string>)
    ensures arg.NotDocumentObject? ==> err == Some(ParseError)
    ensures arg.Wrapper? && !Valid(arg) ==> err == Some(RemoveInvalid)
    ensures Valid(arg) && arg.ptr.value.doc != doc ==> err == Some(RemoveOtherDocument)
    ensures err.None? <==> Valid(arg) && arg.ptr.value.doc == doc
  {
    if arg.NotDocumentObject? then Some(ParseError)
    else if !Valid(arg) then Some(RemoveInvalid)
    else if arg.ptr.value.doc != doc then Some(RemoveOtherDocument)
    else None
  }

  /**
   * The two methods accept the same objects except the compound itself,
   * which only `removeObject` lets through.
   */
  lemma AddAndRemoveAcceptTheSame(arg: Arg, selfId: nat, doc: nat)
    ensures AddError(arg, selfId, doc).None? ==> RemoveError(arg, doc).None?
    ensures RemoveError(arg, doc).None? && AddError(arg, selfId, doc).Some? ==> arg.ptr.value.id == selfId
    ensures Valid(arg) && arg.ptr.value.doc == doc && arg.ptr.value.id == selfId ==>
              AddError(arg, selfId, doc) == Some(AddSelf) && RemoveError(arg, doc).None?
  {
  }

  /** Where an accepted call goes, or the Python exception it raises. */
  datatype Route = ToProxy | ToCpp | Raises(error: string)

  /**
   * The route of an accepted call (FeaturePathCompoundPyImp.cpp:45-65): to
   * the proxy's method when the compound is a Python compound whose proxy
   * is a Python object with that method bound to something other than
   * this compound's wrapper; an attribute that is not callable makes the
   * `Py::Callable` conversion raise a TypeError, and an unbound callable
   * makes the `__self__` lookup raise; in every other case to the C++
   * compound.
   */
  function RouteFor(isPython: bool, proxy: ProxyProperty, m: ProxyMethod): (r: Route)
    ensures r == ToProxy <==> isPython && proxy.PythonObject? && m == BoundToOther
    ensures r.Raises? <==> isPython && proxy.PythonObject? && (m == NotCallable || m == Unbound)
    ensures r.Raises? ==> r.error == (if m == NotCallable then NotCallableError else NoSelfAttribute)
  {
    if !isPython || !proxy.PythonObject? then ToCpp
    else match m
      case Missing => ToCpp
      case NotCallable => Raises(NotCallableError)
      case Unbound => Raises(NoSelfAttribute)
      case BoundToThis => ToCpp
      case BoundToOther => ToProxy
  }

  /** A proxy method that is this compound's own wrapper method is never called back, so the call cannot recurse. */
  lemma NoRecursion(isPython: bool, proxy: ProxyProperty)
    ensures RouteFor(isPython, proxy, BoundToThis) == ToCpp
    ensures !isPython ==> forall m :: RouteFor(isPython, proxy, m) == ToCpp
  {
  }

  /** The `FeaturePathCompoundPy` wrapper of one compound. */
  class CompoundPy {
    const selfId: nat
    const doc: nat
    const isPython: bool
    const proxy: ProxyProperty
    /** The group changes made so far, by whom. */
    var ops: seq<Op>

    constructor(selfId: nat, doc: nat, isPython: bool, proxy: ProxyProperty)
      ensures this.selfId == selfId && this.doc == doc && this.isPython == isPython && this.proxy == proxy
      ensures ops == []
    {
      this.selfId := selfId;
      this.doc := doc;
      this.isPython := isPython;
      this.proxy := proxy;
      ops := [];
    }

    /** The method the proxy offers for adding, when it is a Python object. */
    function AddMethod(): ProxyMethod
      reads this
    {
      if proxy.PythonObject? then proxy.add else Missing
    }

    function RemoveMethod(): ProxyMethod
      reads this
    {
      if proxy.PythonObject? then proxy.remove else Missing
    }

    /**
     * `addObject` (FeaturePathCompoundPyImp.cpp:25-67): a rejected object
     * sets the first failing check's error and changes nothing; an accepted
     * one is added by exactly one of the proxy and the C++ compound.
     */
    method AddObject(arg: Arg) returns (err: Option<string>)
      modifies this
      ensures AddError(arg, selfId, doc).Some? ==> err == AddError(arg, selfId, doc) && ops == old(ops)
      ensures AddError(arg, selfId, doc).None? ==> match RouteFor(isPython, proxy, AddMethod())
        case Raises(e) => err == Some(e) && ops == old(ops)
        case ToProxy => err.None? && ops == old(ops) + [ProxyAdd(arg.ptr.value.id)]
        case ToCpp => err.None? && ops == old(ops) + [CppAdd(arg.ptr.value.id)]
    {
      err := AddError(arg, selfId, doc);
      if err.Some? {
        return;
      }
      var obj := arg.ptr.value;
      var route := RouteFor(isPython, proxy, AddMethod());
      if route.Raises? {
        return Some(route.error);
      } else if route == ToProxy {
        ops := ops + [ProxyAdd(obj.id)];
        return None;
      }
      ops := ops + [CppAdd(obj.id)];
    }

    /**
     * `removeObject` (FeaturePathCompoundPyImp.cpp:70-108): the same, with
     * the two document checks only.
     */
    method RemoveObject(arg: Arg) returns (err: Option<string>)
      modifies this
      ensures RemoveError(arg, doc).Some? ==> err == RemoveError(arg, doc) && ops == old(ops)
      ensures RemoveError(arg, doc).None? ==> match RouteFor(isPython, proxy, RemoveMethod())
        case Raises(e) => err == Some(e) && ops == old(ops)
        case ToProxy => err.None? && ops == old(ops) + [ProxyRemove(arg.ptr.value.id)]
        case ToCpp => err.None? && ops == old(ops) + [CppRemove(arg.ptr.value.id)]
    {
      err := RemoveError(arg, doc);
      if err.Some? {
        return;
      }
      var obj := arg.ptr.value;
      var route := RouteFor(isPython, proxy, RemoveMethod());
      if route.Raises? {
        return Some(route.error);
      } else if route == ToProxy {
        ops := ops + [ProxyRemove(obj.id)];
        return None;
      }
      ops := ops + [CppRemove(obj.id)];
    }
  }

  /** `representation` (FeaturePathCompoundPyImp.cpp:19-22). */
  const Representation := "<Path::FeatureCompound>"
}
