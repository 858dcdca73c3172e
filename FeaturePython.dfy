/**
 * App::FeaturePythonImp (src/App/FeaturePython.cpp): forwards `execute`,
 * `onChanged` and `onBeforeChange` of a document object to the methods of
 * its Python `Proxy`. Python is not part of this model: the proxy is the
 * set of attribute names it offers, and what a call returns or raises is a
 * parameter. The GIL and reference counting are left out.
 */
module FeaturePython {
  import opened Wrappers

  /** What the called Python method hands back. */
  datatype PyValue = PyBool(b: bool) | PyOther

  /** A proxy call either returns a value or raises with some error text. */
  datatype PyOutcome = Returned(value: PyValue) | Raised(text: string)

  /**
   * The object's `Proxy` property: missing, present but not a
   * PropertyPythonObject, or a Python object offering some attributes.
   */
  datatype Proxy = NoProxy | OtherProperty | PythonObject(attrs: set<string>)

  predicate Offers(p: Proxy, attr: string)
  {
    p.PythonObject? && attr in p.attrs
  }

  /**
   * One call into the proxy: the method called, whether the object itself
   * was passed as first argument (proxies without `__object__`), the
   * property name passed, and whether `PythonCall` was set during the call.
   */
  datatype ProxyCall = ProxyCall(fn: string, passesObject: bool, propName: Option<string>, guardSet: bool)

  /** `execute` reaches the proxy only when not already inside it and the proxy has `execute`. */
  predicate CallsExecute(busy: bool, proxy: Proxy)
  {
    !busy && Offers(proxy, "execute")
  }

  /**
   * The result of `execute` (FeaturePython.cpp:34-78). It is false while a
   * proxy call is under way, without a usable proxy, or when the proxy
   * returns the boolean False; a Python error becomes a RuntimeError
   * "Label: text"; any other return value gives true.
   */
  function ExecuteResult(busy: bool, proxy: Proxy, outcome: PyOutcome, objLabel: string): (r: Result<bool>)
    ensures !CallsExecute(busy, proxy) ==> r == Ok(false)
    ensures r.Err? <==> CallsExecute(busy, proxy) && outcome.Raised?
    ensures r.Err? ==> r.msg == objLabel + ": " + outcome.text
    ensures r == Ok(false) <==> !CallsExecute(busy, proxy) || outcome == Returned(PyBool(false))
    ensures r == Ok(true) <==> CallsExecute(busy, proxy) && outcome.Returned? && outcome.value != PyBool(false)
  {
    if !CallsExecute(busy, proxy) then Ok(false)
    else match outcome {
      case Raised(t) => Err(objLabel + ": " + t)
      case Returned(v) => Ok(v != PyBool(false))
    }
  }

  /** The proxy call `execute` makes, when it makes one. */
  function ExecuteCalls(busy: bool, proxy: Proxy): (r: seq<ProxyCall>)
    ensures |r| == (if CallsExecute(busy, proxy) then 1 else 0)
    ensures forall k :: 0 <= k < |r| ==> r[k].fn == "execute" && r[k].guardSet && r[k].propName.None?
  {
    if CallsExecute(busy, proxy) then [ProxyCall("execute", "__object__" !in proxy.attrs, None, true)] else []
  }

  /** The proxy call a change notification makes, when it makes one. */
  function NotifyCalls(proxy: Proxy, fn: string, propName: Option<string>, busy: bool): (r: seq<ProxyCall>)
    ensures |r| == (if Offers(proxy, fn) && propName.Some? then 1 else 0)
    ensures forall k :: 0 <= k < |r| ==> r[k].fn == fn && r[k].propName == propName
  {
    if Offers(proxy, fn) && propName.Some? then [ProxyCall(fn, "__object__" !in proxy.attrs, propName, busy)] else []
  }

  /** The Python side of a document object. */
  class FeaturePythonImp {
    /** The object's `PythonCall` status bit. */
    var pythonCall: bool
    var objLabel: string
    var proxy: Proxy
    /** Every call made into the proxy, in order. */
    var calls: seq<ProxyCall>

    constructor(objLabel: string, proxy: Proxy)
      ensures !pythonCall && this.objLabel == objLabel && this.proxy == proxy && calls == []
    {
      pythonCall := false;
      this.objLabel := objLabel;
      this.proxy := proxy;
      calls := [];
    }

    /**
     * `execute`: guarded against re-entry by `PythonCall`, which is set only
     * around the proxy call and cleared again on every exit path, the
     * exceptional one included.
     */
    method Execute(outcome: PyOutcome) returns (r: Result<bool>)
      modifies this
      ensures r == ExecuteResult(old(pythonCall), proxy, outcome, objLabel)
      ensures calls == old(calls) + ExecuteCalls(old(pythonCall), proxy)
      ensures pythonCall == old(pythonCall) && proxy == old(proxy) && objLabel == old(objLabel)
    {
      if pythonCall {
        return Ok(false);
      }
      if proxy.PythonObject? && "execute" in proxy.attrs {
        pythonCall := true;
        calls := calls + [ProxyCall("execute", "__object__" !in proxy.attrs, None, pythonCall)];
        match outcome {
          case Raised(t) =>
            pythonCall := false;
            r := Err(objLabel + ": " + t);
          case Returned(v) =>
            pythonCall := false;
            if v.PyBool? && !v.b {
              r := Ok(false);
            } else {
              r := Ok(true);
            }
        }
      } else {
        r := Ok(false);
      }
    }

    /**
     * `onChanged` and `onBeforeChange` (FeaturePython.cpp:80-152): the proxy
     * method is called only when the proxy offers it and the property has
     * a name in the object; a Python error is reported and swallowed, so
     * nothing escapes and the outcome does not matter.
     */
    method Notify(fn: string, propName: Option<string>)
      requires fn == "onChanged" || fn == "onBeforeChange"
      modifies this
      ensures calls == old(calls) + NotifyCalls(proxy, fn, propName, pythonCall)
      ensures pythonCall == old(pythonCall) && proxy == old(proxy) && objLabel == old(objLabel)
    {
      if proxy.PythonObject? && fn in proxy.attrs {
        if propName.Some? {
          calls := calls + [ProxyCall(fn, "__object__" !in proxy.attrs, propName, pythonCall)];
        }
      }
    }
  }
}
