/**
 * App::OriginGroupExtension (src/App/OriginGroupExtension.cpp): a group
 * that owns an `App::Origin` through its `Origin` link property. It finds
 * and checks that origin, finds the origin group of an object, and relinks
 * an object's links to origin features (axes and planes) so they point at
 * the features of the group's own origin.
 *
 * Origin.cpp is not part of this model: `Origin::getOriginFeature(role)`
 * becomes a lookup in the origin's role table that fails for a role it
 * lacks, and `Origin::hasObject` becomes membership among its features.
 * The GeoFeatureGroupExtension and GroupExtension base behaviours are
 * parameters.
 */
module OriginGroup {
  import opened Wrappers
  import opened DocModel

  /** The extension's own state: the extended object and its `Origin` link. */
  datatype OriginGroupExt = OriginGroupExt(self: ObjId, origin: Option<ObjId>, originTouched: bool)

  /** The extended object and the linked origin, if any, are document objects. */
  predicate Linked(d: Doc, g: OriginGroupExt)
  {
    g.self in d && (g.origin.Some? ==> g.origin.value in d)
  }

  /**
   * `getOrigin` (OriginGroupExtension.cpp:33-49): the linked object when it
   * is an App::Origin; a RuntimeError naming the group when nothing is
   * linked, or naming the bad object and its type when it is not an Origin.
   */
  function GetOrigin(d: Doc, g: OriginGroupExt): (r: Result<ObjId>)
    requires Linked(d, g)
    ensures r.Ok? <==> g.origin.Some? && IsOrigin(d, g.origin.value)
    ensures r.Ok? ==> r.value == g.origin.value
  {
    match g.origin
    case None => Err("Can't find Origin for \"" + d[g.self].name + "\"")
    case Some(o) =>
      if !IsOrigin(d, o) then
        Err("Bad object \"" + d[o].name + "\"(" + d[o].typeName + ") linked to the Origin of \"" + d[g.self].name + "\"")
      else Ok(o)
  }

  /** Either error of `getOrigin` ends with the group's quoted name. */
  lemma GetOriginErrorNamesGroup(d: Doc, g: OriginGroupExt)
    requires Linked(d, g) && GetOrigin(d, g).Err?
    ensures var m := GetOrigin(d, g).msg;
            var q := "\"" + d[g.self].name + "\"";
            |q| <= |m| && m[|m| - |q|..] == q
  {
    var m := GetOrigin(d, g).msg;
    var q := "\"" + d[g.self].name + "\"";
    if g.origin.None? {
      assert m == "Can't find Origin for " + q;
    } else {
      var o := g.origin.value;
      assert m == "Bad object \"" + d[o].name + "\"(" + d[o].typeName + ") linked to the Origin of " + q;
    }
  }

  /**
   * `extensionMustExecute` (OriginGroupExtension.cpp:72-78): 1 whenever the
   * Origin link is touched, otherwise the base extension's answer.
   */
  function MustExecute(g: OriginGroupExt, baseMustExecute: int): (r: int)
    ensures g.originTouched ==> r == 1
    ensures !g.originTouched ==> r == baseMustExecute
  {
    if g.originTouched then 1 else baseMustExecute
  }

  /**
   * `extensionExecute` (OriginGroupExtension.cpp:80-89): a missing or bad
   * origin becomes an error return carrying getOrigin's message; otherwise
   * the base extension's result is returned. Nothing is thrown.
   */
  function Execute(d: Doc, g: OriginGroupExt, base: ExecReturn): (r: ExecReturn)
    requires Linked(d, g)
    ensures r.ErrorReturn? <==> GetOrigin(d, g).Err? || base.ErrorReturn?
    ensures GetOrigin(d, g).Err? ==> r == ErrorReturn(GetOrigin(d, g).msg)
    ensures GetOrigin(d, g).Ok? ==> r == base
  {
    match GetOrigin(d, g)
    case Err(m) => ErrorReturn(m)
    case Ok(_) => base
  }

  /** 1 for an origin feature, whose search may recurse once through an Origin; 0 otherwise. */
  function Rank(d: Doc, obj: ObjId): nat
  {
    if IsOriginFeature(d, obj) then 1 else 0
  }

  /**
   * `getGroupOfObject` (OriginGroupExtension.cpp:51-70): null for null; else
   * the first InList object with an OriginGroupExtension, where for an
   * origin feature an Origin in its InList is searched the same way first.
   */
  function GroupOfObject(d: Doc, obj: Option<ObjId>): (r: Option<ObjId>)
    requires InListsClosed(d) && (obj.Some? ==> obj.value in d)
    ensures obj.None? ==> r.None?
    ensures r.Some? ==> r.value in d && d[r.value].originGroup
    decreases if obj.Some? then Rank(d, obj.value) else 0, 1, 0
  {
    match obj
    case None => None
    case Some(o) => ScanInList(d, d[o].inList, IsOriginFeature(d, o))
  }

  /** The loop of getGroupOfObject over one InList. */
  function ScanInList(d: Doc, list: seq<ObjId>, isOriginFeature: bool): (r: Option<ObjId>)
    requires InListsClosed(d) && forall k :: 0 <= k < |list| ==> list[k] in d
    ensures r.Some? ==> r.value in d && d[r.value].originGroup
    decreases if isOriginFeature then 1 else 0, 0, |list|
  {
    if list == [] then None
    else if d[list[0]].originGroup then Some(list[0])
    else if isOriginFeature && IsOrigin(d, list[0]) then
      var inner := GroupOfObject(d, Some(list[0]));
      if inner.Some? then inner else ScanInList(d, list[1..], isOriginFeature)
    else ScanInList(d, list[1..], isOriginFeature)
  }

  /** The position of the first object with an OriginGroupExtension. */
  function FirstGroupAt(d: Doc, list: seq<ObjId>): (r: Option<nat>)
    requires forall k :: 0 <= k < |list| ==> list[k] in d
    ensures r.Some? ==> r.value < |list| && d[list[r.value]].originGroup
    ensures r.Some? ==> forall k :: 0 <= k < r.value ==> !d[list[k]].originGroup
    ensures r.None? <==> forall k :: 0 <= k < |list| ==> !d[list[k]].originGroup
  {
    if list == [] then None
    else if d[list[0]].originGroup then Some(0)
    else match FirstGroupAt(d, list[1..]) {
      case None => None
      case Some(i) => Some(i + 1)
    }
  }

  /** Without recursion, the scan returns the first InList object that is a group. */
  lemma {:induction false} ScanIsFirstGroup(d: Doc, list: seq<ObjId>)
    requires InListsClosed(d) && forall k :: 0 <= k < |list| ==> list[k] in d
    ensures var at := FirstGroupAt(d, list);
            ScanInList(d, list, false) == (if at.Some? then Some(list[at.value]) else None)
  {
    if list != [] && !d[list[0]].originGroup {
      ScanIsFirstGroup(d, list[1..]);
    }
  }

  /**
   * For an object that is not an origin feature, getGroupOfObject is the
   * first InList object carrying an OriginGroupExtension, or null.
   */
  lemma GroupOfPlainObject(d: Doc, obj: ObjId)
    requires InListsClosed(d) && obj in d && !IsOriginFeature(d, obj)
    ensures var list := d[obj].inList;
            var at := FirstGroupAt(d, list);
            GroupOfObject(d, Some(obj)) == (if at.Some? then Some(list[at.value]) else None)
  {
    ScanIsFirstGroup(d, d[obj].inList);
  }

  /**
   * A result is either a direct InList entry or, for an origin feature, a
   * group in the InList of an Origin that links to the feature.
   */
  lemma {:induction false} ScanFindsNearGroup(d: Doc, list: seq<ObjId>, isOriginFeature: bool)
    requires InListsClosed(d) && forall k :: 0 <= k < |list| ==> list[k] in d
    ensures var r := ScanInList(d, list, isOriginFeature);
            r.Some? ==> r.value in list || (isOriginFeature && exists o :: o in list && IsOrigin(d, o) && r.value in d[o].inList)
    decreases |list|
  {
    var r := ScanInList(d, list, isOriginFeature);
    if list != [] && !d[list[0]].originGroup {
      if isOriginFeature && IsOrigin(d, list[0]) {
        var inner := GroupOfObject(d, Some(list[0]));
        if inner.Some? {
          GroupOfPlainObject(d, list[0]);
          assert inner.value in d[list[0]].inList;
        } else {
          ScanFindsNearGroup(d, list[1..], isOriginFeature);
        }
      } else {
        ScanFindsNearGroup(d, list[1..], isOriginFeature);
      }
    }
  }

  // ---------------------------------------------------------------------
  // relinkToOrigin (OriginGroupExtension.cpp:111-165)

  /** A sub-link: the linked object and its sub-element names. */
  datatype SubLink = SubLink(obj: Option<ObjId>, subs: seq<string>)

  /** The link-carrying properties relinkToOrigin inspects. */
  datatype Property =
    | LinkProp(link: Option<ObjId>)
    | LinkListProp(links: seq<Option<ObjId>>)
    | LinkSubProp(target: Option<ObjId>, subs: seq<string>)
    | LinkSubListProp(entries: seq<SubLink>)
    | OtherProp

  /** A non-null link to an origin feature. */
  predicate ToOriginFeature(d: Doc, l: Option<ObjId>)
  {
    l.Some? && IsOriginFeature(d, l.value)
  }

  /** `getOrigin()->getOriginFeature(role)`. */
  function FeatureForRole(d: Doc, g: OriginGroupExt, role: string): (r: Result<ObjId>)
    requires Linked(d, g)
    ensures r.Ok? <==> GetOrigin(d, g).Ok? && role in d[GetOrigin(d, g).value].features
    ensures r.Ok? ==> r.value == d[GetOrigin(d, g).value].features[role]
  {
    match GetOrigin(d, g)
    case Err(m) => Err(m)
    case Ok(o) =>
      if role in d[o].features then Ok(d[o].features[role])
      else Err("Origin feature not found for role " + role)
  }

  /** Where one link goes: an origin feature to its role's feature, anything else nowhere. */
  function RelinkOne(d: Doc, g: OriginGroupExt, l: Option<ObjId>): (r: Result<Option<ObjId>>)
    requires Linked(d, g)
    ensures !ToOriginFeature(d, l) ==> r == Ok(l)
    ensures ToOriginFeature(d, l) ==>
      (r.Ok? <==> FeatureForRole(d, g, d[l.value].kind.role).Ok?) &&
      (r.Ok? ==> r.value == Some(FeatureForRole(d, g, d[l.value].kind.role).value))
  {
    if !ToOriginFeature(d, l) then Ok(l)
    else match FeatureForRole(d, g, d[l.value].kind.role) {
      case Err(m) => Err(m)
      case Ok(f) => Ok(Some(f))
    }
  }

  /** The loop over a link list (lines 132-139), which stops at the first failing lookup. */
  function RelinkLinks(d: Doc, g: OriginGroupExt, ls: seq<Option<ObjId>>): (r: Result<seq<Option<ObjId>>>)
    requires Linked(d, g)
    ensures r.Ok? <==> forall k :: 0 <= k < |ls| ==> RelinkOne(d, g, ls[k]).Ok?
    ensures r.Ok? ==> |r.value| == |ls| && forall k :: 0 <= k < |ls| ==> r.value[k] == RelinkOne(d, g, ls[k]).value
  {
    if ls == [] then Ok([])
    else match RelinkOne(d, g, ls[0]) {
      case Err(m) => Err(m)
      case Ok(l) =>
        match RelinkLinks(d, g, ls[1..]) {
          case Err(m) => Err(m)
          case Ok(rest) =>
            assert forall k :: 0 < k < |ls| ==> ls[k] == ls[1..][k - 1];
            Ok([l] + rest)
        }
    }
  }

  /** The loop over sub-link entries (lines 155-160); sub-names are carried over. */
  function RelinkEntries(d: Doc, g: OriginGroupExt, es: seq<SubLink>): (r: Result<seq<SubLink>>)
    requires Linked(d, g)
    ensures r.Ok? <==> forall k :: 0 <= k < |es| ==> RelinkOne(d, g, es[k].obj).Ok?
    ensures r.Ok? ==> |r.value| == |es|
    ensures r.Ok? ==> forall k :: 0 <= k < |es| ==> r.value[k] == SubLink(RelinkOne(d, g, es[k].obj).value, es[k].subs)
  {
    if es == [] then Ok([])
    else match RelinkOne(d, g, es[0].obj) {
      case Err(m) => Err(m)
      case Ok(l) =>
        match RelinkEntries(d, g, es[1..]) {
          case Err(m) => Err(m)
          case Ok(rest) =>
            assert forall k :: 0 < k < |es| ==> es[k] == es[1..][k - 1];
            Ok([SubLink(l, es[0].subs)] + rest)
        }
    }
  }

  predicate AnyToOriginFeature(d: Doc, ls: seq<Option<ObjId>>)
  {
    exists k :: 0 <= k < |ls| && ToOriginFeature(d, ls[k])
  }

  /** The targets of a property's links, in order. */
  function LinksOf(p: Property): seq<Option<ObjId>>
  {
    match p
    case LinkProp(l) => [l]
    case LinkListProp(ls) => ls
    case LinkSubProp(t, _) => [t]
    case LinkSubListProp(es) => seq(|es|, i requires 0 <= i < |es| => es[i].obj)
    case OtherProp => []
  }

  /**
   * One property: its relinked value and whether its setter is called. A
   * single link is set only when it is an origin feature; a list is set
   * only when one of its entries was (the `changed` flag).
   */
  function RelinkProperty(d: Doc, g: OriginGroupExt, p: Property): (r: Result<(Property, bool)>)
    requires Linked(d, g)
  {
    match p
    case LinkProp(l) =>
      if !ToOriginFeature(d, l) then Ok((p, false))
      else match RelinkOne(d, g, l) {
        case Err(m) => Err(m)
        case Ok(l') => Ok((LinkProp(l'), true))
      }
    case LinkListProp(ls) =>
      match RelinkLinks(d, g, ls) {
        case Err(m) => Err(m)
        case Ok(ls') =>
          if AnyToOriginFeature(d, ls) then Ok((LinkListProp(ls'), true)) else Ok((p, false))
      }
    case LinkSubProp(t, subs) =>
      if !ToOriginFeature(d, t) then Ok((p, false))
      else match RelinkOne(d, g, t) {
        case Err(m) => Err(m)
        case Ok(t') => Ok((LinkSubProp(t', subs), true))
      }
    case LinkSubListProp(es) =>
      match RelinkEntries(d, g, es) {
        case Err(m) => Err(m)
        case Ok(es') =>
          if AnyToOriginFeature(d, LinksOf(p)) then Ok((LinkSubListProp(es'), true)) else Ok((p, false))
      }
    case OtherProp => Ok((p, false))
  }

  /**
   * The whole property loop: the relinked prefix, one setter flag per
   * processed property, and the error that stopped it, if any.
   */
  function RelinkAll(d: Doc, g: OriginGroupExt, ps: seq<Property>): (r: (seq<Property>, seq<bool>, Option<string>))
    requires Linked(d, g)
    ensures |r.0| == |r.1| <= |ps|
    ensures r.2.None? ==> |r.0| == |ps|
  {
    if ps == [] then ([], [], None)
    else
      var (done, flags, err) := RelinkAll(d, g, ps[..|ps| - 1]);
      if err.Some? then (done, flags, err)
      else match RelinkProperty(d, g, ps[|ps| - 1]) {
        case Err(m) => (done, flags, Some(m))
        case Ok((p, b)) => (done + [p], flags + [b], None)
      }
  }

  /** The positions of the set flags, ascending: the properties whose setter ran. */
  function SetIndices(flags: seq<bool>): (r: seq<nat>)
    ensures forall k :: 0 <= k < |r| ==> r[k] < |flags| && flags[r[k]]
  {
    if flags == [] then []
    else SetIndices(flags[..|flags| - 1]) + (if flags[|flags| - 1] then [|flags| - 1] else [])
  }

  /**
   * The loop processes the properties one by one: every processed property
   * got its own relinked value, and an error comes from the first property
   * whose relinking failed.
   */
  lemma {:induction false} RelinkAllPointwise(d: Doc, g: OriginGroupExt, ps: seq<Property>)
    requires Linked(d, g)
    ensures var (done, flags, err) := RelinkAll(d, g, ps);
            (forall k :: 0 <= k < |done| ==> RelinkProperty(d, g, ps[k]) == Ok((done[k], flags[k]))) &&
            (err.Some? ==> |done| < |ps| && RelinkProperty(d, g, ps[|done|]) == Err(err.value))
  {
    if ps != [] {
      var n := |ps| - 1;
      RelinkAllPointwise(d, g, ps[..n]);
      assert forall k :: 0 <= k < n ==> ps[..n][k] == ps[k];
    }
  }

  /**
   * Relinking a property: a link to an origin feature now names the
   * feature of the group's origin with the same Role, every other link
   * and every sub-element name is kept, and the setter ran exactly when
   * some link was to an origin feature.
   */
  lemma RelinkPropertyByRole(d: Doc, g: OriginGroupExt, p: Property)
    requires Linked(d, g) && RelinkProperty(d, g, p).Ok?
    ensures var (p', setter) := RelinkProperty(d, g, p).value;
            var ls := LinksOf(p);
            var ls' := LinksOf(p');
            |ls'| == |ls| && (setter <==> AnyToOriginFeature(d, ls)) &&
            (forall k :: 0 <= k < |ls| && !ToOriginFeature(d, ls[k]) ==> ls'[k] == ls[k]) &&
            (forall k :: 0 <= k < |ls| && ToOriginFeature(d, ls[k]) ==>
               ls'[k] == Some(d[GetOrigin(d, g).value].features[d[ls[k].value].kind.role])) &&
            (p.LinkSubProp? ==> p'.LinkSubProp? && p'.subs == p.subs) &&
            (p.LinkSubListProp? ==>
               p'.LinkSubListProp? && |p'.entries| == |p.entries| &&
               forall k :: 0 <= k < |p.entries| ==> p'.entries[k].subs == p.entries[k].subs) &&
            (!setter ==> p' == p)
  {
    var (p', setter) := RelinkProperty(d, g, p).value;
    var ls := LinksOf(p);
    var ls' := LinksOf(p');
    match p
    case LinkProp(l) =>
      if ToOriginFeature(d, l) { assert ToOriginFeature(d, ls[0]); }
    case LinkSubProp(t, _) =>
      if ToOriginFeature(d, t) { assert ToOriginFeature(d, ls[0]); }
    case LinkListProp(xs) =>
    case LinkSubListProp(es) =>
      if setter {
        var es' := RelinkEntries(d, g, es).value;
        assert forall k :: 0 <= k < |es| ==> ls'[k] == es'[k].obj == RelinkOne(d, g, es[k].obj).value;
      }
    case OtherProp =>
  }

  /**
   * The object whose properties relinkToOrigin rewrites. `setCalls` records,
   * in order, the positions of the properties whose setter was called.
   */
  class LinkOwner {
    var props: seq<Property>
    var setCalls: seq<nat>

    constructor(props: seq<Property>)
      ensures this.props == props && setCalls == []
    {
      this.props := props;
      setCalls := [];
    }
  }

  /**
   * `relinkToOrigin` (OriginGroupExtension.cpp:111-165): rewrites the
   * owner's link properties in order. An exception from getOrigin or
   * getOriginFeature stops the loop with the properties before it already
   * rewritten and the failing one and those after it untouched.
   */
  method RelinkToOrigin(d: Doc, g: OriginGroupExt, owner: LinkOwner) returns (err: Option<string>)
    requires Linked(d, g)
    modifies owner
    ensures var (done, flags, e) := RelinkAll(d, g, old(owner.props));
            err == e && owner.props == done + old(owner.props)[|done|..] &&
            owner.setCalls == old(owner.setCalls) + SetIndices(flags)
  {
    ghost var ps := owner.props;
    ghost var done: seq<Property> := [];
    ghost var flags: seq<bool> := [];
    var i := 0;
    err := None;
    while i < |owner.props| && err.None?
      invariant 0 <= i <= |ps| && |owner.props| == |ps|
      invariant RelinkAll(d, g, ps[..i]) == (done, flags, err)
      invariant owner.props == done + ps[|done|..]
      invariant owner.setCalls == old(owner.setCalls) + SetIndices(flags)
      invariant err.None? ==> |done| == i
    {
      err, done, flags := RelinkAt(d, g, owner, i, ps, done, flags, old(owner.setCalls));
      i := i + 1;
    }
    RelinkFinished(d, g, ps, i, err);
  }

  /** When the loop ends, the processed prefix accounts for the whole property list. */
  lemma RelinkFinished(d: Doc, g: OriginGroupExt, ps: seq<Property>, i: nat, err: Option<string>)
    requires Linked(d, g) && i <= |ps| && RelinkAll(d, g, ps[..i]).2 == err
    requires i == |ps| || err.Some?
    ensures RelinkAll(d, g, ps) == RelinkAll(d, g, ps[..i])
  {
    if err.Some? {
      RelinkAllStops(d, g, ps, i);
    } else {
      assert ps[..i] == ps;
    }
  }

  /** One pass of relinkToOrigin's loop, on the property at position `i`. */
  method RelinkAt(d: Doc, g: OriginGroupExt, owner: LinkOwner, i: nat, ghost ps: seq<Property>,
                  ghost done: seq<Property>, ghost flags: seq<bool>, ghost calls0: seq<nat>)
    returns (err: Option<string>, ghost done': seq<Property>, ghost flags': seq<bool>)
    requires Linked(d, g) && i < |ps| && |done| == i
    requires RelinkAll(d, g, ps[..i]) == (done, flags, None)
    requires owner.props == done + ps[i..]
    requires owner.setCalls == calls0 + SetIndices(flags)
    modifies owner
    ensures RelinkAll(d, g, ps[..i + 1]) == (done', flags', err)
    ensures owner.props == done' + ps[|done'|..]
    ensures owner.setCalls == calls0 + SetIndices(flags')
    ensures err.None? ==> |done'| == i + 1
  {
    assert owner.props[i] == ps[i];
    var r := RelinkProperty(d, g, owner.props[i]);
    done', flags' := done, flags;
    if r.Err? {
      RelinkAllSnocErr(d, g, ps, i, done, flags, r.msg);
      err := Some(r.msg);
    } else {
      var p, b := r.value.0, r.value.1;
      RelinkAllSnocOk(d, g, ps, i, done, flags, p, b, calls0, owner.props, owner.setCalls);
      owner.props := owner.props[i := p];
      if b {
        owner.setCalls := owner.setCalls + [i];
      }
      done' := done + [p];
      flags' := flags + [b];
      err := None;
    }
  }

  /** The loop processes one more property, which fails. */
  lemma RelinkAllSnocErr(d: Doc, g: OriginGroupExt, ps: seq<Property>, i: nat,
                         done: seq<Property>, flags: seq<bool>, m: string)
    requires Linked(d, g) && i < |ps| && RelinkAll(d, g, ps[..i]) == (done, flags, None)
    requires RelinkProperty(d, g, ps[i]) == Err(m)
    ensures RelinkAll(d, g, ps[..i + 1]) == (done, flags, Some(m))
  {
    assert ps[..i + 1][..i] == ps[..i];
  }

  /**
   * The loop processes one more property, which succeeds: it is written
   * in place and its setter call, if any, is recorded after the others.
   */
  lemma RelinkAllSnocOk(d: Doc, g: OriginGroupExt, ps: seq<Property>, i: nat,
                        done: seq<Property>, flags: seq<bool>, p: Property, b: bool,
                        calls0: seq<nat>, props: seq<Property>, calls: seq<nat>)
    requires Linked(d, g) && i < |ps| && |done| == i && RelinkAll(d, g, ps[..i]) == (done, flags, None)
    requires RelinkProperty(d, g, ps[i]) == Ok((p, b))
    requires props == done + ps[i..] && calls == calls0 + SetIndices(flags)
    ensures RelinkAll(d, g, ps[..i + 1]) == (done + [p], flags + [b], None)
    ensures props[i := p] == (done + [p]) + ps[|done + [p]|..]
    ensures (if b then calls + [i] else calls) == calls0 + SetIndices(flags + [b])
  {
    assert ps[..i + 1][..i] == ps[..i];
    ReplaceNext(done, ps, p);
    SetIndicesSnoc(flags, b);
  }

  lemma ReplaceNext<T>(done: seq<T>, ps: seq<T>, p: T)
    requires |done| < |ps|
    ensures (done + ps[|done|..])[|done| := p] == (done + [p]) + ps[|done| + 1..]
  {
  }

  lemma SetIndicesSnoc(flags: seq<bool>, b: bool)
    ensures SetIndices(flags + [b]) == SetIndices(flags) + (if b then [|flags|] else [])
  {
    assert (flags + [b])[..|flags|] == flags;
  }

  /** Once the loop has failed, the properties after the failing one change nothing. */
  lemma {:induction false} RelinkAllStops(d: Doc, g: OriginGroupExt, ps: seq<Property>, i: nat)
    requires Linked(d, g) && i <= |ps| && RelinkAll(d, g, ps[..i]).2.Some?
    ensures RelinkAll(d, g, ps) == RelinkAll(d, g, ps[..i])
    decreases |ps| - i
  {
    if i < |ps| {
      assert ps[..i + 1][..i] == ps[..i];
      RelinkAllStops(d, g, ps, i + 1);
    } else {
      assert ps[..i] == ps;
    }
  }

  /**
   * Every link to an origin feature in `ps` names a feature of the group's
   * (valid) origin.
   */
  predicate LinksIntoOrigin(d: Doc, g: OriginGroupExt, ps: seq<Property>)
    requires Linked(d, g)
  {
    forall k, j :: 0 <= k < |ps| && 0 <= j < |LinksOf(ps[k])| && ToOriginFeature(d, LinksOf(ps[k])[j]) ==>
      GetOrigin(d, g).Ok? && LinksOf(ps[k])[j].value in d[GetOrigin(d, g).value].features.Values
  }

  /** After a relinking that did not fail, every origin-feature link points into the group's origin. */
  lemma RelinkedIntoOrigin(d: Doc, g: OriginGroupExt, ps: seq<Property>)
    requires Linked(d, g) && RelinkAll(d, g, ps).2.None?
    ensures LinksIntoOrigin(d, g, RelinkAll(d, g, ps).0)
  {
    var (done, flags, err) := RelinkAll(d, g, ps);
    RelinkAllPointwise(d, g, ps);
    forall k, j | 0 <= k < |done| && 0 <= j < |LinksOf(done[k])| && ToOriginFeature(d, LinksOf(done[k])[j])
      ensures GetOrigin(d, g).Ok? && LinksOf(done[k])[j].value in d[GetOrigin(d, g).value].features.Values
    {
      RelinkedLinkIntoOrigin(d, g, ps[k], j);
    }
  }

  /** One link of one relinked property: if it is to an origin feature, that feature is in the group's origin. */
  lemma RelinkedLinkIntoOrigin(d: Doc, g: OriginGroupExt, p: Property, j: nat)
    requires Linked(d, g) && RelinkProperty(d, g, p).Ok?
    requires j < |LinksOf(RelinkProperty(d, g, p).value.0)|
    requires ToOriginFeature(d, LinksOf(RelinkProperty(d, g, p).value.0)[j])
    ensures GetOrigin(d, g).Ok?
    ensures LinksOf(RelinkProperty(d, g, p).value.0)[j].value in d[GetOrigin(d, g).value].features.Values
  {
    RelinkPropertyByRole(d, g, p);
  }

  /**
   * The origin's features are origin features of their own role: then
   * relinking twice gives the same values as relinking once.
   */
  predicate FeaturesHoldTheirRoles(d: Doc, g: OriginGroupExt)
    requires Linked(d, g)
  {
    GetOrigin(d, g).Ok? &&
    var o := GetOrigin(d, g).value;
    forall role :: role in d[o].features ==>
      d[o].features[role] in d && d[d[o].features[role]].kind == OriginFeatureKind(role)
  }

  lemma RelinkOneTwice(d: Doc, g: OriginGroupExt, l: Option<ObjId>)
    requires Linked(d, g) && FeaturesHoldTheirRoles(d, g) && RelinkOne(d, g, l).Ok?
    ensures RelinkOne(d, g, RelinkOne(d, g, l).value) == RelinkOne(d, g, l)
  {
    if ToOriginFeature(d, l) {
      var o := GetOrigin(d, g).value;
      var role := d[l.value].kind.role;
      assert RelinkOne(d, g, l).value == Some(d[o].features[role]);
    }
  }

  /** Relinking an already relinked property leaves its value unchanged. */
  lemma RelinkPropertyTwice(d: Doc, g: OriginGroupExt, p: Property)
    requires Linked(d, g) && FeaturesHoldTheirRoles(d, g) && RelinkProperty(d, g, p).Ok?
    ensures var p' := RelinkProperty(d, g, p).value.0;
            RelinkProperty(d, g, p').Ok? && RelinkProperty(d, g, p').value.0 == p'
  {
    var p' := RelinkProperty(d, g, p).value.0;
    match p
    case LinkProp(l) =>
      RelinkOneTwice(d, g, l);
    case LinkSubProp(t, _) =>
      RelinkOneTwice(d, g, t);
    case LinkListProp(ls) =>
      var ls' := RelinkLinks(d, g, ls).value;
      forall k | 0 <= k < |ls'|
        ensures RelinkOne(d, g, ls'[k]) == Ok(ls'[k])
      {
        RelinkOneTwice(d, g, ls[k]);
      }
      var again := RelinkLinks(d, g, ls');
      assert again.value == ls';
    case LinkSubListProp(es) =>
      var es' := RelinkEntries(d, g, es).value;
      forall k | 0 <= k < |es'|
        ensures RelinkOne(d, g, es'[k].obj) == Ok(es'[k].obj)
      {
        RelinkOneTwice(d, g, es[k].obj);
      }
      var again := RelinkEntries(d, g, es');
      assert again.value == es';
    case OtherProp =>
  }

  /** Relinking a whole property list twice gives what relinking it once gave. */
  lemma {:induction false} RelinkAllTwice(d: Doc, g: OriginGroupExt, ps: seq<Property>)
    requires Linked(d, g) && FeaturesHoldTheirRoles(d, g) && RelinkAll(d, g, ps).2.None?
    ensures var q := RelinkAll(d, g, ps).0;
            RelinkAll(d, g, q).2.None? && RelinkAll(d, g, q).0 == q
  {
    if ps != [] {
      var n := |ps| - 1;
      var q := RelinkAll(d, g, ps).0;
      var done := RelinkAll(d, g, ps[..n]).0;
      RelinkAllTwice(d, g, ps[..n]);
      RelinkPropertyTwice(d, g, ps[n]);
      assert q == done + [RelinkProperty(d, g, ps[n]).value.0];
      assert q[..|q| - 1] == done;
    }
  }

  /** No owner is listed twice. */
  predicate Distinct(objs: seq<LinkOwner>)
  {
    forall i, j :: 0 <= i < j < |objs| ==> objs[i] != objs[j]
  }

  /** The property lists of the listed owners, in list order. */
  ghost function PropsOf(objs: seq<LinkOwner>): (r: seq<seq<Property>>)
    reads set i | 0 <= i < |objs| :: objs[i]
    ensures |r| == |objs| && forall i :: 0 <= i < |objs| ==> r[i] == objs[i].props
  {
    if objs == [] then [] else [objs[0].props] + PropsOf(objs[1..])
  }

  /**
   * `addObjects` after its first `k` owners: each of them relinked its
   * original properties without error and holds the result, and every
   * owner not among them still holds its original properties.
   */
  predicate AddedUpTo(d: Doc, g: OriginGroupExt, objs: seq<LinkOwner>,
                      before: seq<seq<Property>>, after: seq<seq<Property>>, k: nat)
    requires Linked(d, g) && |before| == |objs| && |after| == |objs| && k <= |objs|
  {
    (forall j :: 0 <= j < k ==>
       RelinkAll(d, g, before[j]).2.None? && after[j] == RelinkAll(d, g, before[j]).0) &&
    (forall j :: k <= j < |objs| && objs[j] !in objs[..k] ==> after[j] == before[j])
  }

  /**
   * `addObjects` stopped by the exception of owner `k`: the owners before it
   * are relinked, owner `k` has the properties before the failing one
   * rewritten and the rest untouched, and an owner after it that was not
   * listed earlier holds its original properties.
   */
  predicate FailedAt(d: Doc, g: OriginGroupExt, objs: seq<LinkOwner>,
                     before: seq<seq<Property>>, after: seq<seq<Property>>, k: nat, msg: string)
    requires Linked(d, g) && |before| == |objs| && |after| == |objs| && k < |objs|
  {
    var r := RelinkAll(d, g, before[k]);
    (forall j :: 0 <= j < k ==>
       RelinkAll(d, g, before[j]).2.None? && after[j] == RelinkAll(d, g, before[j]).0) &&
    r.2 == Some(msg) && after[k] == r.0 + before[k][|r.0|..] &&
    (forall j :: k < j < |objs| && objs[j] !in objs[..k + 1] ==> after[j] == before[j])
  }

  /**
   * `addObjects` (OriginGroupExtension.cpp:167-173): every object is
   * relinked before the base addObjects runs; a failing relink throws
   * out of the loop. On success every origin-feature link of every object
   * points into the group's origin, even when an object is listed twice.
   * When no owner is listed twice, or the origin's features hold their own
   * roles, each owner holds exactly its relinked properties, and an error
   * names the owner that failed and what every owner then holds.
   * The base GeoFeatureGroupExtension::addObjects is not part of this model.
   */
  method AddObjects(d: Doc, g: OriginGroupExt, objs: seq<LinkOwner>) returns (err: Option<string>)
    requires Linked(d, g)
    modifies set i | 0 <= i < |objs| :: objs[i]
    ensures err.None? ==> forall i :: 0 <= i < |objs| ==> LinksIntoOrigin(d, g, objs[i].props)
    ensures Distinct(objs) || FeaturesHoldTheirRoles(d, g) ==>
      if err.None? then AddedUpTo(d, g, objs, old(PropsOf(objs)), PropsOf(objs), |objs|)
      else exists k :: 0 <= k < |objs| && FailedAt(d, g, objs, old(PropsOf(objs)), PropsOf(objs), k, err.value)
  {
    ghost var before := PropsOf(objs);
    err := None;
    var i := 0;
    while i < |objs|
      invariant 0 <= i <= |objs| && before == old(PropsOf(objs)) && err.None?
      invariant forall j :: 0 <= j < i ==> LinksIntoOrigin(d, g, PropsOf(objs)[j])
      invariant Distinct(objs) || FeaturesHoldTheirRoles(d, g) ==> AddedUpTo(d, g, objs, before, PropsOf(objs), i)
    {
      err := AddAt(d, g, objs, i, before);
      if err.Some? {
        return;
      }
      i := i + 1;
    }
    ghost var now := PropsOf(objs);
    forall j | 0 <= j < |objs|
      ensures LinksIntoOrigin(d, g, objs[j].props)
    {
      assert now[j] == objs[j].props;
    }
  }

  /** One pass of the `addObjects` loop: relinks the `i`-th listed owner. */
  method AddAt(d: Doc, g: OriginGroupExt, objs: seq<LinkOwner>, i: nat, ghost before: seq<seq<Property>>)
    returns (err: Option<string>)
    requires Linked(d, g) && i < |objs| && |before| == |objs|
    requires forall j :: 0 <= j < |objs| && objs[j] == objs[i] ==> before[j] == before[i]
    requires forall j :: 0 <= j < i ==> LinksIntoOrigin(d, g, PropsOf(objs)[j])
    requires Distinct(objs) || FeaturesHoldTheirRoles(d, g) ==> AddedUpTo(d, g, objs, before, PropsOf(objs), i)
    modifies objs[i]
    ensures err.None? ==> forall j :: 0 <= j < i + 1 ==> LinksIntoOrigin(d, g, PropsOf(objs)[j])
    ensures Distinct(objs) || FeaturesHoldTheirRoles(d, g) ==>
      if err.None? then AddedUpTo(d, g, objs, before, PropsOf(objs), i + 1)
      else FailedAt(d, g, objs, before, PropsOf(objs), i, err.value)
  {
    ghost var mid := PropsOf(objs);
    ghost var cur := objs[i].props;
    err := RelinkToOrigin(d, g, objs[i]);
    ghost var after := PropsOf(objs);
    assert forall j :: 0 <= j < |objs| && objs[j] == objs[i] ==> mid[j] == mid[i];
    assert forall j :: 0 <= j < |objs| ==> after[j] == if objs[j] == objs[i] then objs[i].props else mid[j];
    if err.Some? {
      if Distinct(objs) || FeaturesHoldTheirRoles(d, g) {
        AddFailed(d, g, objs, before, mid, after, i, err.value);
      }
    } else {
      RelinkedIntoOrigin(d, g, cur);
      LinksIntoOriginKept(d, g, objs, mid, after, i);
      if Distinct(objs) || FeaturesHoldTheirRoles(d, g) {
        AddStep(d, g, objs, before, mid, after, i);
      }
    }
  }

  /** Relinking one more owner keeps the owners already relinked pointing into the origin. */
  lemma LinksIntoOriginKept(d: Doc, g: OriginGroupExt, objs: seq<LinkOwner>,
                            mid: seq<seq<Property>>, after: seq<seq<Property>>, i: nat)
    requires Linked(d, g) && |mid| == |objs| && |after| == |objs| && i < |objs|
    requires forall j :: 0 <= j < i ==> LinksIntoOrigin(d, g, mid[j])
    requires LinksIntoOrigin(d, g, after[i])
    requires forall j :: 0 <= j < |objs| ==> after[j] == if objs[j] == objs[i] then after[i] else mid[j]
    ensures forall j :: 0 <= j < i + 1 ==> LinksIntoOrigin(d, g, after[j])
  {
  }

  /** An owner listed earlier was relinked already, so relinking it again cannot fail. */
  lemma AddFailsOnlyOnFirstListing(d: Doc, g: OriginGroupExt, objs: seq<LinkOwner>,
                                   before: seq<seq<Property>>, mid: seq<seq<Property>>, i: nat)
    requires Linked(d, g) && |before| == |objs| && |mid| == |objs| && i < |objs|
    requires Distinct(objs) || FeaturesHoldTheirRoles(d, g)
    requires AddedUpTo(d, g, objs, before, mid, i)
    requires forall j :: 0 <= j < |objs| && objs[j] == objs[i] ==> before[j] == before[i] && mid[j] == mid[i]
    ensures RelinkAll(d, g, mid[i]).2.None? ==>
      RelinkAll(d, g, before[i]).2.None? && RelinkAll(d, g, mid[i]).0 == RelinkAll(d, g, before[i]).0
    ensures objs[i] in objs[..i] ==> RelinkAll(d, g, mid[i]).2.None?
    ensures objs[i] !in objs[..i] ==> mid[i] == before[i]
  {
    if objs[i] in objs[..i] {
      var j0 :| 0 <= j0 < i && objs[..i][j0] == objs[i];
      assert objs[j0] == objs[i];
      RelinkAllTwice(d, g, before[j0]);
    }
  }

  /** One successful pass of the `addObjects` loop. */
  lemma AddStep(d: Doc, g: OriginGroupExt, objs: seq<LinkOwner>,
                before: seq<seq<Property>>, mid: seq<seq<Property>>, after: seq<seq<Property>>, i: nat)
    requires Linked(d, g) && |before| == |objs| && |mid| == |objs| && |after| == |objs| && i < |objs|
    requires Distinct(objs) || FeaturesHoldTheirRoles(d, g)
    requires AddedUpTo(d, g, objs, before, mid, i)
    requires forall j :: 0 <= j < |objs| && objs[j] == objs[i] ==> before[j] == before[i] && mid[j] == mid[i]
    requires RelinkAll(d, g, mid[i]).2.None?
    requires forall j :: 0 <= j < |objs| ==>
      after[j] == if objs[j] == objs[i] then RelinkAll(d, g, mid[i]).0 else mid[j]
    ensures AddedUpTo(d, g, objs, before, after, i + 1)
  {
    AddFailsOnlyOnFirstListing(d, g, objs, before, mid, i);
    forall j | 0 <= j < i + 1
      ensures RelinkAll(d, g, before[j]).2.None? && after[j] == RelinkAll(d, g, before[j]).0
    {
      if objs[j] == objs[i] {
        assert before[j] == before[i];
      }
    }
    forall j | i + 1 <= j < |objs| && objs[j] !in objs[..i + 1]
      ensures after[j] == before[j]
    {
      assert objs[..i + 1] == objs[..i] + [objs[i]];
    }
  }

  /** The pass of the `addObjects` loop whose relink throws. */
  lemma AddFailed(d: Doc, g: OriginGroupExt, objs: seq<LinkOwner>,
                  before: seq<seq<Property>>, mid: seq<seq<Property>>, after: seq<seq<Property>>,
                  i: nat, msg: string)
    requires Linked(d, g) && |before| == |objs| && |mid| == |objs| && |after| == |objs| && i < |objs|
    requires Distinct(objs) || FeaturesHoldTheirRoles(d, g)
    requires AddedUpTo(d, g, objs, before, mid, i)
    requires forall j :: 0 <= j < |objs| && objs[j] == objs[i] ==> before[j] == before[i] && mid[j] == mid[i]
    requires RelinkAll(d, g, mid[i]).2 == Some(msg)
    requires forall j :: 0 <= j < |objs| ==>
      after[j] == if objs[j] == objs[i] then RelinkAll(d, g, mid[i]).0 + mid[i][|RelinkAll(d, g, mid[i]).0|..] else mid[j]
    ensures FailedAt(d, g, objs, before, after, i, msg)
  {
    AddFailsOnlyOnFirstListing(d, g, objs, before, mid, i);
    forall j | 0 <= j < i
      ensures after[j] == mid[j]
    {
      assert objs[..i][j] == objs[j];
    }
    forall j | i < j < |objs| && objs[j] !in objs[..i + 1]
      ensures after[j] == before[j]
    {
      assert objs[..i + 1] == objs[..i] + [objs[i]];
    }
  }

  /**
   * `hasObject` (OriginGroupExtension.cpp:175-181): true for the origin
   * itself and for anything the origin holds; otherwise the GroupExtension
   * answer. A linked object that is not an Origin makes getOrigin throw.
   */
  function HasObject(d: Doc, g: OriginGroupExt, obj: ObjId, baseHasObject: bool): (r: Result<bool>)
    requires Linked(d, g)
    ensures g.origin.None? ==> r == Ok(baseHasObject)
    ensures g.origin.Some? && GetOrigin(d, g).Err? ==> r == Err(GetOrigin(d, g).msg)
    ensures GetOrigin(d, g).Ok? ==>
      r == Ok(obj == g.origin.value || obj in d[g.origin.value].features.Values || baseHasObject)
  {
    if g.origin.None? then Ok(baseHasObject)
    else match GetOrigin(d, g) {
      case Err(m) => Err(m)
      case Ok(o) => Ok(obj == o || obj in d[o].features.Values || baseHasObject)
    }
  }

  /**
   * `onExtendedUnsetupObject` (OriginGroupExtension.cpp:102-109): the
   * linked origin is removed from the document unless it is already being
   * removed; nothing else is removed.
   */
  function UnsetupObject(d: Doc, g: OriginGroupExt, removing: set<ObjId>): (r: Doc)
    requires Linked(d, g)
    ensures g.origin.Some? && g.origin.value !in removing ==> r == d - {g.origin.value}
    ensures g.origin.None? || g.origin.value in removing ==> r == d
  {
    if g.origin.Some? && g.origin.value !in removing then d - {g.origin.value} else d
  }
}
