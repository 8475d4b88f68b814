/** The per-namespace environment: where a type name is looked up (the
  * builtin primitives, the namespace itself, its includes), how container
  * and array types are built from what is found, which items are skipped,
  * and how C identifiers become Go names. */
module Env {
  import opened Wrappers
  import opened Strings
  import opened CTypes
  import opened CustomAttrs
  import Gir
  import StrCases
  import opened TypeSystem
  import opened Primitives

  // ---------------------------------------------------------------------------
  // Namespaces as lookups see them

  /** The declared types of one namespace, by kind. */
  datatype LocalTypes = LocalTypes(
    manual: seq<Ty>,
    aliases: seq<Ty>,
    classes: seq<Ty>,
    interfaces: seq<Ty>,
    records: seq<Ty>,
    callbacks: seq<Ty>,
    enums: seq<Ty>,
    bitfields: seq<Ty>,
    unions: seq<Ty>)

  /** An included namespace: its name for foreign Go types and its types. */
  datatype Included = Included(ref: NsRef, local: LocalTypes)

  /** The namespace being generated; `included` is keyed by namespace name. */
  datatype NsView = NsView(
    name: string,
    goName: string,
    version: Version,
    local: LocalTypes,
    included: map<string, Included>)

  /** The env: the namespace, the configured GIR name replacements, the
    * version window and the prefixes stripped from C names. */
  datatype Env = Env(
    ns: NsView,
    replacements: map<string, string>,
    minVersion: Version,
    maxVersion: Version,
    symbolPrefixes: seq<string>,
    identifierPrefixes: seq<string>)

  const NotFound := Found(None, None)

  /** The order findLocalTypeWith searches in; unions are not part of it. */
  function SearchOrder(l: LocalTypes): seq<Ty> {
    l.manual + (l.aliases + (l.classes + (l.interfaces + (l.records + (l.callbacks + (l.enums + l.bitfields))))))
  }

  function OrElse(a: Option<Ty>, b: Option<Ty>): Option<Ty> {
    if a.Some? then a else b
  }

  /** findLocalTypeWith: manual types, aliases, classes, interfaces,
    * records, callbacks, enums, bitfields, each list in order. */
  function FindLocalType(l: LocalTypes, k: Key): (r: Option<Ty>)
    ensures r.Some? ==> r.value in SearchOrder(l) && Matches(k, r.value)
    ensures r.None? <==> forall t :: t in SearchOrder(l) ==> !Matches(k, t)
  {
    OrElse(FirstMatch(l.manual, k),
    OrElse(FirstMatch(l.aliases, k),
    OrElse(FirstMatch(l.classes, k),
    OrElse(FirstMatch(l.interfaces, k),
    OrElse(FirstMatch(l.records, k),
    OrElse(FirstMatch(l.callbacks, k),
    OrElse(FirstMatch(l.enums, k), FirstMatch(l.bitfields, k))))))))
  }

  /** The local lookup finds the first match in the search order; in
    * particular a union is found only as a member of another list. */
  lemma LocalLookupOrder(l: LocalTypes, k: Key)
    ensures FindLocalType(l, k) == FirstMatch(SearchOrder(l), k)
    ensures FindLocalType(l, k).Some? ==> FindLocalType(l, k).value in SearchOrder(l)
    ensures FindLocalType(l, k).None? <==> forall t :: t in SearchOrder(l) ==> !Matches(k, t)
  {
    FirstMatchConcat(l.enums, l.bitfields, k);
    FirstMatchConcat(l.callbacks, l.enums + l.bitfields, k);
    FirstMatchConcat(l.records, l.callbacks + (l.enums + l.bitfields), k);
    FirstMatchConcat(l.interfaces, l.records + (l.callbacks + (l.enums + l.bitfields)), k);
    FirstMatchConcat(l.classes, l.interfaces + (l.records + (l.callbacks + (l.enums + l.bitfields))), k);
    FirstMatchConcat(l.aliases, l.classes + (l.interfaces + (l.records + (l.callbacks + (l.enums + l.bitfields)))), k);
    FirstMatchConcat(l.manual, l.aliases + (l.classes + (l.interfaces + (l.records + (l.callbacks + (l.enums + l.bitfields))))), k);
  }

  // ---------------------------------------------------------------------------
  // Namespace references

  /** The namespace a type name points into; `foreign` is set only for an
    * included namespace. */
  datatype Target = Target(foreign: bool, ref: NsRef, local: LocalTypes)

  function OwnTarget(e: Env): Target {
    Target(false, NsRef(e.ns.name, e.ns.goName), e.ns.local)
  }

  /** referencedNamespace: "T" and "Own.T" are local, "Inc.T" is foreign
    * when Inc is included, an unknown namespace gives None, and a name with
    * more than one dot panics. */
  function ReferencedNamespace(e: Env, t: string): (r: Result<Option<(Target, string)>>)
    ensures r.Err? <==> Count(t, '.') > 1
    ensures r.Ok? && r.value.Some? && r.value.value.0.foreign ==>
              Count(t, '.') == 1 && Split(t, '.')[0] != e.ns.name &&
              Split(t, '.')[0] in e.ns.included && r.value.value.0.local == e.ns.included[Split(t, '.')[0]].local
    ensures r.Ok? && r.value.Some? && !r.value.value.0.foreign ==> r.value.value.0 == OwnTarget(e)
  {
    var parts := Split(t, '.');
    if |parts| > 2 then Err("invalid type name received")
    else if |parts| == 1 then Ok(Some((OwnTarget(e), t)))
    else if parts[0] == e.ns.name then Ok(Some((OwnTarget(e), parts[1])))
    else if parts[0] !in e.ns.included then Ok(None)
    else
      var inc := e.ns.included[parts[0]];
      Ok(Some((Target(true, inc.ref, inc.local), parts[1])))
  }

  /** The partner of referencedNamespace: building a name and resolving it.
    * An unqualified name is local and kept whole; "ns.T" is local for the
    * own namespace, foreign for an included one, and unknown otherwise. */
  lemma ReferencedNamespaceOfName(e: Env, ns: string, name: string)
    requires '.' !in ns && '.' !in name
    ensures ReferencedNamespace(e, name) == Ok(Some((OwnTarget(e), name)))
    ensures ReferencedNamespace(e, ns + "." + name) ==
              if ns == e.ns.name then Ok(Some((OwnTarget(e), name)))
              else if ns in e.ns.included then
                Ok(Some((Target(true, e.ns.included[ns].ref, e.ns.included[ns].local), name)))
              else Ok(None)
  {
    SplitNoSep(name, '.');
    SplitPrefix(ns, '.', name);
    assert ns + "." + name == ns + ['.'] + name;
  }

  /** A name with two dots is rejected whatever the namespaces are. */
  lemma ReferencedNamespaceTooManyParts(e: Env, a: string, b: string, c: string)
    ensures ReferencedNamespace(e, a + "." + b + "." + c).Err?
  {
    var t := a + "." + b + "." + c;
    assert t == a + (['.'] + b) + (['.'] + c);
    CountAppend(a, ['.'] + b, '.');
    CountAppend(a + (['.'] + b), ['.'] + c, '.');
    CountAppend(['.'], b, '.');
    CountAppend(['.'], c, '.');
  }

  // ---------------------------------------------------------------------------
  // Type lookup

  /** The configured replacement of a GIR name, if any. */
  function Replaced(e: Env, name: string): string {
    if name in e.replacements then e.replacements[name] else name
  }

  /** The lookup steps of findOuterType inside the referenced namespace: a
    * builtin by the raw C type, a builtin by GIR name, a local type by the
    * cleaned C type, a local type by GIR name. Only a local type of an
    * included namespace carries that namespace. */
  function LookupIn(target: Target, girName: string, rawCType: string): (r: Found)
  {
    var byCType := PrimitiveByCType(rawCType);
    var byName := PrimitiveByGIRName(girName);
    var foreignNs := if target.foreign then Some(target.ref) else None;
    var localByCType := FindLocalType(target.local, ByCType(CleanCType(rawCType)));
    var localByName := FindLocalType(target.local, ByGIRName(girName));
    if byCType.Some? then Found(None, byCType)
    else if byName.Some? then Found(None, byName)
    else if localByCType.Some? then Found(foreignNs, localByCType)
    else if localByName.Some? then Found(foreignNs, localByName)
    else NotFound
  }

  /** What the lookup finds: builtins shadow local types and carry no
    * namespace; a local type comes from the target's search order, matched
    * by cleaned C type or GIR name, and carries the target's namespace
    * exactly when that is foreign; nothing is found only when neither a
    * builtin nor a local type has that GIR name. */
  lemma LookupInSound(target: Target, girName: string, rawCType: string)
    ensures var r := LookupIn(target, girName, rawCType);
            && (PrimitiveByCType(rawCType).Some? ==> r == Found(None, PrimitiveByCType(rawCType)))
            && (PrimitiveByCType(rawCType).None? && PrimitiveByGIRName(girName).Some? ==>
                  r == Found(None, PrimitiveByGIRName(girName)))
            && (r.t.Some? && r.ns.None? && !target.foreign ==>
                  r.t.value in PrimitiveTypes || r.t.value in SearchOrder(target.local))
            && (r.ns.Some? ==>
                  && target.foreign && r.ns == Some(target.ref) && r.t.Some?
                  && r.t.value in SearchOrder(target.local)
                  && (Matches(ByCType(CleanCType(rawCType)), r.t.value) || Matches(ByGIRName(girName), r.t.value)))
            && (r.t.None? ==>
                  && r.ns.None? && PrimitiveByGIRName(girName).None?
                  && forall x :: x in SearchOrder(target.local) ==> !Matches(ByGIRName(girName), x))
  {
    LocalLookupOrder(target.local, ByCType(CleanCType(rawCType)));
    LocalLookupOrder(target.local, ByGIRName(girName));
  }

  /** findOuterType: an incompatible C type is never found; otherwise the
    * (replaced) name picks a namespace and the lookup runs there. */
  function FindOuterType(e: Env, t: Gir.Type): (r: Result<Found>)
    ensures CTypeIsIncompatible(CleanCType(t.ctype)) ==> r == Ok(NotFound)
    ensures !CTypeIsIncompatible(CleanCType(t.ctype)) ==>
      (r.Err? <==> ReferencedNamespace(e, Replaced(e, t.name)).Err?)
    ensures r.Ok? && r.value.t.Some? ==>
      && !CTypeIsIncompatible(CleanCType(t.ctype))
      && ReferencedNamespace(e, Replaced(e, t.name)).Ok?
      && ReferencedNamespace(e, Replaced(e, t.name)).value.Some?
      && var (target, girName) := ReferencedNamespace(e, Replaced(e, t.name)).value.value;
         r.value == LookupIn(target, girName, t.ctype)
  {
    if CTypeIsIncompatible(CleanCType(t.ctype)) then Ok(NotFound)
    else
      match ReferencedNamespace(e, Replaced(e, t.name))
      case Err(msg) => Err(msg)
      case Ok(None) => Ok(NotFound)
      case Ok(Some((target, girName))) => Ok(LookupIn(target, girName, t.ctype))
  }

  /** An incompatible C type is not found, whatever its name. */
  lemma IncompatibleNeverFound(e: Env, t: Gir.Type)
    requires CleanCType(t.ctype) in IncompatibleCTypes
    ensures FindOuterType(e, t) == Ok(NotFound)
  {
  }

  /** findTypeByGIRName: like findOuterType without the C type steps; the
    * replacement comes before the incompatibility check. */
  function FindTypeByGIRName(e: Env, name: string): (r: Result<Found>)
    ensures r.Ok? && r.value.t.Some? && r.value.ns.None? ==>
              r.value.t.value in PrimitiveTypes || r.value.t.value in SearchOrder(e.ns.local)
    ensures r.Ok? && r.value.ns.Some? ==> r.value.t.Some? && Count(Replaced(e, name), '.') == 1
    ensures r.Ok? && r.value.t.Some? ==>
              && ReferencedNamespace(e, Replaced(e, name)).Ok?
              && ReferencedNamespace(e, Replaced(e, name)).value.Some?
              && GIRName(r.value.t.value) == ReferencedNamespace(e, Replaced(e, name)).value.value.1
    ensures CTypeIsIncompatible(Replaced(e, name)) ==> r == Ok(NotFound)
  {
    var t := Replaced(e, name);
    if CTypeIsIncompatible(t) then Ok(NotFound)
    else
      match ReferencedNamespace(e, t)
      case Err(msg) => Err(msg)
      case Ok(None) => Ok(NotFound)
      case Ok(Some((target, girName))) =>
        var byName := PrimitiveByGIRName(girName);
        var local := FindLocalType(target.local, ByGIRName(girName));
        LocalLookupOrder(target.local, ByGIRName(girName));
        if byName.Some? then Ok(Found(None, byName))
        else if local.Some? then Ok(Found(if target.foreign then Some(target.ref) else None, local))
        else Ok(NotFound)
  }

  // ---------------------------------------------------------------------------
  // Containers

  /** findOuterType as the container code calls it, once per inner type. */
  type OuterFinder = Gir.Type -> Result<Found>

  function Outer(e: Env): OuterFinder {
    t => FindOuterType(e, t)
  }

  /** The inner types of a container, looked up in order; None at the first
    * one that is not found or is gpointer. */
  function InnerTypes(find: OuterFinder, inner: seq<Gir.Type>): (r: Result<Option<seq<Foreign<Ty>>>>)
    ensures r.Ok? && r.value.Some? ==> |r.value.value| == |inner|
    decreases |inner|
  {
    if inner == [] then Ok(Some([]))
    else
      match find(inner[0])
      case Err(msg) => Err(msg)
      case Ok(f) =>
        if f.t.None? || f.t.value == Gpointer then Ok(None)
        else
          match InnerTypes(find, inner[1..])
          case Err(msg) => Err(msg)
          case Ok(None) => Ok(None)
          case Ok(Some(rest)) => Ok(Some([Foreign(f.ns, f.t.value)] + rest))
  }

  /** An inner type that is usable: found, and not an untyped pointer. */
  predicate UsableInner(f: Result<Found>) {
    f.Ok? && f.value.t.Some? && f.value.t.value != Gpointer
  }

  /** The inner types resolve exactly when each one is found and is not
    * gpointer; they are then in source order, each with its namespace. */
  lemma {:induction false} InnerTypesSpec(find: OuterFinder, inner: seq<Gir.Type>)
    ensures InnerTypes(find, inner).Ok? && InnerTypes(find, inner).value.Some? <==>
              forall i :: 0 <= i < |inner| ==> UsableInner(find(inner[i]))
    ensures InnerTypes(find, inner).Ok? && InnerTypes(find, inner).value.Some? ==>
              var ts := InnerTypes(find, inner).value.value;
              |ts| == |inner| &&
              forall i :: 0 <= i < |inner| ==> ts[i] == Foreign(find(inner[i]).value.ns, find(inner[i]).value.t.value)
    decreases |inner|
  {
    if inner != [] {
      InnerTypesSpec(find, inner[1..]);
      assert forall i :: 1 <= i < |inner| ==> inner[1..][i - 1] == inner[i];
      if forall i :: 0 <= i < |inner| ==> UsableInner(find(inner[i])) {
        assert forall i :: 0 <= i < |inner[1..]| ==> UsableInner(find(inner[1..][i]));
      }
    }
  }

  /** resolveContainerInnerTypes as a value: the count must match the
    * container's, then every inner type must resolve. */
  function ContainerInstance(find: OuterFinder, c: Container, inner: seq<Gir.Type>): (r: Result<Option<Ty>>)
    ensures r.Ok? && r.value.Some? ==>
              r.value.value.ContainerInstanceTy? && r.value.value.cont == c &&
              |r.value.value.innerTypes| == |inner| == c.numInnerTypes
  {
    if |inner| != c.numInnerTypes then Ok(None)
    else
      match InnerTypes(find, inner)
      case Err(msg) => Err(msg)
      case Ok(None) => Ok(None)
      case Ok(Some(ts)) => Ok(Some(ContainerInstanceTy(c, ts)))
  }

  /** Prepends what the loop collected so far to the rest's outcome. */
  function Prepend(acc: seq<Foreign<Ty>>, r: Result<Option<seq<Foreign<Ty>>>>): Result<Option<seq<Foreign<Ty>>>> {
    if r.Ok? && r.value.Some? then Ok(Some(acc + r.value.value)) else r
  }

  /** resolveContainerInnerTypes: the loop over the inner types. */
  method ResolveContainerInnerTypes(find: OuterFinder, c: Container, inner: seq<Gir.Type>) returns (r: Result<Option<Ty>>)
    ensures r == ContainerInstance(find, c, inner)
  {
    if |inner| != c.numInnerTypes {
      return Ok(None);
    }
    var innerTypes: seq<Foreign<Ty>> := [];
    var i := 0;
    assert Prepend(innerTypes, InnerTypes(find, inner[i..])) == InnerTypes(find, inner) by {
      assert inner[0..] == inner;
      if InnerTypes(find, inner).Ok? && InnerTypes(find, inner).value.Some? {
        assert [] + InnerTypes(find, inner).value.value == InnerTypes(find, inner).value.value;
      }
    }
    while i < |inner|
      invariant 0 <= i <= |inner|
      invariant Prepend(innerTypes, InnerTypes(find, inner[i..])) == InnerTypes(find, inner)
    {
      var f := find(inner[i]);
      assert inner[i..][0] == inner[i] && inner[i..][1..] == inner[i + 1..];
      if f.Err? {
        return Err(f.msg);
      }
      if f.value.t.None? || f.value.t.value == Gpointer {
        return Ok(None);
      }
      var rest := InnerTypes(find, inner[i + 1..]);
      if rest.Ok? && rest.value.Some? {
        assert innerTypes + ([Foreign(f.value.ns, f.value.t.value)] + rest.value.value)
            == (innerTypes + [Foreign(f.value.ns, f.value.t.value)]) + rest.value.value;
      }
      innerTypes := innerTypes + [Foreign(f.value.ns, f.value.t.value)];
      i := i + 1;
    }
    assert inner[i..] == [];
    assert innerTypes + [] == innerTypes;
    r := Ok(Some(ContainerInstanceTy(c, innerTypes)));
  }

  /** findType once the outer type is found: a plain type is returned as
    * found; inner types need a container, which is then instantiated. */
  function Instantiate(e: Env, t: Gir.Type, outer: Found): (r: Result<Found>)
    ensures r.Ok? && r.value.t.Some? ==> !r.value.t.value.ContainerTy?
    ensures r.Ok? && |t.types| > 0 && r.value.t.Some? ==>
              r.value.t.value.ContainerInstanceTy? && |r.value.t.value.innerTypes| == |t.types|
    ensures outer.t.None? || !outer.t.value.ContainerTy? ==> r == if |t.types| == 0 then Ok(outer) else Ok(NotFound)
    ensures outer.t.Some? && outer.t.value.ContainerTy? ==> r.Ok? ==> r.value.ns == outer.ns || r.value == NotFound
  {
    var isContainer := outer.t.Some? && outer.t.value.ContainerTy?;
    if |t.types| == 0 && !isContainer then Ok(outer)
    else if !isContainer then Ok(NotFound)
    else
      match ContainerInstance(Outer(e), outer.t.value.cont, t.types)
      case Err(msg) => Err(msg)
      case Ok(None) => Ok(NotFound)
      case Ok(Some(ty)) => Ok(Found(outer.ns, Some(ty)))
  }

  /** findType. */
  function FindType(e: Env, t: Gir.Type): (r: Result<Found>)
    ensures r.Ok? && r.value.t.Some? ==> !r.value.t.value.ContainerTy?
    ensures r.Ok? && |t.types| > 0 && r.value.t.Some? ==>
              r.value.t.value.ContainerInstanceTy? && |r.value.t.value.innerTypes| == |t.types|
  {
    match FindOuterType(e, t)
    case Err(msg) => Err(msg)
    case Ok(outer) => Instantiate(e, t, outer)
  }

  /** Inner types on a type that is not a container find nothing. */
  lemma InnerTypesNeedContainer(e: Env, t: Gir.Type)
    requires |t.types| > 0
    requires FindOuterType(e, t).Ok?
    requires FindOuterType(e, t).value.t.None? || !FindOuterType(e, t).value.t.value.ContainerTy?
    ensures FindType(e, t) == Ok(NotFound)
  {
  }

  // ---------------------------------------------------------------------------
  // Arrays

  /** An array whose element type is not looked up (bytes or a string). */
  function SpecialArray(arr: Gir.Array, cGoType: string, goType: string): ArrayType {
    ArrayType(arr.name, arr.ctype, cGoType, goType, None, 0, None, Gir.IsZeroTerminated(arr), arr.fixedSize)
  }

  /** getArrayType: unbounded arrays, arrays without element type or without
    * C type are dropped; pointer and string C types become byte slices and
    * strings; otherwise the element type is looked up and its pointer count
    * defaults to the element type's minimum. */
  function GetArrayType(e: Env, arr: Gir.Array): (r: Result<Option<ArrayType>>)
    ensures arr.typ.None? || arr.ctype == "" ==> r == Ok(None)
    ensures r.Ok? && r.value.Some? ==>
      && (arr.length.Some? || arr.fixedSize != 0 || Gir.IsZeroTerminated(arr))
      && r.value.value.girName == arr.name && r.value.value.cTypeOverride == arr.ctype
    ensures r.Err? ==> arr.typ.Some? && FindType(e, arr.typ.value).Err?
    ensures arr.typ.Some? && arr.ctype == "void*" && (arr.length.Some? || arr.fixedSize != 0 || Gir.IsZeroTerminated(arr)) ==>
      r.Ok? && r.value.Some? && r.value.value.cGoTypeOverride == "unsafe.Pointer" && r.value.value.goTypeOverride == "[]byte"
  {
    if arr.typ.None? then Ok(None)
    else if arr.length.None? && arr.fixedSize == 0 && !Gir.IsZeroTerminated(arr) then Ok(None)
    else if arr.ctype == "" then Ok(None)
    else if arr.ctype == "gpointer" || arr.ctype == "gconstpointer" then Ok(Some(SpecialArray(arr, "C." + arr.ctype, "[]byte")))
    else if arr.ctype == "void*" then Ok(Some(SpecialArray(arr, "unsafe.Pointer", "[]byte")))
    else if CleanCType(arr.ctype) == "gchar*" then Ok(Some(SpecialArray(arr, "*C.gchar", "string")))
    else if CleanCType(arr.ctype) == "char*" then Ok(Some(SpecialArray(arr, "*C.char", "string")))
    else
      match FindType(e, arr.typ.value)
      case Err(msg) => Err(msg)
      case Ok(f) => Ok(ArrayOf(arr, f))
  }

  /** The end of getArrayType, once the element type was looked up. */
  function ArrayOf(arr: Gir.Array, f: Found): Option<ArrayType>
    requires arr.typ.Some?
  {
    if f.t.None? then None
    else
      var ctypePointers := CountCTypePointers(arr.typ.value.ctype);
      var innerPointers := if ctypePointers == 0 && MinPointers(f.t.value).Some? then MinPointers(f.t.value).value else ctypePointers;
      var cGoType := GetPointers(CountCTypePointers(arr.ctype)) + "C." + TrimCTypePointers(CleanCType(arr.ctype));
      Some(ArrayType(arr.name, arr.ctype, cGoType, "", Some(Foreign(f.ns, f.t.value)), innerPointers,
                     None, Gir.IsZeroTerminated(arr), arr.fixedSize))
  }

  /** An array built around a found element type: the cgo spelling keeps
    * the array's stars, and the element pointer count is the one written
    * in the element's C type, or else the element type's minimum. */
  lemma ArrayOfSpec(arr: Gir.Array, f: Found)
    requires arr.typ.Some?
    ensures ArrayOf(arr, f).None? <==> f.t.None?
    ensures ArrayOf(arr, f).Some? ==>
              var a := ArrayOf(arr, f).value;
              && a.inner == Some(Foreign(f.ns, f.t.value))
              && a.goTypeOverride == ""
              && CountCTypePointers(a.cGoTypeOverride) == CountCTypePointers(arr.ctype)
              && (CountCTypePointers(arr.typ.value.ctype) > 0 ==> a.innerPointers == CountCTypePointers(arr.typ.value.ctype))
              && (CountCTypePointers(arr.typ.value.ctype) == 0 ==>
                    a.innerPointers == if MinPointers(f.t.value).Some? then MinPointers(f.t.value).value else 0)
  {
    if f.t.Some? {
      var a := ArrayOf(arr, f).value;
      var stars := GetPointers(CountCTypePointers(arr.ctype));
      var trimmed := TrimCTypePointers(CleanCType(arr.ctype));
      assert a.cGoTypeOverride == stars + ("C." + trimmed);
      CountAppend(stars, "C." + trimmed, '*');
      CountAppend("C.", trimmed, '*');
      assert Count("C.", '*') == 0;
    }
  }

  /** getArrayType gives no array for no element type, no C type or no
    * bound (length, fixed size or zero termination). */
  lemma GetArrayTypeNone(e: Env, arr: Gir.Array)
    ensures arr.typ.None? || arr.ctype == "" ==> GetArrayType(e, arr) == Ok(None)
    ensures arr.length.None? && arr.fixedSize == 0 && !Gir.IsZeroTerminated(arr) ==> GetArrayType(e, arr) == Ok(None)
  {
  }

  /** What an array from getArrayType holds: a bound; an array without
    * element type is exactly one with a Go type override, a byte slice or
    * a string; an element type is never a bare container. */
  lemma GetArrayTypeSpec(e: Env, arr: Gir.Array)
    ensures var r := GetArrayType(e, arr);
            r.Ok? && r.value.Some? ==>
              var a := r.value.value;
              && (arr.length.Some? || a.fixedSize != 0 || a.zeroTerminated)
              && a.girName == arr.name && a.cTypeOverride == arr.ctype && a.length.None?
              && a.zeroTerminated == Gir.IsZeroTerminated(arr) && a.fixedSize == arr.fixedSize
              && (a.inner.None? <==> a.goTypeOverride != "")
              && (a.inner.None? ==> (a.goTypeOverride == "[]byte" || a.goTypeOverride == "string") && a.innerPointers == 0)
              && (a.inner.Some? ==>
                    && !a.inner.value.t.ContainerTy?
                    && CountCTypePointers(a.cGoTypeOverride) == CountCTypePointers(arr.ctype)
                    && (CountCTypePointers(arr.typ.value.ctype) > 0 ==> a.innerPointers == CountCTypePointers(arr.typ.value.ctype)))
  {
    var r := GetArrayType(e, arr);
    if r.Ok? && r.value.Some? {
      var special := arr.ctype == "gpointer" || arr.ctype == "gconstpointer" || arr.ctype == "void*"
                     || CleanCType(arr.ctype) == "gchar*" || CleanCType(arr.ctype) == "char*";
      if special {
        assert r.value.value.inner.None? && r.value.value.innerPointers == 0;
        assert r.value.value.goTypeOverride == "[]byte" || r.value.value.goTypeOverride == "string";
      } else {
        var f := FindType(e, arr.typ.value).value;
        assert r.value == ArrayOf(arr, f);
        ArrayOfSpec(arr, f);
      }
    }
  }

  /** findAnyType: a type and an array at once panics; a type is looked up,
    * an array is built without namespace, and neither (varargs) is not
    * found. */
  function FindAnyType(e: Env, a: Gir.AnyType): (r: Result<Found>)
    ensures a.typ.Some? && a.arr.Some? ==> r == Err("received invalid anytype")
    ensures a.typ.None? && a.arr.None? ==> r == Ok(NotFound)
    ensures a.typ.None? && a.arr.Some? && r.Ok? && r.value.t.Some? ==>
              r.value.ns.None? && r.value.t.value.ArrayTy?
    ensures a.typ.Some? && a.arr.None? ==> r == FindType(e, a.typ.value)
  {
    if a.typ.Some? && a.arr.Some? then Err("received invalid anytype")
    else if a.typ.Some? then FindType(e, a.typ.value)
    else if a.arr.Some? then
      match GetArrayType(e, a.arr.value)
      case Err(msg) => Err(msg)
      case Ok(None) => Ok(NotFound)
      case Ok(Some(arr)) => Ok(Found(None, Some(ArrayTy(arr))))
    else Ok(NotFound)
  }

  // ---------------------------------------------------------------------------
  // Skipping

  /** ingoreDeprecated: deprecated no later than a set minimum version. */
  predicate IgnoreDeprecated(e: Env, attrs: Gir.InfoAttrs) {
    attrs.deprecated && e.minVersion != ZeroVersion && LessEqual(attrs.deprecatedVersion, e.minVersion)
  }

  /** ignoreTooNew: introduced after a set maximum version. */
  predicate IgnoreTooNew(e: Env, attrs: Gir.InfoAttrs) {
    attrs.version != ZeroVersion && e.maxVersion != ZeroVersion && Less(e.maxVersion, attrs.version)
  }

  /** env.skip; `ignored` is the configured ignore function's answer for
    * (parent name, name). */
  predicate Skip(e: Env, name: string, attrs: Gir.InfoAttrs, ignored: bool)
    ensures ignored ==> Skip(e, name, attrs, ignored)
    ensures (exists i :: 0 <= i < |e.ns.local.manual| && GIRName(e.ns.local.manual[i]) == name) ==> Skip(e, name, attrs, ignored)
    ensures e.minVersion == ZeroVersion && e.maxVersion == ZeroVersion ==>
      (Skip(e, name, attrs, ignored) <==>
        ignored || exists i :: 0 <= i < |e.ns.local.manual| && GIRName(e.ns.local.manual[i]) == name)
  {
    || IgnoreDeprecated(e, attrs)
    || IgnoreTooNew(e, attrs)
    || (exists i :: 0 <= i < |e.ns.local.manual| && GIRName(e.ns.local.manual[i]) == name)
    || ignored
  }

  /** Raising the minimum version skips more deprecated items, lowering the
    * maximum skips more new ones; with neither set nothing is skipped for
    * its version. */
  lemma VersionWindowMonotone(e: Env, e': Env, attrs: Gir.InfoAttrs)
    requires e'.minVersion != ZeroVersion && LessEqual(e.minVersion, e'.minVersion)
    requires e.maxVersion != ZeroVersion && LessEqual(e.maxVersion, e'.maxVersion)
    ensures e.minVersion != ZeroVersion && IgnoreDeprecated(e, attrs) ==> IgnoreDeprecated(e', attrs)
    ensures IgnoreTooNew(e', attrs) ==> IgnoreTooNew(e, attrs)
  {
    LessStrictTotalOrder(attrs.deprecatedVersion, e.minVersion, e'.minVersion);
    LessStrictTotalOrder(e.maxVersion, e'.maxVersion, attrs.version);
  }

  lemma UnsetWindowSkipsNothing(e: Env, attrs: Gir.InfoAttrs)
    requires e.minVersion == ZeroVersion && e.maxVersion == ZeroVersion
    ensures !IgnoreDeprecated(e, attrs) && !IgnoreTooNew(e, attrs)
  {
  }

  // ---------------------------------------------------------------------------
  // Names

  /** The index of the first prefix `s` starts with. */
  function FirstPrefix(prefixes: seq<string>, s: string): (r: Option<nat>)
    ensures r.Some? ==>
              r.value < |prefixes| && HasPrefix(s, prefixes[r.value]) &&
              forall j :: 0 <= j < r.value ==> !HasPrefix(s, prefixes[j])
    ensures r.None? ==> forall j :: 0 <= j < |prefixes| ==> !HasPrefix(s, prefixes[j])
    decreases |prefixes|
  {
    if prefixes == [] then None
    else if HasPrefix(s, prefixes[0]) then Some(0)
    else match FirstPrefix(prefixes[1..], s)
      case None => None
      case Some(i) => Some(i + 1)
  }

  /** identifierToGo: the first matching prefix and one "_" after it are
    * stripped; without a matching prefix the identifier is kept. */
  function IdentifierToGo(prefixes: seq<string>, identifier: string): (r: string)
    ensures HasSuffix(identifier, r)
    ensures (forall i :: 0 <= i < |prefixes| ==> !HasPrefix(identifier, prefixes[i])) ==> r == identifier
    decreases |prefixes|
  {
    if prefixes == [] then identifier
    else
      var (trimmed, ok) := CutPrefix(identifier, prefixes[0]);
      if ok then CutPrefix(trimmed, "_").0 else IdentifierToGo(prefixes[1..], identifier)
  }

  /** identifierToGo against the first matching prefix: the identifier is
    * that prefix, then at most one "_", then the result (the "_" taken
    * whenever there is one). */
  lemma {:induction false} IdentifierToGoSpec(prefixes: seq<string>, identifier: string)
    ensures FirstPrefix(prefixes, identifier).None? ==> IdentifierToGo(prefixes, identifier) == identifier
    ensures FirstPrefix(prefixes, identifier).Some? ==>
              var p := prefixes[FirstPrefix(prefixes, identifier).value];
              var r := IdentifierToGo(prefixes, identifier);
              if HasPrefix(identifier[|p|..], "_") then identifier == p + "_" + r else identifier == p + r
    decreases |prefixes|
  {
    if prefixes != [] && !HasPrefix(identifier, prefixes[0]) {
      IdentifierToGoSpec(prefixes[1..], identifier);
    } else if prefixes != [] {
      var p := prefixes[0];
      var rest := identifier[|p|..];
      assert identifier == p + rest;
      if HasPrefix(rest, "_") {
        assert rest == "_" + rest[1..];
      }
    }
  }

  /** symbolToGo: the prefix is stripped as for identifiers and the rest
    * converted from snake_case; a symbol without prefix panics. */
  function SymbolToGo(prefixes: seq<string>, symbol: string): (r: Result<string>)
    ensures r.Err? <==> FirstPrefix(prefixes, symbol).None?
    ensures r.Ok? ==> r.value == StrCases.SnakeToGo(true, IdentifierToGo(prefixes, symbol))
    decreases |prefixes|
  {
    if prefixes == [] then Err("given symbol does not have a prefix?")
    else
      var (trimmed, ok) := CutPrefix(symbol, prefixes[0]);
      if ok then Ok(StrCases.SnakeToGo(true, CutPrefix(trimmed, "_").0))
      else SymbolToGo(prefixes[1..], symbol)
  }

  /** trampolinePrefix: "_goglib_" with the Go package name and the major
    * version. */
  function TrampolinePrefix(ns: NsView): (r: string)
    ensures HasPrefix(r, "_goglib_" + ns.goName)
  {
    "_goglib_" + ns.goName + FormatInt(ns.version.major)
  }

  /** Two major versions of one package get different trampoline
    * prefixes. */
  lemma TrampolinePrefixDistinct(a: NsView, b: NsView)
    requires a.goName == b.goName && a.version.major != b.version.major
    requires InInt64(a.version.major) && InInt64(b.version.major)
    ensures TrampolinePrefix(a) != TrampolinePrefix(b)
  {
    var p := "_goglib_" + a.goName;
    if TrampolinePrefix(a) == TrampolinePrefix(b) {
      assert TrampolinePrefix(a)[|p|..] == FormatInt(a.version.major);
      assert TrampolinePrefix(b)[|p|..] == FormatInt(b.version.major);
      AtoiFormatInt(a.version.major);
      AtoiFormatInt(b.version.major);
    }
  }

  // ---------------------------------------------------------------------------
  // Parameter order

  /** Param.GoType. */
  function ParamGoType(p: Param): string {
    NamespacedGoType(p.typ, p.cTypePointers)
  }

  /** The position class a Go parameter sorts into: context.Context first
    * (for parameters only), error last, everything else between. */
  function Rank(p: Param, forReturns: bool): (r: nat)
    ensures r <= 2
    ensures r == 0 <==> !forReturns && ParamGoType(p) == "context.Context"
    ensures r == 2 <==> ParamGoType(p) == "error"
  {
    if !forReturns && ParamGoType(p) == "context.Context" then 0
    else if ParamGoType(p) == "error" then 2
    else 1
  }

  predicate RankSorted(s: seq<Param>, forReturns: bool) {
    forall i, j :: 0 <= i < j < |s| ==> Rank(s[i], forReturns) <= Rank(s[j], forReturns)
  }

  /** A place in the order: 0 first, 1 between, 2 last. */
  type Place = x: nat | x <= 2

  /** Exchanges two elements. */
  method Swap<T>(ps: array<T>, i: nat, j: nat)
    requires i < ps.Length && j < ps.Length
    modifies ps
    ensures ps[i] == old(ps[j]) && ps[j] == old(ps[i])
    ensures forall k :: 0 <= k < ps.Length && k != i && k != j ==> ps[k] == old(ps[k])
    ensures multiset(ps[..]) == multiset(old(ps[..]))
  {
    ps[i], ps[j] := ps[j], ps[i];
  }

  /** Sorts by place, in place, as a three-way partition. */
  method SortByPlace<T(==)>(ps: array<T>, placeOf: T -> Place)
    modifies ps
    ensures multiset(ps[..]) == multiset(old(ps[..]))
    ensures forall i, j :: 0 <= i < j < ps.Length ==> placeOf(ps[i]) <= placeOf(ps[j])
  {
    var lo, mid, hi := 0, 0, ps.Length;
    while mid < hi
      invariant 0 <= lo <= mid <= hi <= ps.Length
      invariant forall k :: 0 <= k < lo ==> placeOf(ps[k]) == 0
      invariant forall k :: lo <= k < mid ==> placeOf(ps[k]) == 1
      invariant forall k :: hi <= k < ps.Length ==> placeOf(ps[k]) == 2
      invariant multiset(ps[..]) == multiset(old(ps[..]))
      decreases hi - mid
    {
      var c := placeOf(ps[mid]);
      if c == 0 {
        Swap(ps, lo, mid);
        lo, mid := lo + 1, mid + 1;
      } else if c == 1 {
        mid := mid + 1;
      } else {
        hi := hi - 1;
        Swap(ps, mid, hi);
      }
    }
  }

  /** sortGoParams: context.Context parameters first, error last. */
  method SortGoParams(ps: array<Param>)
    modifies ps
    ensures multiset(ps[..]) == multiset(old(ps[..]))
    ensures RankSorted(ps[..], false)
  {
    SortByPlace(ps, p => Rank(p, false));
  }

  /** sortGoReturns: error results last. */
  method SortGoReturns(ps: array<Param>)
    modifies ps
    ensures multiset(ps[..]) == multiset(old(ps[..]))
    ensures RankSorted(ps[..], true)
  {
    SortByPlace(ps, p => Rank(p, true));
  }

  /** What a rank-sorted list means for Go parameters: no parameter comes
    * before a context.Context and none after an error. */
  lemma RankSortedMeaning(s: seq<Param>, i: nat, j: nat)
    requires RankSorted(s, false)
    requires i < j < |s|
    ensures ParamGoType(s[j]) == "context.Context" ==> ParamGoType(s[i]) == "context.Context"
    ensures ParamGoType(s[i]) == "error" ==> ParamGoType(s[j]) == "error"
  {
    assert Rank(s[i], false) <= Rank(s[j], false);
  }
}
