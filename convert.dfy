/** Converter selection (generators/convert): for every parameter of a C
  * call the generator picks the converter that writes the code moving its
  * value from Go to C or from C to Go. Both selectors are first-match
  * decision trees that always return some converter; what they cannot
  * handle gets the self-describing UnimplementedConverter, whose generated
  * code panics at run time. */
module Convert {
  import opened Wrappers
  import opened CustomAttrs
  import opened Strings
  import opened TypeSystem
  import opened Primitives
  import Env

  /** The converters. Each holds the parameter it converts, as the source's
    * converter structs do. */
  datatype Converter =
    | ImplicitConv(p: Param)
    | SkippedConv(p: Param)
    | UnimplementedConv(p: Param, reason: string)
    | AliasConv(sub: Converter)
    | GoToCString(p: Param)
    | GoToCNullableString(p: Param, sub: Converter)
    | GoToCNullable(p: Param, sub: Converter)
    | GoToCBoolean(p: Param)
    | GoToCCasting(p: Param)
    | GoToCCallback(p: Param)
    | GoToCConvertible(p: Param, convertFunc: string)
    | GoToCFixedSizeArray(p: Param)
    | CToGoString(p: Param)
    | CToGoNullableString(p: Param, sub: Converter)
    | CToGoNullable(p: Param, sub: Converter)
    | CToGoBoolean(p: Param)
    | CToGoCasting(p: Param)
    | CToGoCallback(p: Param)
    | CToGoConvertible(p: Param, convertFunc: string)
    | CToGoContainer(container: Container, inner: seq<Foreign<Ty>>, convertFunc: string, p: Param, children: seq<Converter>)
    | ChildString(transfer: string)
    | ChildConvertible(convertFunc: string)

  /** The objects a selector reads: a record's conversion functions and an
    * alias's target are filled in after the type is declared. */
  function TypeReads(t: Ty): set<object> {
    match t
    case RecordTy(r) => {r}
    case AliasTy(a) => {a}
    case ContainerInstanceTy(_, inner) => set i | 0 <= i < |inner| && inner[i].t.RecordTy? :: inner[i].t.rec
    case _ => {}
  }

  /** The types both casting converters handle: castable primitives, enums
    * and bitfields. */
  predicate CastLike(t: Ty) {
    t.Castable? || t.EnumTy? || t.BitfieldTy?
  }

  /** An alias whose target is a castable type. */
  predicate AliasOfCastable(t: Ty)
    reads TypeReads(t)
  {
    t.AliasTy? && t.alias.aliasedType.Some? && IsCastable(t.alias.aliasedType.value.t)
  }

  // ---------------------------------------------------------------------------
  // Go to C (go_to_c.go)

  /** newGoToCAliasedConverter: only an alias of a castable type without a
    * pointer is cast. */
  function NewGoToCAliasedConverter(p: Param): (c: Converter)
    requires p.typ.t.AliasTy?
    reads TypeReads(p.typ.t)
    ensures c.AliasConv? <==> AliasOfCastable(p.typ.t) && p.cTypePointers == 0
    ensures !c.AliasConv? ==> c == UnimplementedConv(p, "unsupported aliased type")
  {
    if AliasOfCastable(p.typ.t) && p.cTypePointers == 0 then AliasConv(GoToCCasting(p))
    else UnimplementedConv(p, "unsupported aliased type")
  }

  /** newGoToCArrayConverter: only a fixed-size in array of castable values
    * without inner pointers is converted. */
  function NewGoToCArrayConverter(p: Param): (c: Converter)
    requires p.typ.t.ArrayTy?
    ensures c.UnimplementedConv? <==> !GoToCArrayShape(p)
    ensures !c.UnimplementedConv? ==> c == GoToCFixedSizeArray(p)
    ensures c.UnimplementedConv? ==> c.p == p && c.reason != ""
  {
    var a := p.typ.t.arr;
    if a.innerPointers > 0 then UnimplementedConv(p, "unimplemented: inner pointers in array")
    else if a.fixedSize == 0 || a.length.Some? then UnimplementedConv(p, "unimplemented: non-fixed size array")
    else if a.zeroTerminated then UnimplementedConv(p, "unimplemented: zero-terminated array")
    else if p.direction == "out" then UnimplementedConv(p, "unimplemented: out array")
    else if a.inner.Some? && CastLike(a.inner.value.t) then GoToCFixedSizeArray(p)
    else UnimplementedConv(p, "unsupported array inner type")
  }

  /** newGoToCBasicConverter. A castable, enum or bitfield type behind a
    * pointer leaves the type switch without a converter and so ends as
    * unimplemented. */
  function NewGoToCBasicConverter(p: Param): (c: Converter)
    reads TypeReads(p.typ.t)
    ensures GoToCBasicFits(c, p)
    ensures c.UnimplementedConv? <==> !GoToCBasicShape(p)
  {
    var t := p.typ.t;
    if GoType(t, 0) == "string" then GoToCString(p)
    else if p.cTypePointers == 0 && GoType(t, 0) == "bool" then GoToCBoolean(p)
    else if CastLike(t) && p.cTypePointers == 0 then GoToCCasting(p)
    else if t.CallbackTy? then GoToCCallback(p)
    else if t.AliasTy? then NewGoToCAliasedConverter(p)
    else if IsConvertible(t) && p.cTypePointers == 1 && CanTransferToGlib(Conversions(t), p.transfer) then
      GoToCConvertible(p, WithForeignNamespace(p.typ.ns, GetTransferToGlibFunction(Conversions(t), p.transfer)))
    else UnimplementedConv(p, "no basic converter found")
  }

  /** NewGoToCConverter: implicit, skipped, array, caller-allocates (not
    * implemented), nullable wrapper for anything but an out parameter, and
    * otherwise the basic converter. */
  function NewGoToCConverter(p: Param): (c: Converter)
    reads TypeReads(p.typ.t)
    ensures GoToCFits(c, p)
  {
    if p.implicit then ImplicitConv(p)
    else if p.skip then SkippedConv(p)
    else if p.typ.t.ArrayTy? then NewGoToCArrayConverter(p)
    else if p.callerAllocates then UnimplementedConv(p, "caller-allocates not implemented")
    else if p.direction != "out" && p.nullable then
      if GoType(p.typ.t, 0) == "string" then GoToCNullableString(p, GoToCString(p))
      else GoToCNullable(p, NewGoToCBasicConverter(p))
    else NewGoToCBasicConverter(p)
  }

  /** What the code each Go-to-C converter writes relies on: the kind of the
    * parameter's type, its pointer depth and, for a convertible, a
    * conversion function for the parameter's transfer. An unimplemented
    * converter relies on nothing but always says why. */
  predicate GoToCFits(c: Converter, p: Param)
    reads TypeReads(p.typ.t)
  {
    var t := p.typ.t;
    match c
    case ImplicitConv(q) => q == p && p.implicit
    case SkippedConv(q) => q == p && p.skip
    case UnimplementedConv(q, reason) => q == p && reason != ""
    case GoToCString(q) => q == p && GoType(t, 0) == "string"
    case GoToCNullableString(q, sub) =>
      q == p && p.nullable && p.direction != "out" && GoType(t, 0) == "string" && sub == GoToCString(p)
    case GoToCNullable(q, sub) =>
      q == p && p.nullable && p.direction != "out" && GoToCBasicFits(sub, p)
    case _ => GoToCBasicFits(c, p)
  }

  /** GoToCFits for the converters the basic selector returns. */
  predicate GoToCBasicFits(c: Converter, p: Param)
    reads TypeReads(p.typ.t)
  {
    var t := p.typ.t;
    match c
    case UnimplementedConv(q, reason) => q == p && reason != ""
    case GoToCString(q) => q == p && GoType(t, 0) == "string"
    case GoToCBoolean(q) => q == p && p.cTypePointers == 0 && GoType(t, 0) == "bool"
    case GoToCCasting(q) => q == p && p.cTypePointers == 0 && CastLike(t)
    case GoToCCallback(q) => q == p && t.CallbackTy?
    case AliasConv(sub) => sub == GoToCCasting(p) && p.cTypePointers == 0 && AliasOfCastable(t)
    case GoToCConvertible(q, f) =>
      && q == p && IsConvertible(t) && p.cTypePointers == 1
      && CanTransferToGlib(Conversions(t), p.transfer)
      && f == WithForeignNamespace(p.typ.ns, GetTransferToGlibFunction(Conversions(t), p.transfer))
    case GoToCFixedSizeArray(q) =>
      && q == p && t.ArrayTy? && t.arr.innerPointers == 0 && t.arr.fixedSize != 0 && t.arr.length.None?
      && !t.arr.zeroTerminated && p.direction != "out" && t.arr.inner.Some? && CastLike(t.arr.inner.value.t)
    case _ => false
  }

  /** The shapes the basic Go-to-C selector has a converter for. */
  predicate GoToCBasicShape(p: Param)
    reads TypeReads(p.typ.t)
  {
    var t := p.typ.t;
    || GoType(t, 0) == "string"
    || (p.cTypePointers == 0 && GoType(t, 0) == "bool")
    || (CastLike(t) && p.cTypePointers == 0)
    || t.CallbackTy?
    || (AliasOfCastable(t) && p.cTypePointers == 0)
    || (IsConvertible(t) && p.cTypePointers == 1 && CanTransferToGlib(Conversions(t), p.transfer))
  }

  /** The arrays the Go-to-C selector has a converter for. */
  predicate GoToCArrayShape(p: Param)
    requires p.typ.t.ArrayTy?
  {
    var a := p.typ.t.arr;
    a.innerPointers == 0 && a.fixedSize != 0 && a.length.None? && !a.zeroTerminated
      && p.direction != "out" && a.inner.Some? && CastLike(a.inner.value.t)
  }

  /** The Go-to-C selector's order of precedence, and when it gives up. */
  lemma GoToCSelection(p: Param)
    ensures p.implicit ==> NewGoToCConverter(p) == ImplicitConv(p)
    ensures !p.implicit && p.skip ==> NewGoToCConverter(p) == SkippedConv(p)
    ensures !p.implicit && !p.skip && p.typ.t.ArrayTy? ==>
              (NewGoToCConverter(p).UnimplementedConv? <==> !GoToCArrayShape(p))
    ensures !p.implicit && !p.skip && !p.typ.t.ArrayTy? && p.callerAllocates ==>
              NewGoToCConverter(p) == UnimplementedConv(p, "caller-allocates not implemented")
    ensures !p.implicit && !p.skip && !p.typ.t.ArrayTy? && !p.callerAllocates ==>
              (NewGoToCConverter(p).UnimplementedConv? <==> !GoToCBasicShape(p) && (p.direction == "out" || !p.nullable))
    ensures !p.implicit && !p.skip && !p.typ.t.ArrayTy? && !p.callerAllocates && p.direction != "out" && p.nullable ==>
              NewGoToCConverter(p) == (if GoType(p.typ.t, 0) == "string" then GoToCNullableString(p, GoToCString(p))
                                       else GoToCNullable(p, NewGoToCBasicConverter(p)))
  {
  }

  /** A convertible parameter is converted exactly when it has one pointer
    * and its type has a Go-to-C function for the parameter's transfer; the
    * chosen function is then never empty. */
  lemma GoToCConvertibleChoice(p: Param)
    requires IsConvertible(p.typ.t) && !p.implicit && !p.skip && !p.callerAllocates
    requires !(p.direction != "out" && p.nullable) && GoType(p.typ.t, 0) != "string"
    ensures NewGoToCConverter(p).GoToCConvertible? <==>
              p.cTypePointers == 1 && CanTransferToGlib(Conversions(p.typ.t), p.transfer)
    ensures NewGoToCConverter(p).GoToCConvertible? ==>
              GetTransferToGlibFunction(Conversions(p.typ.t), p.transfer) != ""
  {
    TransferTables(Conversions(p.typ.t), p.transfer);
  }

  // ---------------------------------------------------------------------------
  // C to Go (c_to_go.go, container.go)

  /** newCToGoAliasedConverter. */
  function NewCToGoAliasedConverter(p: Param): (c: Converter)
    requires p.typ.t.AliasTy?
    reads TypeReads(p.typ.t)
    ensures c.AliasConv? <==> AliasOfCastable(p.typ.t) && p.cTypePointers == 0
    ensures !c.AliasConv? ==> c == UnimplementedConv(p, "")
  {
    if AliasOfCastable(p.typ.t) && p.cTypePointers == 0 then AliasConv(CToGoCasting(p))
    else UnimplementedConv(p, "")
  }

  /** newCToGoBasicConverter. The C type _Bool (graphene uses it) is cast
    * before the check for a Go bool. */
  function NewCToGoBasicConverter(p: Param): (c: Converter)
    reads TypeReads(p.typ.t)
    ensures CToGoBasicFits(c, p)
    ensures c.UnimplementedConv? <==> !CToGoBasicShape(p)
  {
    var t := p.typ.t;
    if GoType(t, 0) == "string" then CToGoString(p)
    else if p.cTypePointers == 0 && CType(t, 0) == "_Bool" then CToGoCasting(p)
    else if p.cTypePointers == 0 && GoType(t, 0) == "bool" then CToGoBoolean(p)
    else if CastLike(t) && p.cTypePointers == 0 then CToGoCasting(p)
    else if t.AliasTy? then NewCToGoAliasedConverter(p)
    else if IsConvertible(t) && p.cTypePointers == 1 && CanTransferFromGlib(Conversions(t), p.transfer) then
      CToGoConvertible(p, WithForeignNamespace(p.typ.ns, GetTransferFromGlibFunction(Conversions(t), p.transfer)))
    else UnimplementedConv(p, "")
  }

  /** The conversion function for a container itself: the full-transfer one
    * for full or container transfer, else the none-transfer one. */
  function ContainerConvertFunc(p: Param): (f: string)
    requires p.typ.t.ContainerInstanceTy?
  {
    var cont := p.typ.t.cont;
    if p.transfer == TransferFull || p.transfer == TransferContainer then
      WithForeignNamespace(p.typ.ns, cont.fromGlibFullFunction)
    else WithForeignNamespace(p.typ.ns, cont.fromGlibNoneFunction)
  }

  /** The transfer of a container's elements: full only when the container
    * is passed with full transfer. */
  function InnerTransfer(transfer: string): (r: string)
    ensures r == TransferFull <==> transfer == TransferFull
    ensures r == TransferNone <==> transfer != TransferFull
  {
    if transfer == TransferFull then TransferFull else TransferNone
  }

  /** The converter for one element of a container: a convertible type with
    * a function for the element transfer is preferred, a string is the
    * fallback; any other element has none. */
  function ChildConverter(inner: Foreign<Ty>, transfer: string): (c: Option<Converter>)
    reads TypeReads(inner.t)
    ensures c.None? <==>
      !(IsConvertible(inner.t) && CanTransferFromGlib(Conversions(inner.t), transfer)) && inner.t != Utf8 && inner.t != Filename
    ensures c.Some? && c.value.ChildConvertible? ==>
      IsConvertible(inner.t) && GetTransferFromGlibFunction(Conversions(inner.t), transfer) != ""
    ensures c.Some? && c.value.ChildString? ==> (inner.t == Utf8 || inner.t == Filename) && c.value.transfer == transfer
  {
    if IsConvertible(inner.t) && CanTransferFromGlib(Conversions(inner.t), transfer) then
      TransferTables(Conversions(inner.t), transfer);
      Some(ChildConvertible(WithForeignNamespace(inner.ns, GetTransferFromGlibFunction(Conversions(inner.t), transfer))))
    else if inner.t == Utf8 || inner.t == Filename then Some(ChildString(transfer))
    else None
  }

  /** The loop of newCToGoContainerConverter over the element types: it
    * stops at the first element without a converter. */
  method ChildConverters(inner: seq<Foreign<Ty>>, transfer: string) returns (children: seq<Converter>)
    ensures |children| <= |inner|
    ensures forall i :: 0 <= i < |children| ==> ChildConverter(inner[i], transfer) == Some(children[i])
    ensures |children| < |inner| ==> ChildConverter(inner[|children|], transfer).None?
  {
    children := [];
    var i := 0;
    while i < |inner|
      invariant i == |children| <= |inner|
      invariant forall j :: 0 <= j < i ==> ChildConverter(inner[j], transfer) == Some(children[j])
    {
      var child := ChildConverter(inner[i], transfer);
      if child.None? {
        break;
      }
      children := children + [child.value];
      i := i + 1;
    }
  }

  /** Every element type has a converter. */
  predicate AllChildrenConvert(inner: seq<Foreign<Ty>>, transfer: string)
    reads set i, o | 0 <= i < |inner| && o in TypeReads(inner[i].t) :: o
  {
    forall i :: 0 <= i < |inner| ==> ChildConverter(inner[i], transfer).Some?
  }

  /** newCToGoContainerConverter: a container converter with one child per
    * element type, or unimplemented when some element type has none. */
  method NewCToGoContainerConverter(p: Param) returns (c: Converter)
    requires p.typ.t.ContainerInstanceTy?
    ensures c.UnimplementedConv? <==> !AllChildrenConvert(p.typ.t.innerTypes, InnerTransfer(p.transfer))
    ensures c.UnimplementedConv? ==> c == UnimplementedConv(p, "")
    ensures !c.UnimplementedConv? ==>
              && c.CToGoContainer? && c.p == p && c.container == p.typ.t.cont && c.inner == p.typ.t.innerTypes
              && c.convertFunc == ContainerConvertFunc(p)
              && |c.children| == |c.inner|
              && forall i :: 0 <= i < |c.children| ==>
                   ChildConverter(c.inner[i], InnerTransfer(p.transfer)) == Some(c.children[i])
  {
    var inner := p.typ.t.innerTypes;
    var children := ChildConverters(inner, InnerTransfer(p.transfer));
    if |children| != |inner| {
      c := UnimplementedConv(p, "");
    } else {
      c := CToGoContainer(p.typ.t.cont, inner, ContainerConvertFunc(p), p, children);
    }
  }

  /** The shapes the basic C-to-Go selector has a converter for. */
  predicate CToGoBasicShape(p: Param)
    reads TypeReads(p.typ.t)
  {
    var t := p.typ.t;
    || GoType(t, 0) == "string"
    || (p.cTypePointers == 0 && (CType(t, 0) == "_Bool" || GoType(t, 0) == "bool"))
    || (CastLike(t) && p.cTypePointers == 0)
    || (AliasOfCastable(t) && p.cTypePointers == 0)
    || (IsConvertible(t) && p.cTypePointers == 1 && CanTransferFromGlib(Conversions(t), p.transfer))
  }

  /** What the code each C-to-Go converter writes relies on. */
  predicate CToGoBasicFits(c: Converter, p: Param)
    reads TypeReads(p.typ.t)
  {
    var t := p.typ.t;
    match c
    case UnimplementedConv(q, _) => q == p
    case CToGoString(q) => q == p && GoType(t, 0) == "string"
    case CToGoBoolean(q) => q == p && p.cTypePointers == 0 && GoType(t, 0) == "bool"
    case CToGoCasting(q) => q == p && p.cTypePointers == 0 && (CastLike(t) || CType(t, 0) == "_Bool")
    case AliasConv(sub) => sub == CToGoCasting(p) && p.cTypePointers == 0 && AliasOfCastable(t)
    case CToGoConvertible(q, f) =>
      && q == p && IsConvertible(t) && p.cTypePointers == 1
      && CanTransferFromGlib(Conversions(t), p.transfer)
      && f == WithForeignNamespace(p.typ.ns, GetTransferFromGlibFunction(Conversions(t), p.transfer))
    case _ => false
  }

  /** NewCToGoConverter: implicit, skipped, caller-allocates (not
    * implemented), user data (a callback's closure data), container, array
    * (never implemented), nullable wrapper, and otherwise the basic
    * converter. */
  method NewCToGoConverter(p: Param) returns (c: Converter)
    ensures p.implicit ==> c == ImplicitConv(p)
    ensures !p.implicit && p.skip ==> c == SkippedConv(p)
    ensures !p.implicit && !p.skip && p.callerAllocates ==> c == UnimplementedConv(p, "")
    ensures !p.implicit && !p.skip && !p.callerAllocates && p.isUserData ==> c == CToGoCallback(p)
    ensures !p.implicit && !p.skip && !p.callerAllocates && !p.isUserData && p.typ.t.ContainerInstanceTy? ==>
              (c.CToGoContainer? || c == UnimplementedConv(p, ""))
              && (c.UnimplementedConv? <==> !AllChildrenConvert(p.typ.t.innerTypes, InnerTransfer(p.transfer)))
    ensures !p.implicit && !p.skip && !p.callerAllocates && !p.isUserData && p.typ.t.ArrayTy? ==>
              c == UnimplementedConv(p, "")
    ensures !p.implicit && !p.skip && !p.callerAllocates && !p.isUserData
            && !p.typ.t.ContainerInstanceTy? && !p.typ.t.ArrayTy? ==>
              && (p.nullable && p.typ.t == Utf8 ==> c == CToGoNullableString(p, CToGoString(p)))
              && (p.nullable && p.typ.t != Utf8 ==>
                    c.CToGoNullable? && c.p == p && CToGoBasicFits(c.sub, p)
                    && (c.sub.UnimplementedConv? <==> !CToGoBasicShape(p)))
              && (!p.nullable ==> CToGoBasicFits(c, p) && (c.UnimplementedConv? <==> !CToGoBasicShape(p)))
  {
    if p.implicit {
      c := ImplicitConv(p);
    } else if p.skip {
      c := SkippedConv(p);
    } else if p.callerAllocates {
      c := UnimplementedConv(p, "");
    } else if p.isUserData {
      c := CToGoCallback(p);
    } else if p.typ.t.ContainerInstanceTy? {
      c := NewCToGoContainerConverter(p);
    } else if p.typ.t.ArrayTy? {
      c := UnimplementedConv(p, "");
    } else if p.nullable {
      if p.typ.t == Utf8 {
        c := CToGoNullableString(p, CToGoString(p));
      } else {
        c := CToGoNullable(p, NewCToGoBasicConverter(p));
      }
    } else {
      c := NewCToGoBasicConverter(p);
    }
  }

  /** The lines a container's string child writes: it copies the C string
    * and frees it only when the element was transferred in full. */
  function ChildStringLines(transfer: string): (lines: seq<string>)
  {
    ["dst = C.GoString((*C.char)(v))"] + (if transfer == TransferFull then ["defer C.free(v)"] else [])
  }

  /** A container's string elements are freed exactly when the container
    * comes with full transfer (not for container or none transfer). */
  lemma StringChildFreesOnFullTransfer(p: Param, i: nat)
    requires p.typ.t.ContainerInstanceTy? && i < |p.typ.t.innerTypes|
    requires ChildConverter(p.typ.t.innerTypes[i], InnerTransfer(p.transfer)) == Some(ChildString(InnerTransfer(p.transfer)))
    ensures "defer C.free(v)" in ChildStringLines(InnerTransfer(p.transfer)) <==> p.transfer == TransferFull
    ensures p.typ.t.innerTypes[i].t == Utf8 || p.typ.t.innerTypes[i].t == Filename
  {
  }

  // ---------------------------------------------------------------------------
  // UnimplementedConverter (unimplemented.go)

  /** The links of a parameter (closure, destroy notifier, array length) are
    * positions among the callable's GIR parameters. */
  predicate LinksIn(p: Param, links: seq<Param>) {
    && (p.closure.Some? ==> p.closure.value < |links|)
    && (p.destroy.Some? ==> p.destroy.value < |links|)
    && (p.typ.t.ArrayTy? && p.typ.t.arr.length.Some? ==> p.typ.t.arr.length.value < |links|)
  }

  /** strings.Join with a separator string. */
  function JoinWith(parts: seq<string>, sep: string): (s: string)
  {
    if parts == [] then ""
    else if |parts| == 1 then parts[0]
    else parts[0] + sep + JoinWith(parts[1..], sep)
  }

  /** A joined list starts with its first part followed by the separator,
    * when there is more than one part. */
  lemma JoinWithHead(parts: seq<string>, sep: string)
    requires |parts| >= 2
    ensures HasPrefix(JoinWith(parts, sep), parts[0] + sep + parts[1])
  {
    var rest := JoinWith(parts[1..], sep);
    if |parts| > 2 {
      assert parts[1..][0] == parts[1] && parts[1..][1..] == parts[2..];
      assert rest == parts[1] + sep + JoinWith(parts[2..], sep);
    }
    assert JoinWith(parts, sep) == parts[0] + sep + rest;
    assert HasPrefix(rest, parts[1]);
  }

  /** The name %T prints for a type's dynamic Go type. */
  function GoTypeName(t: Ty): string {
    match t
    case Castable(_) => "*typesystem.CastablePrimitive"
    case Boolean(_) => "*typesystem.BooleanPrimitive"
    case Str(_) => "*typesystem.StringPrimitive"
    case Void => "*typesystem.VoidType"
    case EnumTy(_) => "*typesystem.Enum"
    case BitfieldTy(_) => "*typesystem.Bitfield"
    case UnionTy(_) => "*typesystem.Union"
    case ClassTy(_) => "*typesystem.Class"
    case IfaceTy(_) => "*typesystem.Interface"
    case RecordTy(_) => "*typesystem.Record"
    case CallbackTy(_) => "*typesystem.Callback"
    case AliasTy(_) => "*typesystem.Alias"
    case ContainerTy(_) => "*typesystem.Container"
    case ContainerInstanceTy(_, _) => "*typesystem.ContainerInstance"
    case ArrayTy(_) => "*typesystem.Array"
  }

  /** One part of the metadata of an unimplemented conversion, before it
    * is printed. */
  datatype MetaPart =
    | Direction(direction: string)
    | Transfer(transfer: string)
    | Pointers(n: nat)
    | Name(girName: string)
    | ScopePart(scope: string)
    | Optional
    | Nullable
    | CallerAllocates
    | ClosurePart(closure: string)
    | DestroyPart(destroy: string)
    | ArrayPart(details: seq<ArrayDetail>)

  /** One detail of an array's metadata. */
  datatype ArrayDetail =
    | Inner(cType: string, goTypeName: string)
    | InnerUnknown
    | FixedSize(size: int)
    | ZeroTerminated
    | LengthBy(length: string)

  function DetailText(d: ArrayDetail): string {
    match d
    case Inner(c, n) => "inner " + c + " (" + n + ")"
    case InnerUnknown => "inner unknown"
    case FixedSize(n) => "fixed-size: " + FormatInt(n)
    case ZeroTerminated => "zero-terminated"
    case LengthBy(l) => "length-by: " + l
  }

  function DetailTexts(ds: seq<ArrayDetail>): (texts: seq<string>)
    ensures |texts| == |ds|
    ensures forall i :: 0 <= i < |ds| ==> texts[i] == DetailText(ds[i])
  {
    seq(|ds|, i requires 0 <= i < |ds| => DetailText(ds[i]))
  }

  function PartText(m: MetaPart): string {
    match m
    case Direction(d) => d
    case Transfer(t) => "transfer: " + t
    case Pointers(n) => "C Pointers: " + FormatInt(n)
    case Name(g) => "Name: " + g
    case ScopePart(sc) => "scope: " + sc
    case Optional => "optional"
    case Nullable => "nullable"
    case CallerAllocates => "caller-allocates"
    case ClosurePart(c) => "closure: " + c
    case DestroyPart(d) => "destroy: " + d
    case ArrayPart(ds) => "array (" + JoinWith(DetailTexts(ds), ", ") + ")"
  }

  /** The array details: the element type, then the fixed size, zero
    * termination and length parameter when there are such. */
  function ArrayDetails(a: ArrayType, links: seq<Param>): (ds: seq<ArrayDetail>)
    requires a.length.Some? ==> a.length.value < |links|
    ensures |ds| >= 1
    ensures a.inner.Some? <==> ds[0].Inner?
    ensures a.inner.Some? ==> ds[0] == Inner(CType(a.inner.value.t, a.innerPointers), GoTypeName(a.inner.value.t))
    ensures (exists n :: FixedSize(n) in ds) <==> a.fixedSize > 0
    ensures ZeroTerminated in ds <==> a.zeroTerminated
    ensures a.length.Some? ==> LengthBy(links[a.length.value].cName) in ds
    ensures a.length.None? ==> forall d :: d in ds ==> !d.LengthBy?
  {
    [if a.inner.Some? then Inner(CType(a.inner.value.t, a.innerPointers), GoTypeName(a.inner.value.t)) else InnerUnknown]
    + (if a.fixedSize > 0 then [FixedSize(a.fixedSize)] else [])
    + (if a.zeroTerminated then [ZeroTerminated] else [])
    + (if a.length.Some? then [LengthBy(links[a.length.value].cName)] else [])
  }

  /** The parts of UnimplementedConverter.Metadata: direction, transfer,
    * pointer count and GIR name, then the scope unless it is "call", the
    * flags that are set, the linked closure and destroy parameters, and the
    * array details. */
  function MetadataParts(p: Param, links: seq<Param>): (parts: seq<MetaPart>)
    requires LinksIn(p, links)
    ensures |parts| >= 4
    ensures parts[..4] == [Direction(p.direction), Transfer(p.transfer), Pointers(p.cTypePointers), Name(GIRName(p.typ.t))]
  {
    FixedParts(p) + ScopeParts(p) + FlagParts(p) + LinkParts(p, links) + ArrayParts(p, links)
  }

  /** The four parts every metadata has. */
  function FixedParts(p: Param): (parts: seq<MetaPart>)
    ensures |parts| == 4
    ensures forall m :: m in parts ==> m.Direction? || m.Transfer? || m.Pointers? || m.Name?
  {
    [Direction(p.direction), Transfer(p.transfer), Pointers(p.cTypePointers), Name(GIRName(p.typ.t))]
  }

  function ScopeParts(p: Param): (parts: seq<MetaPart>)
    ensures forall m :: m in parts ==> m.ScopePart?
    ensures ScopePart(p.scope) in parts <==> p.scope != ScopeCall
  {
    if p.scope != ScopeCall then [ScopePart(p.scope)] else []
  }

  function FlagParts(p: Param): (parts: seq<MetaPart>)
    ensures forall m :: m in parts ==> m.Optional? || m.Nullable? || m.CallerAllocates?
    ensures Optional in parts <==> p.optional
    ensures Nullable in parts <==> p.nullable
    ensures CallerAllocates in parts <==> p.callerAllocates
  {
    (if p.optional then [Optional] else [])
    + (if p.nullable then [Nullable] else [])
    + (if p.callerAllocates then [CallerAllocates] else [])
  }

  function LinkParts(p: Param, links: seq<Param>): (parts: seq<MetaPart>)
    requires LinksIn(p, links)
    ensures forall m :: m in parts ==> m.ClosurePart? || m.DestroyPart?
    ensures p.closure.Some? ==> ClosurePart(links[p.closure.value].cName) in parts
    ensures p.closure.None? ==> forall m :: m in parts ==> !m.ClosurePart?
    ensures p.destroy.Some? ==> DestroyPart(links[p.destroy.value].cName) in parts
    ensures p.destroy.None? ==> forall m :: m in parts ==> !m.DestroyPart?
  {
    (if p.closure.Some? then [ClosurePart(links[p.closure.value].cName)] else [])
    + (if p.destroy.Some? then [DestroyPart(links[p.destroy.value].cName)] else [])
  }

  function ArrayParts(p: Param, links: seq<Param>): (parts: seq<MetaPart>)
    requires LinksIn(p, links)
    ensures p.typ.t.ArrayTy? ==> parts == [ArrayPart(ArrayDetails(p.typ.t.arr, links))]
    ensures !p.typ.t.ArrayTy? ==> parts == []
  {
    if p.typ.t.ArrayTy? then [ArrayPart(ArrayDetails(p.typ.t.arr, links))] else []
  }

  /** A part is in the metadata when it is in one of its groups. */
  lemma MetadataMembers(p: Param, links: seq<Param>)
    requires LinksIn(p, links)
    ensures forall m :: m in MetadataParts(p, links) <==>
              m in FixedParts(p) || m in ScopeParts(p) || m in FlagParts(p) || m in LinkParts(p, links) || m in ArrayParts(p, links)
  {
    var f, s, fl, l, a := FixedParts(p), ScopeParts(p), FlagParts(p), LinkParts(p, links), ArrayParts(p, links);
    assert MetadataParts(p, links) == (((f + s) + fl) + l) + a;
  }

  /** The scope shows unless it is "call". */
  lemma MetadataShowsScope(p: Param, links: seq<Param>)
    requires LinksIn(p, links)
    ensures ScopePart(p.scope) in MetadataParts(p, links) <==> p.scope != ScopeCall
  {
    MetadataMembers(p, links);
  }

  /** Each flag shows when it is set. */
  lemma MetadataShowsFlags(p: Param, links: seq<Param>)
    requires LinksIn(p, links)
    ensures var parts := MetadataParts(p, links);
            && (Optional in parts <==> p.optional)
            && (Nullable in parts <==> p.nullable)
            && (CallerAllocates in parts <==> p.callerAllocates)
  {
    MetadataMembers(p, links);
  }

  /** The linked closure and destroy parameters show by their C names. */
  lemma MetadataShowsLinks(p: Param, links: seq<Param>)
    requires LinksIn(p, links)
    ensures var parts := MetadataParts(p, links);
            && (p.closure.Some? ==> ClosurePart(links[p.closure.value].cName) in parts)
            && (p.closure.None? ==> forall m :: m in parts ==> !m.ClosurePart?)
            && (p.destroy.Some? ==> DestroyPart(links[p.destroy.value].cName) in parts)
            && (p.destroy.None? ==> forall m :: m in parts ==> !m.DestroyPart?)
  {
    MetadataMembers(p, links);
  }

  /** An array parameter's details close the metadata. */
  lemma MetadataShowsArray(p: Param, links: seq<Param>)
    requires LinksIn(p, links)
    ensures var parts := MetadataParts(p, links);
            && (p.typ.t.ArrayTy? ==> parts[|parts| - 1] == ArrayPart(ArrayDetails(p.typ.t.arr, links)))
            && (!p.typ.t.ArrayTy? ==> forall m :: m in parts ==> !m.ArrayPart?)
  {
  }

  /** The printed parts. */
  function PartTexts(parts: seq<MetaPart>): (texts: seq<string>)
    ensures |texts| == |parts|
    ensures forall i :: 0 <= i < |parts| ==> texts[i] == PartText(parts[i])
  {
    seq(|parts|, i requires 0 <= i < |parts| => PartText(parts[i]))
  }

  /** UnimplementedConverter.Metadata. */
  function UnimplementedMetadata(p: Param, links: seq<Param>): (s: string)
    requires LinksIn(p, links)
    ensures HasPrefix(s, p.direction + ", " + "transfer: " + p.transfer)
  {
    var parts := MetadataParts(p, links);
    assert parts[0] == Direction(p.direction) && parts[1] == Transfer(p.transfer) by {
      assert parts[..4][0] == parts[0] && parts[..4][1] == parts[1];
    }
    JoinWithHead(PartTexts(parts), ", ");
    JoinWith(PartTexts(parts), ", ")
  }

  /** Param.CType and Param.CGoType: the GIR's own spelling when it has
    * one. */
  function ParamCType(p: Param): string {
    if p.girCType != "" then p.girCType else CType(p.typ.t, p.cTypePointers)
  }

  function ParamCGoType(p: Param): string {
    if p.girCGoType != "" then p.girCGoType else CGoType(p.typ.t, p.cTypePointers)
  }

  /** An empty reason reads "unknown reason". */
  function ReasonText(reason: string): (r: string)
    ensures r != ""
    ensures reason != "" ==> r == reason
  {
    if reason == "" then "unknown reason" else reason
  }

  /** The statement the generated code panics with. */
  function PanicLine(p: Param, reason: string): string {
    "panic(\"unimplemented conversion of " + Env.ParamGoType(p) + " (" + ParamCType(p) + ") because of " + ReasonText(reason) + "\")"
  }

  /** The names UnimplementedConverter.Convert marks as used: the
    * parameter's Go and C names and the linked closure, destroy and length
    * parameters. */
  function UsedNames(p: Param, links: seq<Param>): (names: seq<string>)
    requires LinksIn(p, links)
    ensures |names| >= 2 && names[0] == p.goName && names[1] == p.cName
    ensures p.closure.Some? ==> links[p.closure.value].cName in names
    ensures p.destroy.Some? ==> links[p.destroy.value].cName in names
    ensures p.typ.t.ArrayTy? && p.typ.t.arr.length.Some? ==> links[p.typ.t.arr.length.value].cName in names
  {
    [p.goName, p.cName]
    + (if p.closure.Some? then [links[p.closure.value].cName] else [])
    + (if p.destroy.Some? then [links[p.destroy.value].cName] else [])
    + (if p.typ.t.ArrayTy? && p.typ.t.arr.length.Some? then [links[p.typ.t.arr.length.value].cName] else [])
  }

  /** UnimplementedConverter.Convert: one `_ = name` line per used name
    * (so the generated code compiles without unused variables), then the
    * panic. */
  function UnimplementedLines(p: Param, reason: string, links: seq<Param>): (lines: seq<string>)
    requires LinksIn(p, links)
    ensures |lines| == |UsedNames(p, links)| + 1 && lines[|lines| - 1] == PanicLine(p, reason)
    ensures forall i :: 0 <= i < |lines| - 1 ==> lines[i] == "_ = " + UsedNames(p, links)[i]
  {
    UseLines(UsedNames(p, links)) + [PanicLine(p, reason)]
  }

  /** The `_ = name` line for each name, in order. */
  function UseLines(names: seq<string>): (lines: seq<string>)
    ensures |lines| == |names|
    ensures forall i :: 0 <= i < |names| ==> lines[i] == "_ = " + names[i]
  {
    seq(|names|, i requires 0 <= i < |names| => "_ = " + names[i])
  }

  /** Every name the unimplemented conversion refers to gets its use line. */
  lemma UnimplementedUsesLinks(p: Param, reason: string, links: seq<Param>, name: string)
    requires LinksIn(p, links) && name in UsedNames(p, links)
    ensures ("_ = " + name) in UnimplementedLines(p, reason, links)
  {
    var names := UsedNames(p, links);
    var i :| 0 <= i < |names| && names[i] == name;
    assert UnimplementedLines(p, reason, links)[i] == "_ = " + name;
  }

  // ---------------------------------------------------------------------------
  // GoToCCallbackConverter.Convert (callback_go_to_c.go)

  /** What a callback conversion does once the Go function is registered:
    * nothing more, delete the registration when the call returns, or set
    * the destroy notifier to the trampoline that deletes it. */
  datatype Cleanup = NoCleanup | DeferDelete | SetDestroy(destroy: string, destroyCGoType: string, trampoline: string)

  /** What the callback conversion writes: the core packages and other
    * packages it imports, the parameter's trampoline, the registration
    * function and the closure parameter the key goes to, and the cleanup. */
  datatype CallbackCode = CallbackCode(
    coreImports: seq<string>,
    imports: seq<string>,
    cName: string,
    trampoline: string,
    closure: string,
    closureCGoType: string,
    register: string,
    goName: string,
    cleanup: Cleanup)

  /** The lines the callback conversion writes. */
  function CallbackLines(c: CallbackCode): (lines: seq<string>) {
    [c.cName + " = (*[0]byte)(C." + c.trampoline + ")",
     c.closure + " = " + c.closureCGoType + "(userdata." + c.register + "(" + c.goName + "))"]
    + match c.cleanup
      case NoCleanup => []
      case DeferDelete => ["defer userdata.Delete(unsafe.Pointer(" + c.closure + "))"]
      case SetDestroy(d, t, tr) => [d + " = (" + t + ")((*[0]byte)(C." + tr + "))"]
  }

  /** How long the C side may use a callback's user data, by the scope
    * annotation of GObject introspection: until the call returns, until the
    * callback's one call, until the destroy notifier runs, or for the rest
    * of the program. */
  datatype Lifetime = UntilCallReturns | UntilFirstCall | UntilDestroyNotify | Forever

  function ScopeLifetime(scope: string): Option<Lifetime> {
    if scope == ScopeCall then Some(UntilCallReturns)
    else if scope == ScopeAsync then Some(UntilFirstCall)
    else if scope == ScopeNotified then Some(UntilDestroyNotify)
    else if scope == ScopeForever then Some(Forever)
    else None
  }

  /** GoToCCallbackConverter.Convert: stores the trampoline, registers the
    * Go function in the userdata registry (once-only for async scope) and
    * passes its key as the closure; for call scope the key is deleted when
    * the call returns, for notified scope the destroy notifier is set to
    * its trampoline. A missing closure, a notified scope without a destroy
    * parameter, a destroy parameter that is no callback and an unknown
    * scope are panics in the source. */
  function GoToCCallbackConvert(p: Param, links: seq<Param>): (r: Result<CallbackCode>)
    requires p.typ.t.CallbackTy? && LinksIn(p, links)
    ensures p.closure.None? ==> r == Err("no closure param")
    ensures p.closure.Some? && p.scope == ScopeNotified && p.destroy.None? ==> r == Err("destroy closure without destroy param")
    ensures r.Ok? ==> r.value.cName == p.cName && r.value.goName == p.goName
                      && r.value.trampoline == p.typ.t.cb.trampolineName
                      && r.value.closure == links[p.closure.value].cName
  {
    if p.closure.None? then Err("no closure param")
    else if p.scope == ScopeNotified && p.destroy.None? then Err("destroy closure without destroy param")
    else
      var closure := links[p.closure.value];
      var register := if p.scope == ScopeAsync then "RegisterOnce" else "Register";
      var code := CallbackCode(["userdata"], [], p.cName, p.typ.t.cb.trampolineName, closure.cName,
                               ParamCGoType(closure), register, p.goName, NoCleanup);
      if p.scope == ScopeAsync || p.scope == ScopeForever then Ok(code)
      else if p.scope == ScopeCall then Ok(code.(imports := ["unsafe"], cleanup := DeferDelete))
      else if p.scope == ScopeNotified then
        var destroy := links[p.destroy.value];
        if !destroy.typ.t.CallbackTy? then Err("destroy parameter is not a callback")
        else Ok(code.(cleanup := SetDestroy(destroy.cName, ParamCGoType(destroy), destroy.typ.t.cb.trampolineName)))
      else Err("unexpected typesystem.CallbackParamScope: \"" + p.scope + "\"")
  }

  /** The registration the generated code makes matches the lifetime the
    * scope gives the user data: a one-shot registration exactly for async
    * scope, a deferred delete exactly for call scope, a destroy notifier
    * exactly for notified scope, and nothing that ends a forever
    * registration. Conversion succeeds exactly for a known scope with the
    * parameters it needs. */
  lemma CallbackRegistrationMatchesScope(p: Param, links: seq<Param>)
    requires p.typ.t.CallbackTy? && LinksIn(p, links)
    ensures GoToCCallbackConvert(p, links).Ok? <==>
              && p.closure.Some? && ScopeLifetime(p.scope).Some?
              && (p.scope == ScopeNotified ==> p.destroy.Some? && links[p.destroy.value].typ.t.CallbackTy?)
    ensures GoToCCallbackConvert(p, links).Ok? ==>
              var code := GoToCCallbackConvert(p, links).value;
              var life := ScopeLifetime(p.scope).value;
              && code.coreImports == ["userdata"]
              && (code.register == "RegisterOnce" <==> life == UntilFirstCall)
              && (code.register != "RegisterOnce" ==> code.register == "Register")
              && (code.cleanup == DeferDelete <==> life == UntilCallReturns)
              && ("unsafe" in code.imports <==> life == UntilCallReturns)
              && (code.cleanup.SetDestroy? <==> life == UntilDestroyNotify)
              && (code.cleanup.SetDestroy? ==> code.cleanup.destroy == links[p.destroy.value].cName)
  {
  }
}
