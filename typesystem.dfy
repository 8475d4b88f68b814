/** The generator's type universe: the rendering of a type at a pointer
  * depth, the transfer-ownership conversion tables, foreign namespacing,
  * pointer bounds, and the declared objects (classes, interfaces, records,
  * callbacks, aliases) whose fields the resolve steps fill in. */
module TypeSystem {
  import opened Wrappers
  import opened Strings
  import opened CTypes
  import opened CustomAttrs
  import Gir
  import StrCases

  // ---------------------------------------------------------------------------
  // BaseType rendering

  /** The names shared by most types: GIR name, Go, cgo and C spellings and
    * the Go import the Go spelling needs. */
  datatype BaseType = BaseType(
    girName: string,
    goTyp: string,
    cGoTyp: string,
    cTyp: string,
    goImportAlias: string,
    goImport: string)

  /** Go identifiers that are never pointers and never namespaced. */
  const GoBuiltins: seq<string> := ["error", "any", "interface{}", "context.Context"]

  /** BaseType.CGoType: pointer stars go in front of the cgo name. */
  function BaseCGoType(b: BaseType, pointers: nat): (r: string)
    ensures |r| == pointers + |b.cGoTyp| && HasSuffix(r, b.cGoTyp)
    ensures CountCTypePointers(r) == pointers + CountCTypePointers(b.cGoTyp)
  {
    CountAppend(GetPointers(pointers), b.cGoTyp, '*');
    GetPointers(pointers) + b.cGoTyp
  }

  /** BaseType.CType: pointer stars follow the C name. */
  function BaseCType(b: BaseType, pointers: nat): (r: string)
    ensures |r| == |b.cTyp| + pointers && HasPrefix(r, b.cTyp)
    ensures CountCTypePointers(r) == CountCTypePointers(b.cTyp) + pointers
  {
    CountAppend(b.cTyp, GetPointers(pointers), '*');
    b.cTyp + GetPointers(pointers)
  }

  /** BaseType.GoType: a Go builtin is never a pointer; anything else gets
    * the stars in front. */
  function BaseGoType(b: BaseType, pointers: nat): (r: string)
    ensures b.goTyp in GoBuiltins ==> r == b.goTyp
    ensures b.goTyp !in GoBuiltins ==>
      HasSuffix(r, b.goTyp) && CountCTypePointers(r) == pointers + CountCTypePointers(b.goTyp)
      && |r| == pointers + |b.goTyp|
  {
    if b.goTyp in GoBuiltins then b.goTyp
    else
      CountAppend(GetPointers(pointers), b.goTyp, '*');
      GetPointers(pointers) + b.goTyp
  }

  // ---------------------------------------------------------------------------
  // Transfer ownership and the conversion-function tables

  const TransferNone := "none"
  const TransferFull := "full"
  const TransferBorrow := "borrow"
  const TransferContainer := "container"

  const ScopeCall := "call"
  const ScopeAsync := "async"
  const ScopeNotified := "notified"
  const ScopeForever := "forever"

  /** The Go functions that convert a value from and to its C form. */
  datatype BaseConversions = BaseConversions(
    fromGlibBorrowFunction: string,
    fromGlibFullFunction: string,
    fromGlibNoneFunction: string,
    toGlibNoneFunction: string,
    toGlibFullFunction: string)

  /** BaseConversions.GetTransferFromGlibFunction: none, full and borrow
    * pick their function; any other transfer has none. */
  function GetTransferFromGlibFunction(b: BaseConversions, transfer: string): (r: string)
    ensures transfer !in {TransferNone, TransferFull, TransferBorrow} ==> r == ""
    ensures r != "" ==> r in {b.fromGlibNoneFunction, b.fromGlibFullFunction, b.fromGlibBorrowFunction}
  {
    if transfer == TransferNone then b.fromGlibNoneFunction
    else if transfer == TransferFull then b.fromGlibFullFunction
    else if transfer == TransferBorrow then b.fromGlibBorrowFunction
    else ""
  }

  /** BaseConversions.GetTransferToGlibFunction: only none and full have a
    * function towards C. */
  function GetTransferToGlibFunction(b: BaseConversions, transfer: string): (r: string)
    ensures transfer !in {TransferNone, TransferFull} ==> r == ""
    ensures r != "" ==> r in {b.toGlibNoneFunction, b.toGlibFullFunction}
  {
    if transfer == TransferNone then b.toGlibNoneFunction
    else if transfer == TransferFull then b.toGlibFullFunction
    else ""
  }

  /** BaseConversions.CanTransferFromGlib: the matching function is set. */
  predicate CanTransferFromGlib(b: BaseConversions, transfer: string) {
    if transfer == TransferNone then b.fromGlibNoneFunction != ""
    else if transfer == TransferFull then b.fromGlibFullFunction != ""
    else if transfer == TransferBorrow then b.fromGlibBorrowFunction != ""
    else false
  }

  /** BaseConversions.CanTransferToGlib: the matching function is set. */
  predicate CanTransferToGlib(b: BaseConversions, transfer: string) {
    if transfer == TransferNone then b.toGlibNoneFunction != ""
    else if transfer == TransferFull then b.toGlibFullFunction != ""
    else false
  }

  /** A Get* function comes back empty exactly when the matching Can* says
    * the transfer is impossible; container transfer is never possible, and
    * borrow only from C. */
  lemma TransferTables(b: BaseConversions, transfer: string)
    ensures GetTransferFromGlibFunction(b, transfer) == "" <==> !CanTransferFromGlib(b, transfer)
    ensures GetTransferToGlibFunction(b, transfer) == "" <==> !CanTransferToGlib(b, transfer)
    ensures !CanTransferFromGlib(b, TransferContainer) && !CanTransferToGlib(b, TransferContainer)
    ensures !CanTransferToGlib(b, TransferBorrow)
  {
  }

  /** newDefaultBaseConversions: all five functions are named
    * Unsafe<name><direction><transfer>. */
  function NewDefaultBaseConversions(name: string): (r: BaseConversions)
    ensures forall t :: CanTransferFromGlib(r, t) <==> t in {TransferNone, TransferFull, TransferBorrow}
    ensures forall t :: CanTransferToGlib(r, t) <==> t in {TransferNone, TransferFull}
    ensures GetTransferFromGlibFunction(r, TransferBorrow) == "Unsafe" + name + "FromGlibBorrow"
    ensures GetTransferFromGlibFunction(r, TransferNone) == "Unsafe" + name + "FromGlibNone"
    ensures GetTransferFromGlibFunction(r, TransferFull) == "Unsafe" + name + "FromGlibFull"
    ensures GetTransferToGlibFunction(r, TransferNone) == "Unsafe" + name + "ToGlibNone"
    ensures GetTransferToGlibFunction(r, TransferFull) == "Unsafe" + name + "ToGlibFull"
  {
    BaseConversions(
      "Unsafe" + name + "FromGlibBorrow",
      "Unsafe" + name + "FromGlibFull",
      "Unsafe" + name + "FromGlibNone",
      "Unsafe" + name + "ToGlibNone",
      "Unsafe" + name + "ToGlibFull")
  }

  // ---------------------------------------------------------------------------
  // Foreign namespacing

  /** A namespace as a type reference sees it: its GIR name and Go package. */
  datatype NsRef = NsRef(name: string, goName: string)

  /** CouldBeForeign: a value with the namespace it was found in, None when
    * it is local (or a builtin). */
  datatype Foreign<T> = Foreign(ns: Option<NsRef>, t: T)

  /** Inserting a package name and a dot into a string adds exactly the
    * package name's stars. */
  lemma InsertCount(a: string, m: string, b: string)
    ensures CountCTypePointers(a + m + "." + b) == CountCTypePointers(a + b) + CountCTypePointers(m)
  {
    CountAppend(a, b, '*');
    CountAppend(a + m + ".", b, '*');
    CountAppend(a + m, ".", '*');
    CountAppend(a, m, '*');
  }

  /** The split point after the last '*' of an identifier. */
  function AfterLastStar(ident: string): (k: nat)
    ensures k <= |ident| && (k == 0 || ident[k - 1] == '*') && '*' !in ident[k..]
  {
    LastIndex(ident, '*') + 1
  }

  /** WithForeignNamespace: builtins and local identifiers are unchanged;
    * otherwise "<package>." is inserted right after the last '*'. */
  function WithForeignNamespace(ns: Option<NsRef>, ident: string): (r: string)
    ensures ident in GoBuiltins || ns.None? ==> r == ident
    ensures ident !in GoBuiltins && ns.Some? ==>
      exists k :: 0 <= k <= |ident| && (k == 0 || ident[k - 1] == '*') && '*' !in ident[k..]
        && r == ident[..k] + ns.value.goName + "." + ident[k..]
    ensures ident !in GoBuiltins && ns.Some? ==>
      CountCTypePointers(r) == CountCTypePointers(ident) + CountCTypePointers(ns.value.goName)
  {
    if ident in GoBuiltins || ns.None? then ident
    else
      var k := AfterLastStar(ident);
      assert ident[..k] + ident[k..] == ident;
      InsertCount(ident[..k], ns.value.goName, ident[k..]);
      ident[..k] + ns.value.goName + "." + ident[k..]
  }

  // ---------------------------------------------------------------------------
  // The type universe

  /** Every kind of Type the generator knows. Classes, interfaces, records,
    * callbacks and aliases are objects whose fields are filled in after
    * they are declared; the others are plain values. */
  datatype Ty =
    | Castable(base: BaseType)              // CastablePrimitive
    | Boolean(base: BaseType)               // BooleanPrimitive (gboolean)
    | Str(girName: string)                  // StringPrimitive (utf8, filename)
    | Void                                  // VoidType
    | EnumTy(base: BaseType)
    | BitfieldTy(base: BaseType)
    | UnionTy(base: BaseType)
    | ClassTy(cls: ClassObj)
    | IfaceTy(iface: InterfaceObj)
    | RecordTy(rec: RecordObj)
    | CallbackTy(cb: CallbackObj)
    | AliasTy(alias: AliasObj)
    | ContainerTy(cont: Container)
    | ContainerInstanceTy(cont: Container, innerTypes: seq<Foreign<Ty>>)
    | ArrayTy(arr: ArrayType)

  /** A generic container (GList, GSList, ...) declared by hand; its Go
    * type is a slice of its first inner type. */
  datatype Container = Container(
    girName: string,
    c: string,
    cgo: string,
    fromGlibFullFunction: string,
    fromGlibNoneFunction: string,
    numInnerTypes: nat)

  /** An array type; `length` is the index of the parameter that carries
    * its length, filled in while a callable's parameters are linked. */
  datatype ArrayType = ArrayType(
    girName: string,
    cTypeOverride: string,
    cGoTypeOverride: string,
    goTypeOverride: string,
    inner: Option<Foreign<Ty>>,
    innerPointers: nat,
    length: Option<nat>,
    zeroTerminated: bool,
    fixedSize: int)

  const VoidBase := BaseType("none", "// invalid type", "C.void", "void", "", "")

  /** The Go spelling of a base type for a C enum, bitfield, union,
    * primitive, record, callback or alias. */
  function BaseOf(t: Ty): Option<BaseType> {
    match t
    case Castable(b) => Some(b)
    case Boolean(b) => Some(b)
    case Void => Some(VoidBase)
    case EnumTy(b) => Some(b)
    case BitfieldTy(b) => Some(b)
    case UnionTy(b) => Some(b)
    case ClassTy(c) => Some(c.base)
    case IfaceTy(i) => Some(i.base)
    case RecordTy(r) => Some(r.base)
    case CallbackTy(cb) => Some(cb.base)
    case AliasTy(a) => Some(a.base)
    case _ => None
  }

  /** Type.GIRName. */
  function GIRName(t: Ty): string {
    match t
    case Str(g) => g
    case ContainerTy(c) => c.girName
    case ContainerInstanceTy(c, _) => c.girName
    case ArrayTy(a) =>
      if a.girName != "" then a.girName
      else if a.inner.None? then "array[unknown]"
      else "array[" + GIRName(a.inner.value.t) + "]"
    case _ => BaseOf(t).value.girName
  }

  /** Type.CType at the given pointer depth. */
  function CType(t: Ty, pointers: nat): (r: string)
    ensures t.Str? ==> r == "gchar*"
    ensures !t.Str? && !t.ArrayTy? ==> |r| >= pointers && r[|r| - pointers..] == GetPointers(pointers)
    ensures t.ArrayTy? && t.arr.cTypeOverride == "" ==> |r| > 0 && r[|r| - 1] == '*'
  {
    match t
    case Str(_) => "gchar*"
    case ContainerTy(c) => c.c + GetPointers(pointers)
    case ContainerInstanceTy(c, _) => c.c + GetPointers(pointers)
    case ArrayTy(a) =>
      if a.cTypeOverride != "" then a.cTypeOverride
      else if a.inner.None? then "*"
      else CType(a.inner.value.t, a.innerPointers) + "*"
    case _ => BaseCType(BaseOf(t).value, pointers)
  }

  /** Type.CGoType at the given pointer depth. */
  function CGoType(t: Ty, pointers: nat): (r: string)
    ensures t.Str? ==> r == "*C.gchar"
    ensures !t.Str? && !t.ArrayTy? ==> HasPrefix(r, GetPointers(pointers))
    ensures t.ArrayTy? && t.arr.cGoTypeOverride == "" ==> |r| > 0 && r[0] == '*'
  {
    match t
    case Str(_) => "*C.gchar"
    case ContainerTy(c) => GetPointers(pointers) + c.cgo
    case ContainerInstanceTy(c, _) => GetPointers(pointers) + c.cgo
    case ArrayTy(a) =>
      if a.cGoTypeOverride != "" then a.cGoTypeOverride
      else if a.inner.None? then "*"
      else "*" + CGoType(a.inner.value.t, a.innerPointers)
    case _ => BaseCGoType(BaseOf(t).value, pointers)
  }

  /** Type.GoType at the given pointer depth. A class or interface behind a
    * pointer is its Go interface; a bare container has no Go type (the
    * source panics) and renders empty. */
  function GoType(t: Ty, pointers: nat): (r: string)
    ensures t.Str? ==> r == "string"
    ensures t.ContainerTy? ==> r == ""
    ensures t.ContainerInstanceTy? ==> HasPrefix(r, "[]")
    ensures t.ArrayTy? && t.arr.goTypeOverride == "" ==> |r| > 0 && r[0] == '['
    ensures (t.ClassTy? || t.IfaceTy?) && pointers > 0 ==>
      r == (if t.ClassTy? then t.cls.goInterfaceName else t.iface.goInterfaceName)
  {
    match t
    case ClassTy(c) => if pointers == 0 then BaseGoType(c.base, 0) else c.goInterfaceName
    case IfaceTy(i) => if pointers == 0 then BaseGoType(i.base, 0) else i.goInterfaceName
    case Str(_) => "string"
    case ContainerTy(_) => ""
    case ContainerInstanceTy(_, inner) =>
      if inner == [] then "[]" else "[]" + NamespacedGoType(inner[0], 1)
    case ArrayTy(a) =>
      if a.goTypeOverride != "" then a.goTypeOverride
      else
        var inner := if a.inner.None? then "" else NamespacedGoType(a.inner.value, a.innerPointers);
        if a.fixedSize > 0 then "[" + FormatInt(a.fixedSize) + "]" + inner else "[]" + inner
    case _ => BaseGoType(BaseOf(t).value, pointers)
  }

  /** CouldBeForeign.NamespacedGoType: foreign types get their package,
    * except container instances, whose Go type already names its parts. */
  function NamespacedGoType(f: Foreign<Ty>, pointers: nat): (r: string)
    ensures f.ns.None? || f.t.ContainerInstanceTy? ==> r == GoType(f.t, pointers)
    ensures f.ns.Some? && !f.t.ContainerInstanceTy? ==> r == WithForeignNamespace(f.ns, GoType(f.t, pointers))
  {
    if f.ns.None? || f.t.ContainerInstanceTy? then GoType(f.t, pointers)
    else WithForeignNamespace(f.ns, GoType(f.t, pointers))
  }

  /** A type is the same at any pointer depth when its Go name is a builtin. */
  lemma BuiltinGoTypeIgnoresPointers(b: BaseType, m: nat, n: nat)
    requires b.goTyp in GoBuiltins
    ensures GoType(Castable(b), m) == GoType(Castable(b), n) == b.goTyp
    ensures NamespacedGoType(Foreign(Some(NsRef("ns", "ns")), Castable(b)), m) == b.goTyp
  {
  }

  /** Array GoType: "[N]T" for a fixed size N > 0, "[]T" otherwise, unless an
    * override is set. */
  lemma ArrayGoTypeShape(a: ArrayType)
    requires a.goTypeOverride == "" && a.inner.Some?
    ensures var inner := NamespacedGoType(a.inner.value, a.innerPointers);
      GoType(ArrayTy(a), 0) == (if a.fixedSize > 0 then "[" + FormatInt(a.fixedSize) + "]" else "[]") + inner
  {
  }

  // ---------------------------------------------------------------------------
  // Pointer bounds (parameter_check.go and each type's min/max)

  /** minPointersRequired, for the types that implement it. */
  function MinPointers(t: Ty): (r: Option<nat>)
    ensures t.ClassTy? || t.IfaceTy? || t.Str? || t.ContainerTy? || t.ContainerInstanceTy? ==> r == Some(1)
    ensures t.ArrayTy? ==> r == Some(t.arr.innerPointers + 1)
    ensures t.RecordTy? ==> r.Some? && r.value <= 1
    ensures (t.Castable? || t.Boolean? || t.Void? || t.EnumTy? || t.BitfieldTy? || t.UnionTy?
             || t.CallbackTy? || t.AliasTy?) ==> r.None?
  {
    match t
    case ClassTy(_) => Some(1)
    case IfaceTy(_) => Some(1)
    case Str(_) => Some(1)
    case ContainerTy(_) => Some(1)
    case ContainerInstanceTy(_, _) => Some(1)
    case ArrayTy(a) => Some(a.innerPointers + 1)
    case RecordTy(r) => Some(RecordMinPointers(r.gir))
    case _ => None
  }

  /** Record.minPointersRequired: a hand-declared record needs none; a
    * foreign or disguised (opaque) one needs one; any other none. */
  function RecordMinPointers(g: Option<Gir.Record>): (r: nat)
    ensures r == 1 <==> g.Some? && (g.value.foreign || g.value.disguised)
    ensures r <= 1
  {
    if g.None? then 0
    else if g.value.foreign || g.value.disguised then 1
    else 0
  }

  /** maxPointersAllowed, for the types that implement it. */
  function MaxPointers(t: Ty): (r: Option<nat>)
    ensures t.ClassTy? || t.IfaceTy? || t.Str? || t.RecordTy? || t.ContainerTy? || t.ContainerInstanceTy? ==> r == Some(1)
    ensures t.ArrayTy? ==> r == Some(t.arr.innerPointers + 1)
    ensures t.EnumTy? || t.BitfieldTy? || t.CallbackTy? ==> r == Some(0)
    ensures t.Castable? || t.Boolean? || t.Void? || t.UnionTy? || t.AliasTy? ==> r.None?
  {
    match t
    case ClassTy(_) => Some(1)
    case IfaceTy(_) => Some(1)
    case Str(_) => Some(1)
    case RecordTy(_) => Some(1)
    case ContainerTy(_) => Some(1)
    case ContainerInstanceTy(_, _) => Some(1)
    case ArrayTy(a) => Some(a.innerPointers + 1)
    case EnumTy(_) => Some(0)
    case BitfieldTy(_) => Some(0)
    case CallbackTy(_) => Some(0)
    case _ => None
  }

  /** TypeRequiresPointer: the type has a minimum and it is positive. */
  predicate TypeRequiresPointer(t: Ty) {
    MinPointers(t).Some? && MinPointers(t).value > 0
  }

  /** TypePointersAllowed: no bound the type has is violated. */
  predicate TypePointersAllowed(t: Ty, pointers: int) {
    !(MinPointers(t).Some? && MinPointers(t).value > pointers)
    && !(MaxPointers(t).Some? && MaxPointers(t).value < pointers)
  }

  /** TypePointersAllowed is the interval test min <= n <= max, an absent
    * bound being no constraint; a type with neither bound allows any n. */
  lemma PointersAllowedInterval(t: Ty, n: int)
    ensures TypePointersAllowed(t, n) <==>
      (MinPointers(t).None? || MinPointers(t).value <= n) && (MaxPointers(t).None? || n <= MaxPointers(t).value)
    ensures MinPointers(t).None? && MaxPointers(t).None? ==> TypePointersAllowed(t, n)
  {
  }

  /** Every type with both bounds has min <= max, so some pointer count is
    * allowed for it. */
  lemma BoundsConsistent(t: Ty)
    requires MinPointers(t).Some? && MaxPointers(t).Some?
    ensures MinPointers(t).value <= MaxPointers(t).value
    ensures TypePointersAllowed(t, MinPointers(t).value)
  {
  }

  /** Classes, interfaces, strings and containers take exactly one pointer. */
  lemma ExactlyOnePointer(t: Ty, n: int)
    requires t.ClassTy? || t.IfaceTy? || t.Str? || t.ContainerTy? || t.ContainerInstanceTy?
    ensures TypeRequiresPointer(t)
    ensures TypePointersAllowed(t, n) <==> n == 1
  {
  }

  /** A record that is foreign or disguised must be a pointer; any other
    * record may be a value or a single pointer. */
  lemma RecordPointers(r: RecordObj, n: int)
    ensures TypeRequiresPointer(RecordTy(r)) <==> r.gir.Some? && (r.gir.value.foreign || r.gir.value.disguised)
    ensures TypePointersAllowed(RecordTy(r), n) <==> RecordMinPointers(r.gir) <= n <= 1
  {
  }

  // ---------------------------------------------------------------------------
  // Capabilities

  /** The types that implement ConvertibleType: classes, interfaces and
    * records. */
  predicate IsConvertible(t: Ty) {
    t.ClassTy? || t.IfaceTy? || t.RecordTy?
  }

  /** The conversion functions of a convertible type. A record's can change
    * (markAsTypestructFor), so this reads it. */
  function Conversions(t: Ty): BaseConversions
    requires IsConvertible(t)
    reads if t.RecordTy? then {t.rec} else {}
  {
    match t
    case ClassTy(c) => c.conversions
    case IfaceTy(i) => i.conversions
    case RecordTy(r) => r.conversions
  }

  /** The types that implement CastableType: only the castable primitives. */
  predicate IsCastable(t: Ty) {
    t.Castable?
  }

  // ---------------------------------------------------------------------------
  // Parameters (parameters.go data)

  /** A parameter of a C call. Links to other parameters are indices into
    * the GIR parameter list of the same callable. */
  datatype Param = Param(
    cName: string,
    goName: string,
    typ: Foreign<Ty>,
    cTypePointers: nat,
    girCType: string,
    girCGoType: string,
    skip: bool,
    transfer: string,
    nullable: bool,
    direction: string,
    scope: string,
    callerAllocates: bool,
    implicit: bool,
    isUserData: bool,
    borrowsFromInstance: bool,
    closure: Option<nat>,
    destroy: Option<nat>,
    optional: bool)

  /** Where a Go return comes from: a GIR parameter (by index) or the C
    * return value. */
  datatype ParamRef = GirParam(index: nat) | CReturnParam

  /** Parameters of a callable: GoParameters and GoReturns refer to the same
    * parameters as the C lists do. */
  datatype Parameters = Parameters(
    cReturn: Option<Param>,
    girParameters: seq<Param>,
    instanceParam: Option<Param>,
    goReturns: seq<ParamRef>,
    goParameters: seq<nat>)

  /** Parameters.CParameters: the instance parameter (if any) first, then
    * the GIR parameters in order. */
  function CParameters(ps: Parameters): (r: seq<Param>)
    ensures ps.instanceParam.None? ==> r == ps.girParameters
    ensures ps.instanceParam.Some? ==>
      |r| == |ps.girParameters| + 1 && r[0] == ps.instanceParam.value && r[1..] == ps.girParameters
  {
    if ps.instanceParam.None? then ps.girParameters else [ps.instanceParam.value] + ps.girParameters
  }

  /** Parameters.CGoReturn: the C return unless it is absent or void. */
  function CGoReturn(ps: Parameters): (r: Option<Param>)
    ensures r.None? <==> ps.cReturn.None? || ps.cReturn.value.typ.t == Void
    ensures r.Some? ==> r == ps.cReturn
  {
    if ps.cReturn.None? || ps.cReturn.value.typ.t == Void then None else ps.cReturn
  }

  /** A declared function or method: its Go name and its parameters. */
  datatype CallableSignature = CallableSignature(cIdentifier: string, goIdentifier: string, params: Parameters)

  /** The three outcomes of a resolve step. */
  datatype Outcome = NotResolvable | MaybeResolvable | OkResolved

  /** What a type lookup by name returns: the foreign namespace (None when
    * local) and the type, if any. */
  datatype Found = Found(ns: Option<NsRef>, t: Option<Ty>)

  /** env.findTypeByGIRName as the resolve steps see it. */
  type Finder = string -> Found

  // ---------------------------------------------------------------------------
  // Declared objects

  /** A class extending GObject. */
  class ClassObj {
    const base: BaseType
    const goInterfaceName: string
    const conversions: BaseConversions
    const gir: Gir.Class

    var baseClass: Option<Foreign<ClassObj>>
    var gtype: Option<Foreign<Ty>>
    var typeStruct: Option<RecordObj>
    var final: bool
    var parent: Option<Foreign<ClassObj>>
    var implements: seq<Foreign<InterfaceObj>>
    var functions: seq<CallableSignature>
    var methods: seq<CallableSignature>
    var constructors: seq<CallableSignature>
    var virtualMethods: seq<CallableSignature>

    /** The classes up the parent chain. */
    ghost var ancestors: set<ClassObj>

    constructor (base: BaseType, goInterfaceName: string, conversions: BaseConversions, gir: Gir.Class)
      ensures this.base == base && this.goInterfaceName == goInterfaceName
      ensures this.conversions == conversions && this.gir == gir
      ensures baseClass.None? && gtype.None? && typeStruct.None? && !final
      ensures parent.None? && implements == [] && ancestors == {}
      ensures functions == [] && methods == [] && constructors == [] && virtualMethods == []
      ensures Valid()
    {
      this.base := base;
      this.goInterfaceName := goInterfaceName;
      this.conversions := conversions;
      this.gir := gir;
      baseClass := None;
      gtype := None;
      typeStruct := None;
      final := false;
      parent := None;
      implements := [];
      functions := [];
      methods := [];
      constructors := [];
      virtualMethods := [];
      ancestors := {};
    }

    /** The parent chain is finite and does not come back to this class. */
    ghost predicate Valid()
      reads this, ancestors
      decreases ancestors
    {
      this !in ancestors
      && match parent
         case None => ancestors == {}
         case Some(p) =>
           p.t in ancestors && p.t.ancestors == ancestors - {p.t}
           && p.t !in p.t.ancestors && p.t.Valid()
    }

    /** This class lists the interface among its own Implements. */
    predicate ListsInterface(inter: InterfaceObj)
      reads this
    {
      exists i :: 0 <= i < |implements| && implements[i].t == inter
    }

    /** redundantImplements: the interface is already implemented by this
      * class or by one of its ancestors. */
    predicate RedundantImplements(inter: InterfaceObj)
      requires Valid()
      reads this, ancestors
      decreases ancestors
    {
      ListsInterface(inter) || (parent.Some? && parent.value.t.RedundantImplements(inter))
    }

    /** redundantImplements holds exactly when this class or an ancestor
      * lists the interface. */
    lemma {:induction false} RedundantImplementsIff(inter: InterfaceObj)
      requires Valid()
      ensures RedundantImplements(inter) <==>
        exists c :: c in {this} + ancestors && c.ListsInterface(inter)
      decreases ancestors
    {
      if parent.Some? {
        var p := parent.value.t;
        p.RedundantImplementsIff(inter);
        assert {this} + ancestors == {this} + ({p} + p.ancestors);
      }
    }

    /** Class.resolve: looks up GObject.Object, GType, the type struct,
      * the parent and the implemented interfaces; false asks for a retry,
      * Err stands for the panics. Interfaces already implemented by this
      * class or an ancestor are skipped, so a retry does not add them
      * twice. */
    method Resolve(find: Finder) returns (r: Result<bool>)
      requires Valid()
      requires var f := find(gir.parent);
        f.t.Some? && f.t.value.ClassTy? ==>
          f.t.value.cls.Valid() && this !in {f.t.value.cls} + f.t.value.cls.ancestors
      modifies this, TypeStructTarget(gir, find)
      ensures Valid()
      ensures match ClassResolveHead(gir, find)
        case HeadPanic(m) => r == Err(m)
        case HeadRetry => r == Ok(false) && parent == old(parent) && implements == old(implements)
        case HeadParent(p) =>
          parent == Some(p)
          && var (ok, impls) := AddImplements(p.t, old(implements), gir.implements, find);
             r == Ok(ok) && implements == impls
      ensures r.Ok? ==>
        baseClass == Some(Foreign(find("GObject.Object").ns, find("GObject.Object").t.value.cls))
        && gtype == Some(Foreign(find("GType").ns, find("GType").t.value))
      ensures r.Ok? && TypeStructOf(gir, find).Some? ==>
        typeStruct == TypeStructOf(gir, find) && typeStruct.value.isTypeStructFor.Some?
      ensures r.Ok? && TypeStructOf(gir, find).None? ==> typeStruct == old(typeStruct)
      ensures ClassResolveHead(gir, find).HeadParent? ==>
        final == (gir.glibTypeStruct == "" || TypeStructOf(gir, find).value.gir.value.disguised)
    {
      // the type struct is a record, so ResolveHead leaves the parent chain
      // (and its validity) alone
      ghost var pp := find(gir.parent);
      if pp.t.Some? && pp.t.value.ClassTy? {
        assert pp.t.value.cls.Valid();
      }
      var h := ResolveHead(find);
      if pp.t.Some? && pp.t.value.ClassTy? {
        assert forall o :: o in {pp.t.value.cls} + pp.t.value.cls.ancestors ==> o !in TypeStructTarget(gir, find);
        assert pp.t.value.cls.Valid();
      }
      match h
      case HeadPanic(m) =>
        return Err(m);
      case HeadRetry =>
        return Ok(false);
      case HeadParent(pf) =>
        var p := pf.t;
        parent := Some(pf);
        ancestors := {p} + p.ancestors;
        var ok := ResolveImplements(p, find);
        return Ok(ok);
    }

    /** The start of Class.resolve: it sets the base class and the GType,
      * and gives back the panic message when GObject.Object or GType is
      * missing. */
    method ResolveBases(find: Finder) returns (panic: Option<string>)
      modifies this`baseClass, this`gtype
      ensures panic.Some? <==> !BasesFound(find)
      ensures panic.Some? ==> ClassResolveHead(gir, find) == HeadPanic(panic.value)
      ensures panic.None? ==>
        baseClass == Some(Foreign(find("GObject.Object").ns, find("GObject.Object").t.value.cls))
        && gtype == Some(Foreign(find("GType").ns, find("GType").t.value))
    {
      var obj := find("GObject.Object");
      if obj.t.None? {
        return Some("Gobject.Object not found");
      }
      if !obj.t.value.ClassTy? {
        return Some("gobject is not a class");
      }
      baseClass := Some(Foreign(obj.ns, obj.t.value.cls));
      var gt := find("GType");
      if gt.t.None? {
        return Some("GType not found");
      }
      gtype := Some(Foreign(gt.ns, gt.t.value));
      panic := None;
    }

    /** Class.resolve up to the parent lookup; it sets the base class,
      * GType, type struct and Final as it goes. */
    method ResolveHead(find: Finder) returns (h: ClassHead)
      requires Valid()
      modifies this`baseClass, this`gtype, this`typeStruct, this`final, TypeStructTarget(gir, find)
      ensures h == ClassResolveHead(gir, find)
      ensures Valid() && parent == old(parent) && ancestors == old(ancestors) && implements == old(implements)
      ensures !h.HeadPanic? ==>
        baseClass == Some(Foreign(find("GObject.Object").ns, find("GObject.Object").t.value.cls))
        && gtype == Some(Foreign(find("GType").ns, find("GType").t.value))
      ensures !h.HeadPanic? && TypeStructOf(gir, find).Some? ==>
        typeStruct == TypeStructOf(gir, find) && typeStruct.value.isTypeStructFor.Some?
      ensures !h.HeadPanic? && TypeStructOf(gir, find).None? ==> typeStruct == old(typeStruct)
      ensures h.HeadParent? ==>
        final == (gir.glibTypeStruct == "" || TypeStructOf(gir, find).value.gir.value.disguised)
    {
      var panic := ResolveBases(find);
      if panic.Some? {
        return HeadPanic(panic.value);
      }
      if gir.glibTypeStruct != "" {
        var ts := find(gir.glibTypeStruct);
        if ts.ns.Some? || ts.t.None? || !ts.t.value.RecordTy? {
          return HeadRetry;
        }
        var rec := ts.t.value.rec;
        typeStruct := Some(rec);
        rec.MarkAsTypestructFor(this);
        if rec.gir.None? {
          return HeadPanic("nil pointer dereference");
        }
        final := rec.gir.value.disguised;
      } else {
        final := true;
      }
      var pf := find(gir.parent);
      if pf.t.None? || !pf.t.value.ClassTy? {
        return HeadRetry;
      }
      return HeadParent(Foreign(pf.ns, pf.t.value.cls));
    }

    /** The implements loop of Class.resolve, run once the parent is set. */
    method ResolveImplements(p: ClassObj, find: Finder) returns (ok: bool)
      requires Valid() && parent.Some? && parent.value.t == p
      modifies this
      ensures Valid() && (ok, implements) == AddImplements(p, old(implements), gir.implements, find)
      ensures parent == old(parent) && ancestors == old(ancestors) && final == old(final)
      ensures baseClass == old(baseClass) && gtype == old(gtype) && typeStruct == old(typeStruct)
    {
      var names := gir.implements;
      var i := 0;
      while i < |names|
        invariant 0 <= i <= |names|
        invariant Valid() && parent == old(parent) && ancestors == old(ancestors) && final == old(final)
        invariant baseClass == old(baseClass) && gtype == old(gtype) && typeStruct == old(typeStruct)
        invariant AddImplements(p, implements, names[i..], find) == AddImplements(p, old(implements), names, find)
      {
        var f := find(names[i]);
        if f.t.Some? {
          if !f.t.value.IfaceTy? {
            return false;
          }
          if !RedundantImplements(f.t.value.iface) {
            implements := implements + [Foreign(f.ns, f.t.value.iface)];
          }
        }
        i := i + 1;
      }
      return true;
    }

    /** Class.declareNested, for the callables: functions and constructors
      * through DeclarePrefixedFunction, methods other than weak_ref,
      * weak_unref, ref and unref through DeclareMethod, and virtual methods
      * only when the class has a type struct. */
    method DeclareNested(declareFunction: Declarer, declareMethod: Declarer, declareVirtual: Declarer)
      modifies this`functions, this`methods, this`constructors, this`virtualMethods
      ensures functions == old(functions) + Declared(gir.functions, {}, declareFunction)
      ensures methods == old(methods) + Declared(gir.methods, ClassSkippedMethodNames, declareMethod)
      ensures constructors == old(constructors) + Declared(gir.constructors, {}, declareFunction)
      ensures typeStruct.None? ==> virtualMethods == old(virtualMethods)
      ensures typeStruct.Some? ==>
                virtualMethods == old(virtualMethods) + Declared(gir.virtualMethods, {}, declareVirtual)
    {
      var fs := DeclareEach(gir.functions, {}, declareFunction);
      functions := functions + fs;
      var ms := DeclareEach(gir.methods, ClassSkippedMethodNames, declareMethod);
      methods := methods + ms;
      var cs := DeclareEach(gir.constructors, {}, declareFunction);
      constructors := constructors + cs;
      if typeStruct.Some? {
        var vs := DeclareEach(gir.virtualMethods, {}, declareVirtual);
        virtualMethods := virtualMethods + vs;
      }
    }
  }

  // ---------------------------------------------------------------------------
  // Class.declareNested, as pure steps

  /** Method names Class.declareNested never declares: weak references are
    * kept out of the API, and reference counting is done on the GObject
    * base. */
  const ClassSkippedMethodNames: set<string> := {"weak_ref", "weak_unref", "ref", "unref"}

  /** The declaration one GIR callable contributes: none when its name is
    * skipped or `declare` rejects it. */
  function DeclaredOne(v: Gir.CallableAttrs, skipped: set<string>, declare: Declarer): seq<CallableSignature> {
    if v.name in skipped then []
    else match declare(v)
      case None => []
      case Some(t) => [t]
  }

  /** A declaring loop of declareNested: the declarations of the GIR
    * callables, in GIR order. */
  function Declared(vs: seq<Gir.CallableAttrs>, skipped: set<string>, declare: Declarer): seq<CallableSignature>
    decreases |vs|
  {
    if vs == [] then []
    else Declared(vs[..|vs| - 1], skipped, declare) + DeclaredOne(vs[|vs| - 1], skipped, declare)
  }

  /** The loop itself: it appends the declaration of each callable whose
    * name is not skipped and that `declare` accepts. */
  method DeclareEach(vs: seq<Gir.CallableAttrs>, skipped: set<string>, declare: Declarer)
    returns (ts: seq<CallableSignature>)
    ensures ts == Declared(vs, skipped, declare)
  {
    ts := [];
    var i := 0;
    while i < |vs|
      invariant 0 <= i <= |vs|
      invariant ts == Declared(vs[..i], skipped, declare)
    {
      assert vs[..i + 1][..i] == vs[..i];
      var v := vs[i];
      if v.name !in skipped {
        var t := declare(v);
        if t.Some? {
          ts := ts + [t.value];
        }
      }
      i := i + 1;
    }
    assert vs[..|vs|] == vs;
  }

  /** Declaring two lists one after the other declares their
    * concatenation, in order. */
  lemma {:induction false} DeclaredAppend(vs: seq<Gir.CallableAttrs>, ws: seq<Gir.CallableAttrs>,
                                          skipped: set<string>, declare: Declarer)
    ensures Declared(vs + ws, skipped, declare) == Declared(vs, skipped, declare) + Declared(ws, skipped, declare)
    decreases |ws|
  {
    if ws == [] {
      assert vs + ws == vs;
    } else {
      var init := ws[..|ws| - 1];
      assert (vs + ws)[..|vs + ws| - 1] == vs + init;
      assert (vs + ws)[|vs + ws| - 1] == ws[|ws| - 1];
      DeclaredAppend(vs, init, skipped, declare);
    }
  }

  /** A signature is declared exactly when a GIR callable whose name is not
    * skipped declares to it, and no callable gives more than one. */
  lemma {:induction false} DeclaredExactly(vs: seq<Gir.CallableAttrs>, skipped: set<string>, declare: Declarer)
    ensures |Declared(vs, skipped, declare)| <= |vs|
    ensures forall t :: t in Declared(vs, skipped, declare) <==>
              exists i :: 0 <= i < |vs| && vs[i].name !in skipped && declare(vs[i]) == Some(t)
    decreases |vs|
  {
    if vs != [] {
      var init := vs[..|vs| - 1];
      DeclaredExactly(init, skipped, declare);
      forall t
        ensures t in Declared(vs, skipped, declare) <==>
                exists i :: 0 <= i < |vs| && vs[i].name !in skipped && declare(vs[i]) == Some(t)
      {
        if t in Declared(init, skipped, declare) {
          var i :| 0 <= i < |init| && init[i].name !in skipped && declare(init[i]) == Some(t);
          assert vs[i] == init[i];
        }
        if exists i :: 0 <= i < |vs| && vs[i].name !in skipped && declare(vs[i]) == Some(t) {
          var i :| 0 <= i < |vs| && vs[i].name !in skipped && declare(vs[i]) == Some(t);
          if i < |vs| - 1 {
            assert init[i] == vs[i];
          }
        }
      }
    }
  }

  // ---------------------------------------------------------------------------
  // Class.resolve, as pure steps

  /** The local record a type-struct name refers to, if the lookup finds
    * one: a foreign, missing or non-record type struct gives None. */
  function LocalRecord(name: string, find: Finder): (r: Option<RecordObj>)
    ensures r.Some? <==> (name != "" && find(name).ns.None? && find(name).t.Some? && find(name).t.value.RecordTy?)
    ensures r.Some? ==> find(name).t == Some(RecordTy(r.value))
  {
    if name == "" then None
    else
      var f := find(name);
      if f.ns.None? && f.t.Some? && f.t.value.RecordTy? then Some(f.t.value.rec) else None
  }

  /** The record a class's type struct names. */
  function TypeStructOf(g: Gir.Class, find: Finder): Option<RecordObj> {
    LocalRecord(g.glibTypeStruct, find)
  }

  /** What Class.resolve may change besides the class: its type struct. */
  function TypeStructTarget(g: Gir.Class, find: Finder): set<object> {
    if TypeStructOf(g, find).Some? then {TypeStructOf(g, find).value} else {}
  }

  /** How Class.resolve ends before its implements loop. */
  datatype ClassHead = HeadPanic(msg: string) | HeadRetry | HeadParent(parent: Foreign<ClassObj>)

  /** GObject.Object is a class and GType exists. */
  predicate BasesFound(find: Finder) {
    find("GObject.Object").t.Some? && find("GObject.Object").t.value.ClassTy? && find("GType").t.Some?
  }

  /** Class.resolve up to the parent lookup. It panics without GObject.Object
    * (or when it is no class) or GType, and when the type struct is a
    * record without GIR data; it asks for a retry when the type struct is
    * foreign, missing or no record, or the parent is missing or no class. */
  function ClassResolveHead(g: Gir.Class, find: Finder): (r: ClassHead)
    ensures r.HeadPanic? <==> (!BasesFound(find)
                               || (TypeStructOf(g, find).Some? && TypeStructOf(g, find).value.gir.None?))
    ensures r.HeadParent? <==> (BasesFound(find)
                                && (g.glibTypeStruct == "" || (TypeStructOf(g, find).Some? && TypeStructOf(g, find).value.gir.Some?))
                                && find(g.parent).t.Some? && find(g.parent).t.value.ClassTy?)
    ensures r.HeadParent? ==> r.parent == Foreign(find(g.parent).ns, find(g.parent).t.value.cls)
  {
    var obj := find("GObject.Object");
    if obj.t.None? then HeadPanic("Gobject.Object not found")
    else if !obj.t.value.ClassTy? then HeadPanic("gobject is not a class")
    else if find("GType").t.None? then HeadPanic("GType not found")
    else if g.glibTypeStruct != "" && TypeStructOf(g, find).None? then HeadRetry
    else if g.glibTypeStruct != "" && TypeStructOf(g, find).value.gir.None? then HeadPanic("nil pointer dereference")
    else
      var p := find(g.parent);
      if p.t.None? || !p.t.value.ClassTy? then HeadRetry
      else HeadParent(Foreign(p.ns, p.t.value.cls))
  }

  /** Some entry of the list is the interface. */
  predicate ListedIn(impls: seq<Foreign<InterfaceObj>>, inter: InterfaceObj) {
    exists i :: 0 <= i < |impls| && impls[i].t == inter
  }

  /** The implements loop of Class.resolve once the parent `p` is set:
    * unfound names are skipped, a name that is no interface stops with
    * false, an interface the class (`impls`) or an ancestor already has is
    * skipped, any other is appended. */
  function AddImplements(p: ClassObj, impls: seq<Foreign<InterfaceObj>>, names: seq<string>, find: Finder)
    : (r: (bool, seq<Foreign<InterfaceObj>>))
    requires p.Valid()
    reads p, p.ancestors
    ensures |impls| <= |r.1| <= |impls| + |names| && r.1[..|impls|] == impls
    decreases |names|
  {
    if names == [] then (true, impls)
    else
      var f := find(names[0]);
      if f.t.None? then AddImplements(p, impls, names[1..], find)
      else if !f.t.value.IfaceTy? then (false, impls)
      else if ListedIn(impls, f.t.value.iface) || p.RedundantImplements(f.t.value.iface) then
        AddImplements(p, impls, names[1..], find)
      else AddImplements(p, impls + [Foreign(f.ns, f.t.value.iface)], names[1..], find)
  }

  /** The loop succeeds exactly when every name it finds is an interface;
    * the list it starts from is kept as a prefix. */
  lemma {:induction false} AddImplementsOutcome(p: ClassObj, impls: seq<Foreign<InterfaceObj>>, names: seq<string>, find: Finder)
    requires p.Valid()
    ensures var (ok, r) := AddImplements(p, impls, names, find);
      (ok <==> forall i :: 0 <= i < |names| ==> find(names[i]).t.None? || find(names[i]).t.value.IfaceTy?)
      && |impls| <= |r| && r[..|impls|] == impls
    decreases |names|
  {
    if names != [] {
      var f := find(names[0]);
      if f.t.None? || (f.t.value.IfaceTy? && (ListedIn(impls, f.t.value.iface) || p.RedundantImplements(f.t.value.iface))) {
        AddImplementsOutcome(p, impls, names[1..], find);
        assert forall i :: 1 <= i < |names| ==> names[i] == names[1..][i - 1];
      } else if f.t.value.IfaceTy? {
        var impls' := impls + [Foreign(f.ns, f.t.value.iface)];
        AddImplementsOutcome(p, impls', names[1..], find);
        assert forall i :: 1 <= i < |names| ==> names[i] == names[1..][i - 1];
        var r := AddImplements(p, impls', names[1..], find).1;
        assert r[..|impls|] == r[..|impls'|][..|impls|];
      }
    }
  }

  /** Every interface the loop adds is new: not already listed, not
    * implemented by an ancestor, and not added twice. */
  lemma {:induction false} AddImplementsFresh(p: ClassObj, impls: seq<Foreign<InterfaceObj>>, names: seq<string>, find: Finder)
    requires p.Valid()
    ensures var r := AddImplements(p, impls, names, find).1;
      |impls| <= |r|
      && (forall j :: |impls| <= j < |r| ==> !p.RedundantImplements(r[j].t) && !ListedIn(r[..j], r[j].t))
    decreases |names|
  {
    if names != [] {
      var f := find(names[0]);
      if f.t.None? || (f.t.value.IfaceTy? && (ListedIn(impls, f.t.value.iface) || p.RedundantImplements(f.t.value.iface))) {
        AddImplementsFresh(p, impls, names[1..], find);
      } else if f.t.value.IfaceTy? {
        var impls' := impls + [Foreign(f.ns, f.t.value.iface)];
        AddImplementsFresh(p, impls', names[1..], find);
        AddImplementsOutcome(p, impls', names[1..], find);
        var r := AddImplements(p, impls', names[1..], find).1;
        assert r[..|impls'|] == impls';
        assert r[..|impls|] == impls;
      }
    }
  }

  /** Nothing the loop finds is lost: when it succeeds, every interface a
    * name resolves to is in the result or implemented by an ancestor. */
  lemma {:induction false} AddImplementsComplete(p: ClassObj, impls: seq<Foreign<InterfaceObj>>, names: seq<string>, find: Finder)
    requires p.Valid()
    ensures var (ok, r) := AddImplements(p, impls, names, find);
      ok ==> forall i :: 0 <= i < |names| && find(names[i]).t.Some? ==>
        find(names[i]).t.value.IfaceTy?
        && (ListedIn(r, find(names[i]).t.value.iface) || p.RedundantImplements(find(names[i]).t.value.iface))
    decreases |names|
  {
    if names != [] {
      var f := find(names[0]);
      var (ok, r) := AddImplements(p, impls, names, find);
      if f.t.None? || (f.t.value.IfaceTy? && (ListedIn(impls, f.t.value.iface) || p.RedundantImplements(f.t.value.iface))) {
        AddImplementsComplete(p, impls, names[1..], find);
        AddImplementsOutcome(p, impls, names[1..], find);
        assert forall i :: 1 <= i < |names| ==> names[i] == names[1..][i - 1];
        if f.t.Some? && ListedIn(impls, f.t.value.iface) {
          var k :| 0 <= k < |impls| && impls[k].t == f.t.value.iface;
          assert r[k] == impls[k];
        }
      } else if f.t.value.IfaceTy? {
        var impls' := impls + [Foreign(f.ns, f.t.value.iface)];
        AddImplementsComplete(p, impls', names[1..], find);
        AddImplementsOutcome(p, impls', names[1..], find);
        assert forall i :: 1 <= i < |names| ==> names[i] == names[1..][i - 1];
        assert r[|impls|] == impls'[|impls|];
      }
    }
  }

  // ---------------------------------------------------------------------------
  // Interface.resolve, as pure steps

  /** The part of Interface.resolve before the prerequisites: the type
    * struct, if named, is a local record, and GObject.Object is a class. */
  predicate InterfaceHeadOk(g: Gir.Interface, find: Finder) {
    (g.glibTypeStruct == "" || LocalRecord(g.glibTypeStruct, find).Some?)
    && find("GObject.Object").t.Some? && find("GObject.Object").t.value.ClassTy?
  }

  /** The prerequisites loop: it stops with maybeResolvable at the first
    * name not found, with notResolvable at the first one that is neither a
    * class nor an interface, and yields the entries appended before it
    * stopped. */
  function PrereqWalk(names: seq<string>, find: Finder): (r: (Outcome, seq<Foreign<Ty>>))
    ensures |r.1| <= |names|
    ensures r.0 == OkResolved <==> |r.1| == |names|
    decreases |names|
  {
    if names == [] then (OkResolved, [])
    else
      var f := find(names[0]);
      if f.t.None? then (MaybeResolvable, [])
      else if !(f.t.value.ClassTy? || f.t.value.IfaceTy?) then (NotResolvable, [])
      else
        var rest := PrereqWalk(names[1..], find);
        (rest.0, [Foreign(f.ns, f.t.value)] + rest.1)
  }

  /** A name the prerequisites loop accepts: found, and a class or an
    * interface. */
  predicate AcceptedPrereq(name: string, find: Finder) {
    find(name).t.Some? && (find(name).t.value.ClassTy? || find(name).t.value.IfaceTy?)
  }

  /** The loop appends the lookups of the longest accepted prefix of the
    * names, in order; it succeeds iff that prefix is all of them, and
    * otherwise its outcome says why the next name failed. */
  lemma {:induction false} PrereqWalkSpec(names: seq<string>, find: Finder)
    ensures var (o, added) := PrereqWalk(names, find);
      |added| <= |names|
      && (forall i :: 0 <= i < |added| ==>
            AcceptedPrereq(names[i], find) && added[i] == Foreign(find(names[i]).ns, find(names[i]).t.value))
      && (o == OkResolved <==> |added| == |names|)
      && (o == MaybeResolvable <==> |added| < |names| && find(names[|added|]).t.None?)
      && (o == NotResolvable <==> |added| < |names| && find(names[|added|]).t.Some?)
    decreases |names|
  {
    if names != [] && AcceptedPrereq(names[0], find) {
      PrereqWalkSpec(names[1..], find);
    }
  }

  /** Interface.resolve's outcome. */
  function InterfaceResolveOutcome(g: Gir.Interface, find: Finder): Outcome {
    if !InterfaceHeadOk(g, find) then NotResolvable else PrereqWalk(g.prerequisites, find).0
  }

  /** Finder for the first pass of the retry scenario: only GObject.Object
    * is known yet. */
  function FirstPassFinder(o: ClassObj): Finder {
    (name: string) => if name == "GObject.Object" then Found(None, Some(ClassTy(o))) else Found(None, None)
  }

  /** Finder for the second pass: the interface J has been declared too. */
  function SecondPassFinder(o: ClassObj, j: InterfaceObj): Finder {
    (name: string) =>
      if name == "GObject.Object" then Found(None, Some(ClassTy(o)))
      else if name == "J" then Found(None, Some(IfaceTy(j)))
      else Found(None, None)
  }

  /** As written, Interface.resolve appends to the prerequisites of earlier
    * passes: an interface requiring GObject.Object and J, where J is only
    * found on the second pass, ends with GObject.Object listed twice. The
    * corrected resolve (which starts from an empty list) lists it once. */
  lemma PrereqRetryDuplicates(o: ClassObj, j: InterfaceObj)
    ensures var names := ["GObject.Object", "J"];
      var first := PrereqWalk(names, FirstPassFinder(o));
      var second := PrereqWalk(names, SecondPassFinder(o, j));
      first.0 == MaybeResolvable && second.0 == OkResolved
      && [] + first.1 + second.1 == [Foreign(None, ClassTy(o)), Foreign(None, ClassTy(o)), Foreign(None, IfaceTy(j))]
      && second.1 == [Foreign(None, ClassTy(o)), Foreign(None, IfaceTy(j))]
  {
    var names := ["GObject.Object", "J"];
    assert names[1..] == ["J"];
    assert names[1..][1..] == [];
  }

  /** A GObject interface. */
  class InterfaceObj {
    const base: BaseType
    const goInterfaceName: string
    const conversions: BaseConversions
    const gir: Gir.Interface

    var typeStruct: Option<RecordObj>
    var parent: Option<Foreign<ClassObj>>
    var prerequisites: seq<Foreign<Ty>>

    constructor (base: BaseType, goInterfaceName: string, conversions: BaseConversions, gir: Gir.Interface)
      ensures this.base == base && this.goInterfaceName == goInterfaceName
      ensures this.conversions == conversions && this.gir == gir
      ensures typeStruct.None? && parent.None? && prerequisites == []
    {
      this.base := base;
      this.goInterfaceName := goInterfaceName;
      this.conversions := conversions;
      this.gir := gir;
      typeStruct := None;
      parent := None;
      prerequisites := [];
    }

    /** Interface.resolve as written: the prerequisites found are appended
      * to the list left by an earlier (maybeResolvable) pass. */
    method ResolveAsWritten(find: Finder) returns (r: Outcome)
      modifies this
      ensures r == InterfaceResolveOutcome(gir, find)
      ensures LocalRecord(gir.glibTypeStruct, find).Some? ==> typeStruct == LocalRecord(gir.glibTypeStruct, find)
      ensures LocalRecord(gir.glibTypeStruct, find).None? ==> typeStruct == old(typeStruct)
      ensures InterfaceHeadOk(gir, find) ==>
        parent == Some(Foreign(find("GObject.Object").ns, find("GObject.Object").t.value.cls))
        && prerequisites == old(prerequisites) + PrereqWalk(gir.prerequisites, find).1
      ensures !InterfaceHeadOk(gir, find) ==> prerequisites == old(prerequisites)
    {
      var ok := ResolveParent(find);
      if !ok {
        return NotResolvable;
      }
      r := AppendPrerequisites(find);
    }

    /** Interface.resolve, corrected: each pass rebuilds the prerequisites,
      * so a retry after maybeResolvable does not list one twice. */
    method Resolve(find: Finder) returns (r: Outcome)
      modifies this
      ensures r == InterfaceResolveOutcome(gir, find)
      ensures LocalRecord(gir.glibTypeStruct, find).Some? ==> typeStruct == LocalRecord(gir.glibTypeStruct, find)
      ensures LocalRecord(gir.glibTypeStruct, find).None? ==> typeStruct == old(typeStruct)
      ensures InterfaceHeadOk(gir, find) ==>
        parent == Some(Foreign(find("GObject.Object").ns, find("GObject.Object").t.value.cls))
        && prerequisites == PrereqWalk(gir.prerequisites, find).1
      ensures !InterfaceHeadOk(gir, find) ==> prerequisites == old(prerequisites)
    {
      var ok := ResolveParent(find);
      if !ok {
        return NotResolvable;
      }
      prerequisites := [];
      r := AppendPrerequisites(find);
    }

    /** The type struct and GObject.Object steps of Interface.resolve. */
    method ResolveParent(find: Finder) returns (ok: bool)
      modifies this
      ensures ok == InterfaceHeadOk(gir, find)
      ensures LocalRecord(gir.glibTypeStruct, find).Some? ==> typeStruct == LocalRecord(gir.glibTypeStruct, find)
      ensures LocalRecord(gir.glibTypeStruct, find).None? ==> typeStruct == old(typeStruct)
      ensures ok ==> parent == Some(Foreign(find("GObject.Object").ns, find("GObject.Object").t.value.cls))
      ensures prerequisites == old(prerequisites)
    {
      if gir.glibTypeStruct != "" {
        var ts := find(gir.glibTypeStruct);
        if ts.ns.Some? || ts.t.None? || !ts.t.value.RecordTy? {
          return false;
        }
        typeStruct := Some(ts.t.value.rec);
      }
      var obj := find("GObject.Object");
      if obj.t.None? || !obj.t.value.ClassTy? {
        return false;
      }
      parent := Some(Foreign(obj.ns, obj.t.value.cls));
      return true;
    }

    /** The prerequisites loop of Interface.resolve. */
    method AppendPrerequisites(find: Finder) returns (r: Outcome)
      modifies this
      ensures (r, prerequisites) == (PrereqWalk(gir.prerequisites, find).0,
                                     old(prerequisites) + PrereqWalk(gir.prerequisites, find).1)
      ensures typeStruct == old(typeStruct) && parent == old(parent)
    {
      var names := gir.prerequisites;
      var i := 0;
      while i < |names|
        invariant 0 <= i <= |names|
        invariant typeStruct == old(typeStruct) && parent == old(parent)
        invariant PrereqWalk(names[i..], find).0 == PrereqWalk(names, find).0
        invariant prerequisites + PrereqWalk(names[i..], find).1 == old(prerequisites) + PrereqWalk(names, find).1
      {
        var f := find(names[i]);
        assert names[i..][0] == names[i];
        if f.t.None? {
          assert prerequisites + PrereqWalk(names[i..], find).1 == prerequisites;
          return MaybeResolvable;
        }
        if !(f.t.value.ClassTy? || f.t.value.IfaceTy?) {
          assert prerequisites + PrereqWalk(names[i..], find).1 == prerequisites;
          return NotResolvable;
        }
        assert names[i..][1..] == names[i + 1..];
        prerequisites := prerequisites + [Foreign(f.ns, f.t.value)];
        i := i + 1;
      }
      assert names[i..] == [];
      assert prerequisites + PrereqWalk(names[i..], find).1 == prerequisites;
      return OkResolved;
    }
  }

  /** The conversions a type struct keeps: borrowing from C and giving C a
    * value without ownership. */
  function TypeStructConversions(b: BaseConversions): (r: BaseConversions)
    ensures forall t :: CanTransferFromGlib(r, t) <==> t == TransferBorrow && CanTransferFromGlib(b, t)
    ensures forall t :: CanTransferToGlib(r, t) <==> t == TransferNone && CanTransferToGlib(b, t)
  {
    b.(fromGlibFullFunction := "", fromGlibNoneFunction := "", toGlibFullFunction := "")
  }

  // ---------------------------------------------------------------------------
  // Record.declareNested (methods), as pure steps

  /** DeclareMethod as declareNested sees it: the signature of a method, or
    * None when it is not declared. */
  type Declarer = Gir.CallableAttrs -> Option<CallableSignature>

  /** The record fields the methods loop of declareNested writes. */
  datatype RecordMethodState = RecordMethodState(
    goUnsafeRefFunction: string,
    cgoRefFunction: string,
    goUnsafeUnrefFunction: string,
    cgoUnrefFunction: string,
    cgoUnrefNeedsUnsafeCast: bool,
    methods: seq<CallableSignature>,
    goCopyMethod: Option<CallableSignature>)

  /** Method names that set a ref or unref function instead of becoming a
    * method, and those skipped outright. */
  const UnrefNames: set<string> := {"unref", "free", "destroy"}
  const SpecialMethodNames: set<string> := {"weak_ref", "weak_unref", "ref", "unref", "free", "destroy"}

  /** The parameter a Go return refers to. */
  function ReturnParam(ps: Parameters, ref: ParamRef): Option<Param> {
    match ref
    case CReturnParam => ps.cReturn
    case GirParam(i) => if i < |ps.girParameters| then Some(ps.girParameters[i]) else None
  }

  /** A method is the record's Copy: named Copy, no Go parameters, the
    * record as instance, and one Go return of the record with full
    * transfer. */
  predicate IsCopyMethod(t: CallableSignature, self: Ty) {
    t.goIdentifier == "Copy" && |t.params.goParameters| == 0
    && t.params.instanceParam.Some? && t.params.instanceParam.value.typ.t == self
    && |t.params.goReturns| == 1
    && var ret := ReturnParam(t.params, t.params.goReturns[0]);
       ret.Some? && ret.value.transfer == TransferFull && ret.value.typ.t == self
  }

  /** One step of the methods loop of Record.declareNested. */
  function NestedMethodStep(st: RecordMethodState, v: Gir.CallableAttrs, goType: string, self: Ty, declare: Declarer)
    : RecordMethodState
  {
    if v.name == "weak_ref" || v.name == "weak_unref" then st
    else if v.name == "ref" then
      st.(goUnsafeRefFunction := "Unsafe" + goType + "Ref", cgoRefFunction := "C." + v.cIdentifier)
    else if v.name == "unref" then
      st.(goUnsafeUnrefFunction := "Unsafe" + goType + "Unref", cgoUnrefFunction := "C." + v.cIdentifier,
          cgoUnrefNeedsUnsafeCast := false)
    else if v.name == "free" then
      st.(goUnsafeUnrefFunction := "Unsafe" + goType + "Free", cgoUnrefFunction := "C." + v.cIdentifier,
          cgoUnrefNeedsUnsafeCast := false)
    else if v.name == "destroy" then
      st.(goUnsafeUnrefFunction := "Unsafe" + goType + "Destroy", cgoUnrefFunction := "C." + v.cIdentifier,
          cgoUnrefNeedsUnsafeCast := false)
    else
      match declare(v)
      case None => st
      case Some(t) =>
        st.(methods := st.methods + [t], goCopyMethod := if IsCopyMethod(t, self) then Some(t) else st.goCopyMethod)
  }

  /** The methods loop of Record.declareNested over the GIR methods. */
  function NestedMethods(st: RecordMethodState, ms: seq<Gir.CallableAttrs>, goType: string, self: Ty, declare: Declarer)
    : (r: RecordMethodState)
    ensures |st.methods| <= |r.methods| <= |st.methods| + |ms| && r.methods[..|st.methods|] == st.methods
    decreases |ms|
  {
    if ms == [] then st
    else NestedMethods(NestedMethodStep(st, ms[0], goType, self, declare), ms[1..], goType, self, declare)
  }

  /** Splitting the method list splits the loop. */
  lemma {:induction false} NestedMethodsAppend(st: RecordMethodState, ms: seq<Gir.CallableAttrs>, v: Gir.CallableAttrs,
                                               goType: string, self: Ty, declare: Declarer)
    ensures NestedMethods(st, ms + [v], goType, self, declare)
         == NestedMethodStep(NestedMethods(st, ms, goType, self, declare), v, goType, self, declare)
    decreases |ms|
  {
    if ms == [] {
      assert [v][1..] == [];
    } else {
      assert (ms + [v])[1..] == ms[1..] + [v];
      NestedMethodsAppend(NestedMethodStep(st, ms[0], goType, self, declare), ms[1..], v, goType, self, declare);
    }
  }

  /** Every method the loop adds is the declaration of a GIR method with an
    * ordinary name (never weak_ref, weak_unref, ref, unref, free or
    * destroy), and a Copy it records is one of those and fits the copy
    * shape. */
  lemma {:induction false} NestedMethodsDeclared(st: RecordMethodState, ms: seq<Gir.CallableAttrs>, goType: string,
                                                 self: Ty, declare: Declarer)
    ensures var r := NestedMethods(st, ms, goType, self, declare);
      |st.methods| <= |r.methods| && r.methods[..|st.methods|] == st.methods
      && (forall k :: |st.methods| <= k < |r.methods| ==>
            exists i :: 0 <= i < |ms| && ms[i].name !in SpecialMethodNames && declare(ms[i]) == Some(r.methods[k]))
      && (r.goCopyMethod != st.goCopyMethod ==>
            r.goCopyMethod.Some? && IsCopyMethod(r.goCopyMethod.value, self)
            && exists k :: |st.methods| <= k < |r.methods| && r.methods[k] == r.goCopyMethod.value)
    decreases |ms|
  {
    if ms != [] {
      var st' := NestedMethodStep(st, ms[0], goType, self, declare);
      NestedMethodsDeclared(st', ms[1..], goType, self, declare);
      var r := NestedMethods(st', ms[1..], goType, self, declare);
      assert r.methods[..|st.methods|] == r.methods[..|st'.methods|][..|st.methods|];
      forall k | |st.methods| <= k < |r.methods|
        ensures exists i :: 0 <= i < |ms| && ms[i].name !in SpecialMethodNames && declare(ms[i]) == Some(r.methods[k])
      {
        if k < |st'.methods| {
          assert ms[0].name !in SpecialMethodNames && declare(ms[0]) == Some(r.methods[k]);
        } else {
          var ms' := ms[1..];
          assert exists i :: 0 <= i < |ms'| && ms'[i].name !in SpecialMethodNames && declare(ms'[i]) == Some(r.methods[k]);
          var i :| 0 <= i < |ms'| && ms'[i].name !in SpecialMethodNames && declare(ms'[i]) == Some(r.methods[k]);
          assert ms[i + 1] == ms[1..][i];
        }
      }
      if r.goCopyMethod != st.goCopyMethod && r.goCopyMethod == st'.goCopyMethod {
        assert r.methods[|st.methods|] == st'.methods[|st.methods|];
      }
    }
  }

  /** The unref function: unchanged when no method is named unref, free or
    * destroy; otherwise the cast is dropped and the C function is one of
    * those methods. */
  lemma {:induction false} NestedMethodsUnref(st: RecordMethodState, ms: seq<Gir.CallableAttrs>, goType: string,
                                              self: Ty, declare: Declarer)
    ensures var r := NestedMethods(st, ms, goType, self, declare);
      ((forall i :: 0 <= i < |ms| ==> ms[i].name !in UnrefNames) ==>
         r.goUnsafeUnrefFunction == st.goUnsafeUnrefFunction && r.cgoUnrefFunction == st.cgoUnrefFunction
         && r.cgoUnrefNeedsUnsafeCast == st.cgoUnrefNeedsUnsafeCast)
      && ((exists i :: 0 <= i < |ms| && ms[i].name in UnrefNames) ==>
         !r.cgoUnrefNeedsUnsafeCast
         && exists i :: 0 <= i < |ms| && ms[i].name in UnrefNames && r.cgoUnrefFunction == "C." + ms[i].cIdentifier)
    decreases |ms|
  {
    if ms != [] {
      var st' := NestedMethodStep(st, ms[0], goType, self, declare);
      NestedMethodStepUnref(st, ms[0], goType, self, declare);
      NestedMethodsUnref(st', ms[1..], goType, self, declare);
      var r := NestedMethods(st', ms[1..], goType, self, declare);
      if exists i :: 0 <= i < |ms[1..]| && ms[1..][i].name in UnrefNames {
        var i :| 0 <= i < |ms[1..]| && ms[1..][i].name in UnrefNames && r.cgoUnrefFunction == "C." + ms[1..][i].cIdentifier;
        assert ms[i + 1] == ms[1..][i];
      } else {
        assert r.cgoUnrefFunction == st'.cgoUnrefFunction;
        assert forall i :: 1 <= i < |ms| ==> ms[i] == ms[1..][i - 1];
      }
    }
  }

  /** One turn of the methods loop changes the unref function only for a
    * method named unref, free or destroy, and then to that method. */
  lemma NestedMethodStepUnref(st: RecordMethodState, v: Gir.CallableAttrs, goType: string, self: Ty, declare: Declarer)
    ensures var r := NestedMethodStep(st, v, goType, self, declare);
      (v.name !in UnrefNames ==>
         r.goUnsafeUnrefFunction == st.goUnsafeUnrefFunction && r.cgoUnrefFunction == st.cgoUnrefFunction
         && r.cgoUnrefNeedsUnsafeCast == st.cgoUnrefNeedsUnsafeCast)
      && (v.name in UnrefNames ==> !r.cgoUnrefNeedsUnsafeCast && r.cgoUnrefFunction == "C." + v.cIdentifier)
  {
  }

  /** A C struct. A hand-declared record has no GIR element. */
  class RecordObj {
    const base: BaseType
    const gir: Option<Gir.Record>
    const privateGoType: string

    var conversions: BaseConversions
    var isTypeStructFor: Option<ClassObj>
    var goUnsafeRefFunction: string
    var cgoRefFunction: string
    var goUnsafeUnrefFunction: string
    var cgoUnrefFunction: string
    var cgoUnrefNeedsUnsafeCast: bool
    var methods: seq<CallableSignature>
    var goCopyMethod: Option<CallableSignature>

    constructor (base: BaseType, gir: Option<Gir.Record>, privateGoType: string, conversions: BaseConversions,
                 goUnsafeUnrefFunction: string, cgoUnrefFunction: string, cgoUnrefNeedsUnsafeCast: bool)
      ensures this.base == base && this.gir == gir && this.privateGoType == privateGoType
      ensures this.conversions == conversions && isTypeStructFor.None?
      ensures goUnsafeRefFunction == "" && cgoRefFunction == ""
      ensures this.goUnsafeUnrefFunction == goUnsafeUnrefFunction && this.cgoUnrefFunction == cgoUnrefFunction
      ensures this.cgoUnrefNeedsUnsafeCast == cgoUnrefNeedsUnsafeCast
      ensures methods == [] && goCopyMethod.None?
    {
      this.base := base;
      this.gir := gir;
      this.privateGoType := privateGoType;
      this.conversions := conversions;
      isTypeStructFor := None;
      goUnsafeRefFunction := "";
      cgoRefFunction := "";
      this.goUnsafeUnrefFunction := goUnsafeUnrefFunction;
      this.cgoUnrefFunction := cgoUnrefFunction;
      this.cgoUnrefNeedsUnsafeCast := cgoUnrefNeedsUnsafeCast;
      methods := [];
      goCopyMethod := None;
    }

    /** markAsTypestructFor: the first class to claim the record owns it,
      * and the record loses the conversions that take or give up
      * ownership; a second claim changes nothing. */
    method MarkAsTypestructFor(c: ClassObj)
      modifies this
      ensures old(isTypeStructFor).Some? ==> isTypeStructFor == old(isTypeStructFor) && conversions == old(conversions)
      ensures old(isTypeStructFor).None? ==>
        isTypeStructFor == Some(c) && conversions == TypeStructConversions(old(conversions))
      ensures isTypeStructFor.Some?
      ensures goUnsafeRefFunction == old(goUnsafeRefFunction) && cgoRefFunction == old(cgoRefFunction)
      ensures goUnsafeUnrefFunction == old(goUnsafeUnrefFunction) && cgoUnrefFunction == old(cgoUnrefFunction)
      ensures cgoUnrefNeedsUnsafeCast == old(cgoUnrefNeedsUnsafeCast)
      ensures methods == old(methods) && goCopyMethod == old(goCopyMethod)
    {
      if isTypeStructFor.Some? {
        return;
      }
      conversions := TypeStructConversions(conversions);
      isTypeStructFor := Some(c);
    }

    /** The fields the methods loop of declareNested writes. */
    function MethodState(): RecordMethodState
      reads this
    {
      RecordMethodState(goUnsafeRefFunction, cgoRefFunction, goUnsafeUnrefFunction, cgoUnrefFunction,
                        cgoUnrefNeedsUnsafeCast, methods, goCopyMethod)
    }

    /** One turn of the methods loop of Record.declareNested. */
    method DeclareNestedMethod(v: Gir.CallableAttrs, goType: string, declare: Declarer)
      modifies this`goUnsafeRefFunction, this`cgoRefFunction, this`goUnsafeUnrefFunction, this`cgoUnrefFunction,
               this`cgoUnrefNeedsUnsafeCast, this`methods, this`goCopyMethod
      ensures MethodState() == NestedMethodStep(old(MethodState()), v, goType, RecordTy(this), declare)
    {
      if v.name == "weak_ref" || v.name == "weak_unref" {
      } else if v.name == "ref" {
        goUnsafeRefFunction := "Unsafe" + goType + "Ref";
        cgoRefFunction := "C." + v.cIdentifier;
      } else if v.name == "unref" {
        goUnsafeUnrefFunction := "Unsafe" + goType + "Unref";
        cgoUnrefFunction := "C." + v.cIdentifier;
        cgoUnrefNeedsUnsafeCast := false;
      } else if v.name == "free" {
        goUnsafeUnrefFunction := "Unsafe" + goType + "Free";
        cgoUnrefFunction := "C." + v.cIdentifier;
        cgoUnrefNeedsUnsafeCast := false;
      } else if v.name == "destroy" {
        goUnsafeUnrefFunction := "Unsafe" + goType + "Destroy";
        cgoUnrefFunction := "C." + v.cIdentifier;
        cgoUnrefNeedsUnsafeCast := false;
      } else {
        var t := declare(v);
        if t.Some? {
          methods := methods + [t.value];
          if IsCopyMethod(t.value, RecordTy(this)) {
            goCopyMethod := t;
          }
        }
      }
    }

    /** The methods loop of Record.declareNested. */
    method DeclareNestedMethods(declare: Declarer)
      requires gir.Some?
      modifies this
      ensures MethodState() == NestedMethods(old(MethodState()), gir.value.methods, BaseGoType(base, 0), RecordTy(this), declare)
      ensures conversions == old(conversions) && isTypeStructFor == old(isTypeStructFor)
    {
      var ms := gir.value.methods;
      var goType := BaseGoType(base, 0);
      var i := 0;
      while i < |ms|
        invariant 0 <= i <= |ms|
        invariant MethodState() == NestedMethods(old(MethodState()), ms[..i], goType, RecordTy(this), declare)
        invariant conversions == old(conversions) && isTypeStructFor == old(isTypeStructFor)
      {
        var v := ms[i];
        assert ms[..i + 1] == ms[..i] + [v];
        NestedMethodsAppend(old(MethodState()), ms[..i], v, goType, RecordTy(this), declare);
        DeclareNestedMethod(v, goType, declare);
        i := i + 1;
      }
      assert ms[..i] == ms;
    }

    /** ParentTypeStruct: the type struct of the parent of the class this
      * record is the type struct for, in the parent's namespace; None when
      * the record is no type struct, or the class has no parent, or the
      * parent has no type struct. */
    function ParentTypeStruct(): (r: Option<Foreign<RecordObj>>)
      reads this, (if isTypeStructFor.Some? then {isTypeStructFor.value} else {})
      reads if isTypeStructFor.Some? && isTypeStructFor.value.parent.Some? then {isTypeStructFor.value.parent.value.t} else {}
      ensures r.Some? <==> (isTypeStructFor.Some? && isTypeStructFor.value.parent.Some?
                            && isTypeStructFor.value.parent.value.t.typeStruct.Some?)
      ensures r.Some? ==>
        r.value.ns == isTypeStructFor.value.parent.value.ns
        && r.value.t == isTypeStructFor.value.parent.value.t.typeStruct.value
    {
      if isTypeStructFor.None? then None
      else
        var c := isTypeStructFor.value;
        if c.parent.None? then None
        else
          var ts := c.parent.value.t.typeStruct;
          if ts.None? then None else Some(Foreign(c.parent.value.ns, ts.value))
    }
  }

  /** A C function-pointer type. */
  class CallbackObj {
    const base: BaseType
    const trampolineName: string
    const gir: Option<Gir.Callback>

    var parameters: Option<Parameters>
    var userdataParam: Option<Param>

    constructor (base: BaseType, trampolineName: string, gir: Option<Gir.Callback>)
      ensures this.base == base && this.trampolineName == trampolineName && this.gir == gir
      ensures parameters.None? && userdataParam.None?
    {
      this.base := base;
      this.trampolineName := trampolineName;
      this.gir := gir;
      parameters := None;
      userdataParam := None;
    }

    /** Callback.resolveParameters, given what building the callback's
      * parameters gave: not/maybe pass through; a success without
      * parameters panics; the first user-data parameter in C order becomes
      * UserdataParam, and without one the callback is not resolvable. */
    method ResolveParameters(built: (Outcome, Option<Parameters>)) returns (r: Result<Outcome>)
      modifies this
      ensures built.0 != OkResolved ==> r == Ok(built.0) && parameters == old(parameters) && userdataParam == old(userdataParam)
      ensures built.0 == OkResolved && built.1.None? ==> r.Err?
      ensures built.0 == OkResolved && built.1.Some? ==>
        var cps := CParameters(built.1.value);
        match Gir.IndexWhere(cps, IsUserDataParam)
        case None => r == Ok(NotResolvable) && parameters == old(parameters) && userdataParam == old(userdataParam)
        case Some(i) => r == Ok(OkResolved) && parameters == built.1 && userdataParam == Some(cps[i])
    {
      if built.0 == NotResolvable {
        return Ok(NotResolvable);
      }
      if built.0 == MaybeResolvable {
        return Ok(MaybeResolvable);
      }
      if built.1.None? {
        return Err("nil params received even though valid");
      }
      var cps := CParameters(built.1.value);
      var i := 0;
      while i < |cps|
        invariant 0 <= i <= |cps|
        invariant forall j :: 0 <= j < i ==> !cps[j].isUserData
      {
        if cps[i].isUserData {
          userdataParam := Some(cps[i]);
          parameters := built.1;
          return Ok(OkResolved);
        }
        i := i + 1;
      }
      return Ok(NotResolvable);
    }
  }

  /** A C typedef of another type. */
  class AliasObj {
    const base: BaseType
    const gir: Gir.Alias

    var aliasedType: Option<Foreign<Ty>>

    constructor (base: BaseType, gir: Gir.Alias)
      ensures this.base == base && this.gir == gir && aliasedType.None?
    {
      this.base := base;
      this.gir := gir;
      aliasedType := None;
    }

    /** Alias.resolve, given the lookup of the aliased type. */
    method Resolve(found: Found) returns (r: Outcome)
      modifies this
      ensures r == AliasOutcome(found)
      ensures r == OkResolved ==> aliasedType == Some(Foreign(found.ns, found.t.value))
      ensures r != OkResolved ==> aliasedType == old(aliasedType)
    {
      if found.t.None? {
        return MaybeResolvable;
      }
      if found.t.value == Void {
        return NotResolvable;
      }
      if TypeRequiresPointer(found.t.value) {
        return NotResolvable;
      }
      aliasedType := Some(Foreign(found.ns, found.t.value));
      return OkResolved;
    }
  }

  // ---------------------------------------------------------------------------
  // Callback, container and alias rules

  /** A parameter that carries the closure's user data. */
  predicate IsUserDataParam(p: Param) {
    p.isUserData
  }

  /** Callback.allowedTypeForParam: a callback is passed by value, with a
    * closure, and with a destroy notify when its scope is notified. */
  predicate CallbackAllowsParam(p: Param) {
    p.cTypePointers == 0 && p.closure.Some? && (p.scope != ScopeNotified || p.destroy.Some?)
  }

  /** Container.allowedTypeForParam: containers only as return values. */
  predicate ContainerAllowsParam(p: Param) {
    p.direction == "return"
  }

  /** The types that implement checkedParameterType: callbacks and
    * containers (and, through the embedded container, container instances)
    * decide for themselves whether a parameter is allowed. */
  predicate IsCheckedParameterType(t: Ty) {
    t.CallbackTy? || t.ContainerTy? || t.ContainerInstanceTy?
  }

  /** checkedParameterType.allowedTypeForParam. */
  predicate AllowedTypeForParam(t: Ty, p: Param)
    requires IsCheckedParameterType(t)
  {
    if t.CallbackTy? then CallbackAllowsParam(p) else ContainerAllowsParam(p)
  }

  /** A callback parameter needs no pointer, a closure, and a destroy notify
    * exactly when its scope is notified; such a parameter also satisfies the
    * callback's pointer bounds. */
  lemma CallbackParamRule(cb: CallbackObj, p: Param)
    ensures AllowedTypeForParam(CallbackTy(cb), p) <==>
      p.cTypePointers == 0 && p.closure.Some? && (p.scope == ScopeNotified ==> p.destroy.Some?)
    ensures AllowedTypeForParam(CallbackTy(cb), p) ==> TypePointersAllowed(CallbackTy(cb), p.cTypePointers)
  {
  }

  /** A container, or an instance of one, is only ever allowed as a return
    * value, whatever its pointers. */
  lemma ContainerParamRule(t: Ty, p: Param)
    requires t.ContainerTy? || t.ContainerInstanceTy?
    ensures AllowedTypeForParam(t, p) <==> p.direction == "return"
  {
  }

  /** Alias.resolve's outcome: an unfound target may appear later; void or a
    * target that needs a pointer can never be aliased. */
  function AliasOutcome(found: Found): (r: Outcome)
    ensures r == MaybeResolvable <==> found.t.None?
    ensures r == OkResolved <==> (found.t.Some? && found.t.value != Void && !TypeRequiresPointer(found.t.value))
  {
    if found.t.None? then MaybeResolvable
    else if found.t.value == Void || TypeRequiresPointer(found.t.value) then NotResolvable
    else OkResolved
  }

  /** An alias only ever aliases a type that may be used without a pointer. */
  lemma AliasTargetTakesNoPointer(found: Found)
    requires AliasOutcome(found) == OkResolved
    ensures TypePointersAllowed(found.t.value, 0)
  {
  }

  // ---------------------------------------------------------------------------
  // Declarations: a GIR element becomes a type unless it is skipped

  /** The C type of a class or interface: its c:type, or its name when that
    * is empty. */
  function CTypeOrName(ctype: string, name: string): (r: string)
    ensures r != "" <==> ctype != "" || name != ""
    ensures ctype != "" ==> r == ctype
  {
    if ctype == "" then name else ctype
  }

  /** The base type of a class or interface. */
  function ObjectBase(name: string, ctype: string): (r: BaseType)
    ensures r.girName == name && r.goTyp == name + "Instance"
    ensures r.cTyp == CTypeOrName(ctype, name) && r.cGoTyp == "C." + r.cTyp
  {
    BaseType(name, name + "Instance", "C." + CTypeOrName(ctype, name), CTypeOrName(ctype, name), "", "")
  }

  /** DeclareClass: classes that are not introspectable, skipped by the
    * configuration, or fundamental (no parent) are not declared. */
  method DeclareClass(v: Gir.Class, skip: bool) returns (c: Option<ClassObj>)
    ensures c.None? <==> !Gir.IsIntrospectable(v.info) || skip || v.parent == ""
    ensures c.Some? ==>
      fresh(c.value) && c.value.Valid()
      && c.value.base == ObjectBase(v.name, v.ctype) && c.value.goInterfaceName == v.name
      && c.value.conversions == NewDefaultBaseConversions(v.name) && c.value.gir == v
      && c.value.parent.None? && c.value.implements == [] && !c.value.final
  {
    if !Gir.IsIntrospectable(v.info) || skip || v.parent == "" {
      return None;
    }
    var obj := new ClassObj(ObjectBase(v.name, v.ctype), v.name, NewDefaultBaseConversions(v.name), v);
    return Some(obj);
  }

  /** DeclareInterface: interfaces that are not introspectable or are
    * skipped are not declared. */
  method DeclareInterface(v: Gir.Interface, skip: bool) returns (i: Option<InterfaceObj>)
    ensures i.None? <==> !Gir.IsIntrospectable(v.info) || skip
    ensures i.Some? ==>
      fresh(i.value)
      && i.value.base == ObjectBase(v.name, v.ctype) && i.value.goInterfaceName == v.name
      && i.value.conversions == NewDefaultBaseConversions(v.name) && i.value.gir == v
      && i.value.prerequisites == []
  {
    if !Gir.IsIntrospectable(v.info) || skip {
      return None;
    }
    var obj := new InterfaceObj(ObjectBase(v.name, v.ctype), v.name, NewDefaultBaseConversions(v.name), v);
    return Some(obj);
  }

  /** DeclareRecord: records that are not introspectable, skipped, or named
    * *Private are not declared; `goTyp` is the Go name the namespace gives
    * the record's C type. Until a free or unref method is found the record
    * is freed with C.free. */
  method DeclareRecord(v: Gir.Record, skip: bool, goTyp: string) returns (r: Option<RecordObj>)
    ensures r.None? <==> !Gir.IsIntrospectable(v.info) || skip || HasSuffix(v.name, "Private")
    ensures r.Some? ==>
      fresh(r.value) && r.value.gir == Some(v)
      && r.value.base == BaseType(v.name, goTyp, "C." + v.ctype, v.ctype, "", "")
      && r.value.privateGoType == StrCases.Unexport(goTyp)
      && r.value.conversions == NewDefaultBaseConversions(v.name)
      && r.value.goUnsafeUnrefFunction == "Unsafe" + goTyp + "Free"
      && r.value.cgoUnrefFunction == "C.free" && r.value.cgoUnrefNeedsUnsafeCast
      && r.value.isTypeStructFor.None?
  {
    if !Gir.IsIntrospectable(v.info) || skip || HasSuffix(v.name, "Private") {
      return None;
    }
    var obj := new RecordObj(BaseType(v.name, goTyp, "C." + v.ctype, v.ctype, "", ""), Some(v),
                             StrCases.Unexport(goTyp), NewDefaultBaseConversions(v.name),
                             "Unsafe" + goTyp + "Free", "C.free", true);
    return Some(obj);
  }

  /** DeclareCallback: `goTyp` is the Go name of the C type and the
    * trampoline is named <prefix>_<name>; parameters are resolved later. */
  method DeclareCallback(v: Gir.Callback, skip: bool, goTyp: string, trampolinePrefix: string)
    returns (cb: Option<CallbackObj>)
    ensures cb.None? <==> !Gir.IsIntrospectable(v.attrs.info) || skip
    ensures cb.Some? ==>
      fresh(cb.value)
      && cb.value.base == BaseType(v.attrs.name, goTyp, "C." + v.ctype, v.ctype, "", "")
      && cb.value.trampolineName == trampolinePrefix + "_" + v.attrs.name
      && cb.value.gir == Some(v) && cb.value.parameters.None?
  {
    if !Gir.IsIntrospectable(v.attrs.info) || skip {
      return None;
    }
    var obj := new CallbackObj(BaseType(v.attrs.name, goTyp, "C." + v.ctype, v.ctype, "", ""),
                               trampolinePrefix + "_" + v.attrs.name, Some(v));
    return Some(obj);
  }

  /** DeclareAlias: the Go name is the GIR name; the target is resolved
    * later. */
  method DeclareAlias(v: Gir.Alias, skip: bool) returns (a: Option<AliasObj>)
    ensures a.None? <==> !Gir.IsIntrospectable(v.info) || skip
    ensures a.Some? ==>
      fresh(a.value)
      && a.value.base == BaseType(v.name, v.name, "C." + v.ctype, v.ctype, "", "")
      && a.value.gir == v && a.value.aliasedType.None?
  {
    if !Gir.IsIntrospectable(v.info) || skip {
      return None;
    }
    var obj := new AliasObj(BaseType(v.name, v.name, "C." + v.ctype, v.ctype, "", ""), v);
    return Some(obj);
  }
}
