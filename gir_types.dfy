/** The parsed GIR document: the parts of the XML element types that the
  * generator reads, the default-valued attribute accessors, and the
  * `Find` lookups that make classes, interfaces, records, enumerations,
  * bitfields and namespaces searchable by name. */
module Gir {
  import opened Wrappers
  import opened CustomAttrs

  // ---------------------------------------------------------------------------
  // A first-match search used by every Find below

  /** Index of the first element satisfying p, if any. */
  function IndexWhere<T>(xs: seq<T>, p: T -> bool): (r: Option<nat>)
    ensures r.Some? ==> r.value < |xs| && p(xs[r.value])
    ensures r.Some? ==> forall j :: 0 <= j < r.value ==> !p(xs[j])
    ensures r.None? ==> forall j :: 0 <= j < |xs| ==> !p(xs[j])
  {
    if xs == [] then None
    else if p(xs[0]) then Some(0)
    else match IndexWhere(xs[1..], p)
      case None => None
      case Some(i) => Some(i + 1)
  }

  // ---------------------------------------------------------------------------
  // Types and attributes

  /** A `<type>` element; `types` are the inner types of a container. */
  datatype Type = Type(name: string, ctype: string, introspectable: Option<bool>, types: seq<Type>)

  /** An `<array>` element; `typ` is the element type. */
  datatype Array = Array(
    name: string,
    ctype: string,
    length: Option<int>,
    zeroTerminated: Option<bool>,
    fixedSize: int,
    typ: Option<Type>)

  /** Either a `<type>` or an `<array>` child (or neither, for varargs). */
  datatype AnyType = AnyType(typ: Option<Type>, arr: Option<Array>)

  datatype InfoAttrs = InfoAttrs(
    introspectable: Option<bool>,
    deprecated: bool,
    deprecatedVersion: Version,
    version: Version)

  /** Array.IsZeroTerminated: unnamed arrays are zero-terminated unless the
    * attribute says otherwise. */
  predicate IsZeroTerminated(a: Array) {
    a.name == "" && (a.zeroTerminated.None? || a.zeroTerminated.value)
  }

  /** An optional boolean attribute whose default is true
    * (Field.IsReadable, InfoAttrs.IsIntrospectable, Type.IsIntrospectable). */
  predicate DefaultTrue(attr: Option<bool>) {
    attr.None? || attr.value
  }

  predicate IsIntrospectable(info: InfoAttrs) {
    DefaultTrue(info.introspectable)
  }

  predicate TypeIsIntrospectable(t: Type) {
    DefaultTrue(t.introspectable)
  }

  lemma DefaultTrueSemantics(attr: Option<bool>)
    ensures DefaultTrue(attr) <==> attr != Some(false)
  {
  }

  lemma ZeroTerminatedSemantics(a: Array)
    ensures IsZeroTerminated(a) <==> a.name == "" && a.zeroTerminated != Some(false)
  {
  }

  datatype Field = Field(name: string, readable: Option<bool>, anyType: AnyType)

  predicate IsReadable(f: Field) {
    DefaultTrue(f.readable)
  }

  // ---------------------------------------------------------------------------
  // Callables

  datatype ParameterAttrs = ParameterAttrs(
    name: string,
    direction: string,
    scope: string,
    closure: Option<int>,
    destroy: Option<int>,
    callerAllocates: bool,
    skip: bool,
    optional: bool,
    nullable: bool,
    transferOwnership: string,
    anyType: AnyType)

  datatype ReturnValue = ReturnValue(
    scope: string,
    nullable: bool,
    skip: bool,
    transferOwnership: string,
    anyType: AnyType)

  datatype Parameters = Parameters(instanceParameter: Option<ParameterAttrs>, parameters: seq<ParameterAttrs>)

  datatype CallableAttrs = CallableAttrs(
    name: string,
    cIdentifier: string,
    shadowedBy: string,
    movedTo: string,
    throws: bool,
    parameters: Option<Parameters>,
    returnValue: Option<ReturnValue>,
    info: InfoAttrs)

  datatype Signal = Signal(name: string)

  // ---------------------------------------------------------------------------
  // Enumeration members: names are xml attributes with a namespace

  datatype XmlName = XmlName(space: string, local: string)

  datatype Member = Member(names: seq<(XmlName, string)>, value: string, cIdentifier: string)

  const GLibNamespaceUri := "http://www.gtk.org/introspection/glib/1.0"

  /** Member.nameAttr: the value of the first attribute with that name, else "". */
  function NameAttr(m: Member, name: XmlName): (r: string)
    ensures (exists i :: 0 <= i < |m.names| && m.names[i].0 == name) ==>
      exists i :: 0 <= i < |m.names| && m.names[i].0 == name && r == m.names[i].1
        && forall j :: 0 <= j < i ==> m.names[j].0 != name
    ensures (forall i :: 0 <= i < |m.names| ==> m.names[i].0 != name) ==> r == ""
  {
    match IndexWhere(m.names, (a: (XmlName, string)) => a.0 == name)
    case None => ""
    case Some(i) => m.names[i].1
  }

  function MemberName(m: Member): string {
    NameAttr(m, XmlName("", "name"))
  }

  function MemberGLibName(m: Member): string {
    NameAttr(m, XmlName(GLibNamespaceUri, "name"))
  }

  // ---------------------------------------------------------------------------
  // Searchable elements

  datatype Alias = Alias(name: string, ctype: string, info: InfoAttrs, typ: Type)
  datatype Constant = Constant(name: string)
  datatype Union = Union(name: string)
  datatype Callback = Callback(ctype: string, attrs: CallableAttrs)

  datatype Class = Class(
    name: string,
    parent: string,
    ctype: string,
    glibTypeStruct: string,
    implements: seq<string>,
    methods: seq<CallableAttrs>,
    virtualMethods: seq<CallableAttrs>,
    functions: seq<CallableAttrs>,
    signals: seq<Signal>,
    fields: seq<Field>,
    constructors: seq<CallableAttrs>,
    info: InfoAttrs)

  datatype Interface = Interface(
    name: string,
    ctype: string,
    glibTypeStruct: string,
    prerequisites: seq<string>,
    methods: seq<CallableAttrs>,
    virtualMethods: seq<CallableAttrs>,
    functions: seq<CallableAttrs>,
    signals: seq<Signal>,
    info: InfoAttrs)

  datatype Record = Record(
    name: string,
    ctype: string,
    disguised: bool,
    foreign: bool,
    fields: seq<Field>,
    functions: seq<CallableAttrs>,
    methods: seq<CallableAttrs>,
    constructors: seq<CallableAttrs>,
    unions: seq<Union>,
    info: InfoAttrs)

  /** An enumeration or a bitfield (both have the same shape and Find). */
  datatype Enum = Enum(name: string, members: seq<Member>, functions: seq<CallableAttrs>)

  datatype Namespace = Namespace(
    name: string,
    version: Version,
    cIdentifierPrefixes: seq<string>,
    cSymbolPrefixes: seq<string>,
    aliases: seq<Alias>,
    constants: seq<Constant>,
    classes: seq<Class>,
    interfaces: seq<Interface>,
    records: seq<Record>,
    enums: seq<Enum>,
    functions: seq<CallableAttrs>,
    unions: seq<Union>,
    bitfields: seq<Enum>,
    callbacks: seq<Callback>)

  /** Whatever a Find can return. */
  datatype Node =
    | NamespaceNode(ns: Namespace)
    | AliasNode(alias: Alias)
    | ConstantNode(constant: Constant)
    | ClassNode(cls: Class)
    | InterfaceNode(iface: Interface)
    | RecordNode(rec: Record)
    | EnumNode(enum: Enum)
    | BitfieldNode(bitfield: Enum)
    | UnionNode(union: Union)
    | CallbackNode(callback: Callback)
    | FunctionNode(fn: CallableAttrs)
    | MethodNode(meth: CallableAttrs)
    | VirtualMethodNode(virtualMethod: CallableAttrs)
    | ConstructorNode(ctor: CallableAttrs)
    | SignalNode(signal: Signal)
    | FieldNode(field: Field)
    | MemberNode(member: Member)

  /** The nodes whose Go type implements Searchable. */
  predicate IsSearchable(n: Node) {
    n.NamespaceNode? || n.ClassNode? || n.InterfaceNode? || n.RecordNode? || n.EnumNode? || n.BitfieldNode?
  }

  /** The name a node carries; for a member, its `name` attribute. */
  function NodeName(n: Node): string {
    match n
    case NamespaceNode(ns) => ns.name
    case AliasNode(a) => a.name
    case ConstantNode(c) => c.name
    case ClassNode(c) => c.name
    case InterfaceNode(i) => i.name
    case RecordNode(r) => r.name
    case EnumNode(e) => e.name
    case BitfieldNode(b) => b.name
    case UnionNode(u) => u.name
    case CallbackNode(c) => c.attrs.name
    case FunctionNode(f) => f.name
    case MethodNode(m) => m.name
    case VirtualMethodNode(v) => v.name
    case ConstructorNode(c) => c.name
    case SignalNode(sig) => sig.name
    case FieldNode(f) => f.name
    case MemberNode(m) => MemberName(m)
  }

  /** The first callable with that name; None exactly when none has it. */
  function FindCallable(cs: seq<CallableAttrs>, ident: string): (r: Option<CallableAttrs>)
    ensures r.Some? ==> r.value in cs && r.value.name == ident
    ensures r.None? <==> forall i :: 0 <= i < |cs| ==> cs[i].name != ident
  {
    match IndexWhere(cs, (c: CallableAttrs) => c.name == ident)
    case None => None
    case Some(i) => Some(cs[i])
  }

  /** The first half of Class.Find's search: methods, virtual methods, then
    * functions. */
  function ClassFindCallable(c: Class, ident: string): (r: Option<Node>)
    ensures r.Some? ==> NodeName(r.value) == ident
    ensures r.Some? ==> (r.value.MethodNode? || r.value.VirtualMethodNode? || r.value.FunctionNode?)
    ensures (exists i :: 0 <= i < |c.methods| && c.methods[i].name == ident) ==> r.Some? && r.value.MethodNode?
    ensures r.None? <==>
      (forall i :: 0 <= i < |c.methods| ==> c.methods[i].name != ident)
      && (forall i :: 0 <= i < |c.virtualMethods| ==> c.virtualMethods[i].name != ident)
      && (forall i :: 0 <= i < |c.functions| ==> c.functions[i].name != ident)
  {
    match FindCallable(c.methods, ident)
    case Some(m) => Some(MethodNode(m))
    case None =>
    match FindCallable(c.virtualMethods, ident)
    case Some(m) => Some(VirtualMethodNode(m))
    case None =>
    match FindCallable(c.functions, ident)
    case Some(f) => Some(FunctionNode(f))
    case None => None
  }

  /** The second half of Class.Find's search: signals, fields, then
    * constructors. */
  function ClassFindRest(c: Class, ident: string): (r: Option<Node>)
    ensures r.Some? ==> NodeName(r.value) == ident
    ensures r.Some? ==> (r.value.SignalNode? || r.value.FieldNode? || r.value.ConstructorNode?)
    ensures r.Some? && r.value.ConstructorNode? ==>
      (forall i :: 0 <= i < |c.signals| ==> c.signals[i].name != ident)
      && (forall i :: 0 <= i < |c.fields| ==> c.fields[i].name != ident)
    ensures r.None? <==>
      (forall i :: 0 <= i < |c.signals| ==> c.signals[i].name != ident)
      && (forall i :: 0 <= i < |c.fields| ==> c.fields[i].name != ident)
      && (forall i :: 0 <= i < |c.constructors| ==> c.constructors[i].name != ident)
  {
    match IndexWhere(c.signals, (s: Signal) => s.name == ident)
    case Some(i) => Some(SignalNode(c.signals[i]))
    case None =>
    match IndexWhere(c.fields, (f: Field) => f.name == ident)
    case Some(i) => Some(FieldNode(c.fields[i]))
    case None =>
    match FindCallable(c.constructors, ident)
    case Some(k) => Some(ConstructorNode(k))
    case None => None
  }

  /** Class.Find: methods, virtual methods, functions, signals, fields, then
    * constructors; the first list with a match wins. */
  function ClassFind(c: Class, ident: string): (r: Option<Node>)
    ensures r.Some? ==> NodeName(r.value) == ident
    ensures r.Some? ==> (r.value.MethodNode? || r.value.VirtualMethodNode? || r.value.FunctionNode?
      || r.value.SignalNode? || r.value.FieldNode? || r.value.ConstructorNode?)
  {
    match ClassFindCallable(c, ident)
    case Some(n) => Some(n)
    case None => ClassFindRest(c, ident)
  }

  /** The search order of Class.Find: a method shadows every other kind, and
    * a constructor is found only if nothing else has the name. */
  lemma ClassFindOrder(c: Class, ident: string)
    ensures (exists i :: 0 <= i < |c.methods| && c.methods[i].name == ident) ==>
      ClassFind(c, ident).Some? && ClassFind(c, ident).value.MethodNode?
    ensures ClassFind(c, ident).Some? && ClassFind(c, ident).value.ConstructorNode? ==>
      (forall i :: 0 <= i < |c.methods| ==> c.methods[i].name != ident)
      && (forall i :: 0 <= i < |c.virtualMethods| ==> c.virtualMethods[i].name != ident)
      && (forall i :: 0 <= i < |c.functions| ==> c.functions[i].name != ident)
      && (forall i :: 0 <= i < |c.signals| ==> c.signals[i].name != ident)
      && (forall i :: 0 <= i < |c.fields| ==> c.fields[i].name != ident)
    ensures ClassFind(c, ident).None? <==>
      (forall i :: 0 <= i < |c.methods| ==> c.methods[i].name != ident)
      && (forall i :: 0 <= i < |c.virtualMethods| ==> c.virtualMethods[i].name != ident)
      && (forall i :: 0 <= i < |c.functions| ==> c.functions[i].name != ident)
      && (forall i :: 0 <= i < |c.signals| ==> c.signals[i].name != ident)
      && (forall i :: 0 <= i < |c.fields| ==> c.fields[i].name != ident)
      && (forall i :: 0 <= i < |c.constructors| ==> c.constructors[i].name != ident)
  {
  }

  /** Interface.Find: methods, virtual methods, functions, then signals. */
  function InterfaceFind(it: Interface, ident: string): (r: Option<Node>)
    ensures r.Some? ==> NodeName(r.value) == ident
    ensures r.Some? ==> r.value.MethodNode? || r.value.VirtualMethodNode? || r.value.FunctionNode? || r.value.SignalNode?
    ensures (exists i :: 0 <= i < |it.methods| && it.methods[i].name == ident) ==> r.Some? && r.value.MethodNode?
    ensures r.None? <==>
      (forall i :: 0 <= i < |it.methods| ==> it.methods[i].name != ident)
      && (forall i :: 0 <= i < |it.virtualMethods| ==> it.virtualMethods[i].name != ident)
      && (forall i :: 0 <= i < |it.functions| ==> it.functions[i].name != ident)
      && (forall i :: 0 <= i < |it.signals| ==> it.signals[i].name != ident)
  {
    match FindCallable(it.methods, ident)
    case Some(m) => Some(MethodNode(m))
    case None =>
    match FindCallable(it.virtualMethods, ident)
    case Some(m) => Some(VirtualMethodNode(m))
    case None =>
    match FindCallable(it.functions, ident)
    case Some(f) => Some(FunctionNode(f))
    case None =>
    match IndexWhere(it.signals, (s: Signal) => s.name == ident)
    case Some(i) => Some(SignalNode(it.signals[i]))
    case None => None
  }

  /** Record.Find: fields, functions, methods, constructors, then unions. */
  function RecordFind(r: Record, ident: string): (found: Option<Node>)
    ensures found.Some? ==> NodeName(found.value) == ident
    ensures found.Some? ==> (found.value.FieldNode? || found.value.FunctionNode? || found.value.MethodNode?
      || found.value.ConstructorNode? || found.value.UnionNode?)
    ensures (exists i :: 0 <= i < |r.fields| && r.fields[i].name == ident) ==> found.Some? && found.value.FieldNode?
    ensures found.None? <==>
      (forall i :: 0 <= i < |r.fields| ==> r.fields[i].name != ident)
      && (forall i :: 0 <= i < |r.functions| ==> r.functions[i].name != ident)
      && (forall i :: 0 <= i < |r.methods| ==> r.methods[i].name != ident)
      && (forall i :: 0 <= i < |r.constructors| ==> r.constructors[i].name != ident)
      && (forall i :: 0 <= i < |r.unions| ==> r.unions[i].name != ident)
  {
    match IndexWhere(r.fields, (f: Field) => f.name == ident)
    case Some(i) => Some(FieldNode(r.fields[i]))
    case None => RecordFindRest(r, ident)
  }

  /** Record.Find past the fields: functions, methods, constructors, then
    * unions. */
  function RecordFindRest(r: Record, ident: string): (found: Option<Node>)
    ensures found.Some? ==> NodeName(found.value) == ident
    ensures found.Some? ==> (found.value.FunctionNode? || found.value.MethodNode?
      || found.value.ConstructorNode? || found.value.UnionNode?)
    ensures found.None? <==>
      (forall i :: 0 <= i < |r.functions| ==> r.functions[i].name != ident)
      && (forall i :: 0 <= i < |r.methods| ==> r.methods[i].name != ident)
      && (forall i :: 0 <= i < |r.constructors| ==> r.constructors[i].name != ident)
      && (forall i :: 0 <= i < |r.unions| ==> r.unions[i].name != ident)
  {
    match FindCallable(r.functions, ident)
    case Some(f) => Some(FunctionNode(f))
    case None =>
    match FindCallable(r.methods, ident)
    case Some(m) => Some(MethodNode(m))
    case None =>
    match FindCallable(r.constructors, ident)
    case Some(k) => Some(ConstructorNode(k))
    case None =>
    match IndexWhere(r.unions, (u: Union) => u.name == ident)
    case Some(i) => Some(UnionNode(r.unions[i]))
    case None => None
  }

  /** A member matches by its name, its C identifier or its GLib name. */
  predicate MemberMatches(m: Member, ident: string) {
    MemberName(m) == ident || m.cIdentifier == ident || MemberGLibName(m) == ident
  }

  /** Enum.Find and Bitfield.Find: members first, then functions. */
  function EnumFind(e: Enum, ident: string): (r: Option<Node>)
    ensures r.Some? ==> r.value.MemberNode? || r.value.FunctionNode?
    ensures r.Some? && r.value.MemberNode? ==> r.value.member in e.members && MemberMatches(r.value.member, ident)
    ensures r.Some? && r.value.FunctionNode? ==> (r.value.fn.name == ident
      && forall i :: 0 <= i < |e.members| ==> !MemberMatches(e.members[i], ident))
    ensures r.None? <==>
      (forall i :: 0 <= i < |e.members| ==> !MemberMatches(e.members[i], ident))
      && (forall i :: 0 <= i < |e.functions| ==> e.functions[i].name != ident)
  {
    match IndexWhere(e.members, (m: Member) => MemberMatches(m, ident))
    case Some(i) => Some(MemberNode(e.members[i]))
    case None =>
    match FindCallable(e.functions, ident)
    case Some(f) => Some(FunctionNode(f))
    case None => None
  }

  /** The first half of Namespace.Find's search: aliases, constants, classes,
    * interfaces, records, then enumerations. */
  function NamespaceFindTypes(n: Namespace, ident: string): (r: Option<Node>)
    ensures r.Some? ==> NodeName(r.value) == ident
    ensures r.Some? ==> (r.value.AliasNode? || r.value.ConstantNode? || r.value.ClassNode? || r.value.InterfaceNode?
      || r.value.RecordNode? || r.value.EnumNode?)
    ensures (exists i :: 0 <= i < |n.aliases| && n.aliases[i].name == ident) ==> r.Some? && r.value.AliasNode?
    ensures r.None? <==>
      (forall i :: 0 <= i < |n.aliases| ==> n.aliases[i].name != ident)
      && (forall i :: 0 <= i < |n.constants| ==> n.constants[i].name != ident)
      && (forall i :: 0 <= i < |n.classes| ==> n.classes[i].name != ident)
      && (forall i :: 0 <= i < |n.interfaces| ==> n.interfaces[i].name != ident)
      && (forall i :: 0 <= i < |n.records| ==> n.records[i].name != ident)
      && (forall i :: 0 <= i < |n.enums| ==> n.enums[i].name != ident)
  {
    match IndexWhere(n.aliases, (a: Alias) => a.name == ident)
    case Some(i) => Some(AliasNode(n.aliases[i]))
    case None =>
    match IndexWhere(n.constants, (c: Constant) => c.name == ident)
    case Some(i) => Some(ConstantNode(n.constants[i]))
    case None =>
    match IndexWhere(n.classes, (c: Class) => c.name == ident)
    case Some(i) => Some(ClassNode(n.classes[i]))
    case None =>
    match IndexWhere(n.interfaces, (c: Interface) => c.name == ident)
    case Some(i) => Some(InterfaceNode(n.interfaces[i]))
    case None =>
    match IndexWhere(n.records, (c: Record) => c.name == ident)
    case Some(i) => Some(RecordNode(n.records[i]))
    case None =>
    match IndexWhere(n.enums, (c: Enum) => c.name == ident)
    case Some(i) => Some(EnumNode(n.enums[i]))
    case None => None
  }

  /** The second half of Namespace.Find's search: functions, unions,
    * bitfields, then callbacks. */
  function NamespaceFindRest(n: Namespace, ident: string): (r: Option<Node>)
    ensures r.Some? ==> NodeName(r.value) == ident
    ensures r.Some? ==> (r.value.FunctionNode? || r.value.UnionNode? || r.value.BitfieldNode? || r.value.CallbackNode?)
    ensures r.None? <==>
      (forall i :: 0 <= i < |n.functions| ==> n.functions[i].name != ident)
      && (forall i :: 0 <= i < |n.unions| ==> n.unions[i].name != ident)
      && (forall i :: 0 <= i < |n.bitfields| ==> n.bitfields[i].name != ident)
      && (forall i :: 0 <= i < |n.callbacks| ==> n.callbacks[i].attrs.name != ident)
  {
    match FindCallable(n.functions, ident)
    case Some(f) => Some(FunctionNode(f))
    case None =>
    match IndexWhere(n.unions, (c: Union) => c.name == ident)
    case Some(i) => Some(UnionNode(n.unions[i]))
    case None =>
    match IndexWhere(n.bitfields, (c: Enum) => c.name == ident)
    case Some(i) => Some(BitfieldNode(n.bitfields[i]))
    case None =>
    match IndexWhere(n.callbacks, (c: Callback) => c.attrs.name == ident)
    case Some(i) => Some(CallbackNode(n.callbacks[i]))
    case None => None
  }

  /** Namespace.Find: aliases, constants, classes, interfaces, records,
    * enumerations, functions, unions, bitfields, then callbacks. */
  function NamespaceFind(n: Namespace, ident: string): (r: Option<Node>)
    ensures r.Some? ==> NodeName(r.value) == ident
    ensures r.Some? ==> (r.value.AliasNode? || r.value.ConstantNode? || r.value.ClassNode? || r.value.InterfaceNode?
      || r.value.RecordNode? || r.value.EnumNode? || r.value.FunctionNode? || r.value.UnionNode?
      || r.value.BitfieldNode? || r.value.CallbackNode?)
    ensures (exists i :: 0 <= i < |n.aliases| && n.aliases[i].name == ident) ==> r.Some? && r.value.AliasNode?
    ensures r.None? <==>
      (forall i :: 0 <= i < |n.aliases| ==> n.aliases[i].name != ident)
      && (forall i :: 0 <= i < |n.constants| ==> n.constants[i].name != ident)
      && (forall i :: 0 <= i < |n.classes| ==> n.classes[i].name != ident)
      && (forall i :: 0 <= i < |n.interfaces| ==> n.interfaces[i].name != ident)
      && (forall i :: 0 <= i < |n.records| ==> n.records[i].name != ident)
      && (forall i :: 0 <= i < |n.enums| ==> n.enums[i].name != ident)
      && (forall i :: 0 <= i < |n.functions| ==> n.functions[i].name != ident)
      && (forall i :: 0 <= i < |n.unions| ==> n.unions[i].name != ident)
      && (forall i :: 0 <= i < |n.bitfields| ==> n.bitfields[i].name != ident)
      && (forall i :: 0 <= i < |n.callbacks| ==> n.callbacks[i].attrs.name != ident)
  {
    match NamespaceFindTypes(n, ident)
    case Some(t) => Some(t)
    case None => NamespaceFindRest(n, ident)
  }

  /** Find on any searchable node; None for the others. */
  function Find(n: Node, ident: string): (r: Option<Node>)
    ensures !IsSearchable(n) ==> r.None?
  {
    match n
    case NamespaceNode(ns) => NamespaceFind(ns, ident)
    case ClassNode(c) => ClassFind(c, ident)
    case InterfaceNode(i) => InterfaceFind(i, ident)
    case RecordNode(r) => RecordFind(r, ident)
    case EnumNode(e) => EnumFind(e, ident)
    case BitfieldNode(b) => EnumFind(b, ident)
    case _ => None
  }

  /** Namespace.Prefixes: identifier and symbol prefixes; the identifier
    * prefixes stand in for missing symbol prefixes. */
  function Prefixes(n: Namespace): (r: (seq<string>, seq<string>))
    ensures r.0 == n.cIdentifierPrefixes
    ensures r.1 == if n.cSymbolPrefixes == [] then n.cIdentifierPrefixes else n.cSymbolPrefixes
  {
    if |n.cSymbolPrefixes| == 0 then (n.cIdentifierPrefixes, n.cIdentifierPrefixes)
    else (n.cIdentifierPrefixes, n.cSymbolPrefixes)
  }

  /** A repository file: its includes, C includes, packages and namespaces. */
  datatype Include = Include(name: string, version: Version)

  datatype Repository = Repository(
    includes: seq<Include>,
    cIncludes: seq<string>,
    packages: seq<string>,
    namespaces: seq<Namespace>)
}
