/** Callable declarations (callable.go): the Go name of a function, method
  * or constructor, and the guards that decide whether a callable is
  * declared at all. */
module Callables {
  import opened Wrappers
  import opened Strings
  import StrCases
  import Gir
  import opened TypeSystem
  import opened Env
  import opened Params

  /** specialCallableNames: GIR names with a fixed Go spelling. */
  const SpecialCallableNames: Table := [("to_string", "String")]

  /** The Go name of the parent type that prefixes a callable's name: the
    * interface name for classes and interfaces, else the plain Go type;
    * nothing without a parent. */
  function ParentTypeName(parent: Option<Ty>): (r: string)
    ensures parent.None? ==> r == ""
    ensures parent.Some? && parent.value.ClassTy? ==> r == parent.value.cls.goInterfaceName
    ensures parent.Some? && parent.value.IfaceTy? ==> r == parent.value.iface.goInterfaceName
    ensures parent.Some? && !parent.value.ClassTy? && !parent.value.IfaceTy? ==> r == GoType(parent.value, 0)
  {
    match parent
    case None => ""
    case Some(ClassTy(c)) => c.goInterfaceName
    case Some(IfaceTy(i)) => i.goInterfaceName
    case Some(t) => GoType(t, 0)
  }

  /** The GIR name after the special-name table, in PascalCase. */
  function PascalName(girname: string): (r: string)
    ensures !StrCases.IsReserved(r) && StrCases.NoInnerUnderscore(r)
    ensures Lookup(SpecialCallableNames, girname).None? ==> r == StrCases.SnakeToGo(true, girname)
    ensures girname == "to_string" ==> r == StrCases.SnakeToGo(true, "String")
  {
    var name := match Lookup(SpecialCallableNames, girname)
      case Some(special) => special
      case None => girname;
    StrCases.SnakeToGo(true, name)
  }

  /** The New rule of CallableIdentifier.GoIndentifier: the parent's name
    * goes in front of the PascalCase name; a "New" at the start or the end
    * of that name is cut off and put in front of everything. */
  function Renamed(pascal: string, parentName: string): (r: string)
    ensures HasPrefix(pascal, "New") || HasSuffix(pascal, "New") ==> HasPrefix(r, "New" + parentName)
    ensures !HasPrefix(pascal, "New") && !HasSuffix(pascal, "New") ==> r == parentName + pascal
    ensures |r| <= |parentName| + |pascal|
  {
    var (noPrefix, hasNewPrefix) := CutPrefix(pascal, "New");
    var (core, hasNewSuffix) := CutSuffix(noPrefix, "New");
    if hasNewPrefix || hasNewSuffix then "New" + parentName + core
    else parentName + core
  }

  /** For a name x without "New" at either end: x itself is just prefixed
    * with the parent's name, and x with "New" in front, behind or on both
    * sides becomes "New", the parent's name, then x. */
  lemma RenamedCases(x: string, p: string)
    requires !HasPrefix(x, "New") && !HasSuffix(x, "New")
    ensures Renamed(x, p) == p + x
    ensures Renamed("New" + x, p) == "New" + p + x
    ensures Renamed(x + "New", p) == "New" + p + x
    ensures Renamed("New" + x + "New", p) == "New" + p + x
  {
    RenamedNewPrefix(x, p);
    RenamedNewSuffix(x, p);
    RenamedNewBoth(x, p);
  }

  lemma RenamedNewPrefix(x: string, p: string)
    requires !HasSuffix(x, "New")
    ensures Renamed("New" + x, p) == "New" + p + x
  {
    assert ("New" + x)[3..] == x;
  }

  lemma RenamedNewBoth(x: string, p: string)
    ensures Renamed("New" + x + "New", p) == "New" + p + x
  {
    assert ("New" + x + "New")[3..] == x + "New";
    assert (x + "New")[..|x|] == x;
  }

  lemma RenamedNewSuffix(x: string, p: string)
    requires !HasPrefix(x, "New")
    ensures Renamed(x + "New", p) == "New" + p + x
  {
    var s := x + "New";
    assert s[..|x|] == x && s[|x|..] == "New";
    if x == [] {
      assert s == "New";
      assert s[3..] == [];
    } else if |x| < 3 {
      assert s[|x|] == 'N';
      assert !HasPrefix(s, "New");
    } else {
      assert s[..3] == x[..3];
      assert !HasPrefix(s, "New");
    }
  }

  /** CallableIdentifier.GoIndentifier. */
  function GoIdentifier(parent: Option<Ty>, girname: string): (r: string)
    ensures HasPrefix(r, ParentTypeName(parent)) || HasPrefix(r, "New" + ParentTypeName(parent))
    ensures |r| <= |ParentTypeName(parent)| + |PascalName(girname)|
  {
    Renamed(PascalName(girname), ParentTypeName(parent))
  }

  /** to_string is always named String, so it becomes a Stringer method. */
  lemma ToStringIsString(parent: Option<Ty>)
    ensures PascalName("to_string") == "String"
    ensures GoIdentifier(parent, "to_string") == ParentTypeName(parent) + "String"
  {
    SpecialToString();
    PascalNameOfSpecial("to_string", "String");
    StringPascal();
    StringHasNoNew();
    RenamedCases("String", ParentTypeName(parent));
  }

  lemma StringHasNoNew()
    ensures !HasPrefix("String", "New") && !HasSuffix("String", "New")
  {
    assert "String"[..3][0] == 'S';
    assert "String"[3..][2] == 'g';
  }

  lemma PascalNameOfSpecial(girname: string, special: string)
    requires Lookup(SpecialCallableNames, girname) == Some(special)
    ensures PascalName(girname) == StrCases.SnakeToGo(true, special)
  {
  }

  lemma SpecialToString()
    ensures Lookup(SpecialCallableNames, "to_string") == Some("String")
  {
  }

  lemma StringNotSpecial()
    ensures Lookup(StrCases.SpecialWords, "string").None?
  {
    StringNotSpecialFrom0();
    StringNotSpecialFrom9();
    StringNotSpecialFrom18();
    LookupAbsent(StrCases.SpecialWords, "string");
  }

  lemma StringNotSpecialFrom0()
    ensures forall i :: 0 <= i < 9 ==> StrCases.SpecialWords[i].0 != "string"
  {
    forall i | 0 <= i < 9
      ensures StrCases.SpecialWords[i].0 != "string"
    {
      if i == 0 { assert StrCases.SpecialWords[0].0 != "string"; }
      else if i == 1 { assert StrCases.SpecialWords[1].0 != "string"; }
      else if i == 2 { assert StrCases.SpecialWords[2].0 != "string"; }
      else if i == 3 { assert StrCases.SpecialWords[3].0 != "string"; }
      else if i == 4 { assert StrCases.SpecialWords[4].0 != "string"; }
      else if i == 5 { assert StrCases.SpecialWords[5].0 != "string"; }
      else if i == 6 { assert StrCases.SpecialWords[6].0 != "string"; }
      else if i == 7 { assert StrCases.SpecialWords[7].0 != "string"; }
      else if i == 8 { assert StrCases.SpecialWords[8].0 != "string"; }
    }
  }

  lemma StringNotSpecialFrom9()
    ensures forall i :: 9 <= i < 18 ==> StrCases.SpecialWords[i].0 != "string"
  {
    forall i | 9 <= i < 18
      ensures StrCases.SpecialWords[i].0 != "string"
    {
      if i == 9 { assert StrCases.SpecialWords[9].0 != "string"; }
      else if i == 10 { assert StrCases.SpecialWords[10].0 != "string"; }
      else if i == 11 { assert StrCases.SpecialWords[11].0 != "string"; }
      else if i == 12 { assert StrCases.SpecialWords[12].0 != "string"; }
      else if i == 13 { assert StrCases.SpecialWords[13].0 != "string"; }
      else if i == 14 { assert StrCases.SpecialWords[14].0 != "string"; }
      else if i == 15 { assert StrCases.SpecialWords[15].0 != "string"; }
      else if i == 16 { assert StrCases.SpecialWords[16].0 != "string"; }
      else if i == 17 { assert StrCases.SpecialWords[17].0 != "string"; }
    }
  }

  lemma StringNotSpecialFrom18()
    ensures forall i :: 18 <= i < 27 ==> StrCases.SpecialWords[i].0 != "string"
  {
    forall i | 18 <= i < 27
      ensures StrCases.SpecialWords[i].0 != "string"
    {
      if i == 18 { assert StrCases.SpecialWords[18].0 != "string"; }
      else if i == 19 { assert StrCases.SpecialWords[19].0 != "string"; }
      else if i == 20 { assert StrCases.SpecialWords[20].0 != "string"; }
      else if i == 21 { assert StrCases.SpecialWords[21].0 != "string"; }
      else if i == 22 { assert StrCases.SpecialWords[22].0 != "string"; }
      else if i == 23 { assert StrCases.SpecialWords[23].0 != "string"; }
      else if i == 24 { assert StrCases.SpecialWords[24].0 != "string"; }
      else if i == 25 { assert StrCases.SpecialWords[25].0 != "string"; }
      else if i == 26 { assert StrCases.SpecialWords[26].0 != "string"; }
    }
  }

  lemma StringPiece()
    ensures StrCases.Piece("String", 0, true, true) == "String"
  {
    LowerString();
    StringNotSpecial();
  }

  lemma LowerString()
    ensures ToLower("String") == "string"
  {
    var r := ToLower("String");
    assert r[0] == ToLowerChar('S') == 's';
    forall i | 1 <= i < 6
      ensures r[i] == "string"[i]
    {
      assert r[i] == ToLowerChar("String"[i]);
    }
  }

  lemma StringPascal()
    ensures StrCases.SnakeToGo(true, "String") == "String"
  {
    SplitNoSep("String", '_');
    StrCases.SinglePiece("String", true, true);
    StringPiece();
    if StrCases.IsReserved("String") {
      StrCases.ReservedStartsLower("String");
    }
  }

  // ---------------------------------------------------------------------------
  // Declarations

  /** The guards every Declare* function applies before building the
    * parameters. `ignored` is the configured ignore function's answer for
    * the callable. */
  predicate Declarable(e: Env, v: Gir.CallableAttrs, ignored: bool) {
    && Gir.IsIntrospectable(v.info)
    && v.shadowedBy == ""
    && v.movedTo == ""
    && !Skip(e, v.name, v.info, ignored)
  }

  /** DeclareFunction, DeclarePrefixedFunction and DeclareMethod, which
    * differ only in the type prefixing the Go name: none for functions and
    * methods, the parent for prefixed functions (the parent's part in
    * skipping is folded into `ignored`). A callable that fails a guard or
    * whose parameters are not resolved is not declared; a panic while
    * building them propagates. */
  method Declare(e: Env, namePrefix: Option<Ty>, v: Gir.CallableAttrs, ignored: bool)
    returns (r: Result<Option<CallableSignature>>)
    ensures !Declarable(e, v, ignored) ==> r == Ok(None)
    ensures r.Ok? && r.value.Some? ==>
              && Declarable(e, v, ignored)
              && r.value.value.cIdentifier == v.cIdentifier
              && r.value.value.goIdentifier == GoIdentifier(namePrefix, v.name)
              && CSideValid(r.value.value.params, CallableMode)
              && |r.value.value.params.girParameters| == GirParamCount(v) + (if v.throws then 1 else 0)
              && GoSideOrdered(r.value.value.params)
              && LinkedFrom(Builder(e), GirParamsOf(v), r.value.value.params.girParameters)
    ensures Declarable(e, v, ignored) ==>
              var S := SignatureSpec(e, InstanceBuilderOf(e), Builder(e), v, CallableMode);
              && (r.Err? <==> S.None?)
              && (r.Ok? ==> (r.value.Some? <==> S.value.1.Some?))
              && (r.Ok? && r.value.Some? ==> Arranges(r.value.value.params, S.value.1.value))
  {
    if !Declarable(e, v, ignored) {
      return Ok(None);
    }
    var params := NewGenericParameters(e, InstanceBuilderOf(e), Builder(e), v, CallableMode);
    if params.Err? {
      return Err(params.msg);
    }
    match params.value.1
    case None =>
      r := Ok(None);
    case Some(P) =>
      r := Ok(Some(CallableSignature(v.cIdentifier, GoIdentifier(namePrefix, v.name), P)));
  }
}
