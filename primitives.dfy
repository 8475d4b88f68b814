/** The builtin primitive types every namespace can name, and the C types
  * no Go type exists for. */
module Primitives {
  import opened Wrappers
  import opened TypeSystem
  import Gir

  /** A castable primitive: GIR name, C type, cgo type, Go type. */
  function Prim(girName: string, cType: string, cGoType: string, goType: string): (t: Ty)
    ensures t.Castable? && GIRName(t) == girName && t.base.cTyp == cType
    ensures t.base.cGoTyp == cGoType && t.base.goTyp == goType
  {
    Castable(BaseType(girName, goType, cGoType, cType, "", ""))
  }

  const Gboolean: Ty := Boolean(BaseType("gboolean", "bool", "C.gboolean", "gboolean", "", ""))
  const Utf8: Ty := Str("utf8")
  const Filename: Ty := Str("filename")
  const Gpointer: Ty := Prim("gpointer", "gpointer", "C.gpointer", "unsafe.Pointer")
  const Gconstpointer: Ty := Prim("gconstpointer", "gconstpointer", "C.gconstpointer", "unsafe.Pointer")
  const Guintptr: Ty := Prim("guintptr", "guintptr", "C.guintptr", "uintptr")

  /** The builtin primitives, in lookup order. */
  const PrimitiveTypes: seq<Ty> := [
    Prim("guint", "guint", "C.guint", "uint"),
    Prim("guint8", "guint8", "C.guint8", "uint8"),
    Prim("guint16", "guint16", "C.guint16", "uint16"),
    Prim("guint32", "guint32", "C.guint32", "uint32"),
    Prim("guint64", "guint64", "C.guint64", "uint64"),
    Prim("gint", "gint", "C.gint", "int32"),
    Prim("gint8", "gint8", "C.gint8", "int8"),
    Prim("gint16", "gint16", "C.gint16", "int16"),
    Prim("gint32", "gint32", "C.gint32", "int32"),
    Prim("gint64", "gint64", "C.gint64", "int64"),
    Prim("gshort", "gshort", "C.gshort", "int16"),
    Prim("gushort", "gushort", "C.gushort", "uint16"),
    Prim("gsize", "gsize", "C.gsize", "uint"),
    Prim("gssize", "gssize", "C.gssize", "int"),
    Prim("gchar", "gchar", "C.char", "byte"),
    Prim("guchar", "guchar", "C.guchar", "byte"),
    Prim("gunichar", "gunichar", "C.gunichar", "uint32"),
    Gboolean,
    Prim("gfloat", "gfloat", "C.gfloat", "float32"),
    Prim("gdouble", "gdouble", "C.gdouble", "float64"),
    Utf8,
    Filename,
    Prim("gintptr", "gintptr", "C.gintptr", "uintptr"),
    Guintptr,
    Gpointer,
    Gconstpointer,
    Prim("glong", "glong", "C.glong", "int32"),
    Prim("gulong", "gulong", "C.gulong", "uint32"),
    Prim("time_t", "time_t", "C.time_t", "uint64"),
    Prim("pid_t", "pid_t", "C.pid_t", "int"),
    Prim("ino_t", "ino_t", "C.ino_t", "uint"),
    Prim("uid_t", "uid_t", "C.uid_t", "uint"),
    Prim("gid_t", "gid_t", "C.gid_t", "uint"),
    Void
  ]

  /** The C types with no Go counterpart. */
  const IncompatibleCTypes: seq<string> := ["long double", "tm", "va_list"]

  /** ctypeIsIncompatible: exact membership in the list. */
  predicate CTypeIsIncompatible(ctype: string) {
    ctype in IncompatibleCTypes
  }

  /** How a lookup matches a type: by its C type without pointers, or by
    * its GIR name. */
  datatype Key = ByCType(ctype: string) | ByGIRName(name: string)

  predicate Matches(k: Key, t: Ty) {
    match k
    case ByCType(c) => CType(t, 0) == c
    case ByGIRName(n) => GIRName(t) == n
  }

  /** The index of the first element of `ts` that matches `k`. */
  function FirstIndex(ts: seq<Ty>, k: Key): (r: Option<nat>)
    ensures r.Some? ==>
              r.value < |ts| && Matches(k, ts[r.value]) &&
              forall j :: 0 <= j < r.value ==> !Matches(k, ts[j])
    ensures r.None? ==> forall j :: 0 <= j < |ts| ==> !Matches(k, ts[j])
    decreases |ts|
  {
    if ts == [] then None
    else if Matches(k, ts[0]) then Some(0)
    else match FirstIndex(ts[1..], k)
      case None => None
      case Some(i) => Some(i + 1)
  }

  /** The first element of `ts` that matches `k` (the loops of
    * findBuiltinPrimitiveBy* and findLocalTypeWith). */
  function FirstMatch(ts: seq<Ty>, k: Key): (r: Option<Ty>)
    ensures r.Some? ==> r.value in ts && Matches(k, r.value)
    ensures r.None? <==> forall t :: t in ts ==> !Matches(k, t)
  {
    match FirstIndex(ts, k)
    case None => None
    case Some(i) => Some(ts[i])
  }

  /** Searching a concatenation searches the first part, then the second. */
  lemma {:induction false} FirstMatchConcat(a: seq<Ty>, b: seq<Ty>, k: Key)
    ensures FirstMatch(a + b, k) == if FirstMatch(a, k).Some? then FirstMatch(a, k) else FirstMatch(b, k)
    decreases |a|
  {
    if a != [] {
      assert (a + b)[1..] == a[1..] + b;
      assert (a + b)[0] == a[0];
      if !Matches(k, a[0]) {
        FirstMatchConcat(a[1..], b, k);
        match FirstIndex(a[1..] + b, k)
        case None =>
        case Some(i) =>
          assert (a[1..] + b)[i] == (a + b)[i + 1];
        match FirstIndex(a[1..], k)
        case None =>
        case Some(i) =>
          assert a[1..][i] == a[i + 1];
      }
    } else {
      assert a + b == b;
    }
  }

  /** findBuiltinPrimitiveByCType: the first primitive whose C type matches. */
  function PrimitiveByCType(ctype: string): (r: Option<Ty>)
    ensures r.Some? ==> r.value in PrimitiveTypes && CType(r.value, 0) == ctype
    ensures r.None? <==> forall t :: t in PrimitiveTypes ==> CType(t, 0) != ctype
  {
    FirstMatch(PrimitiveTypes, ByCType(ctype))
  }

  /** findBuiltinPrimitiveByGIRName: the first primitive with that GIR name. */
  function PrimitiveByGIRName(name: string): (r: Option<Ty>)
    ensures r.Some? ==> r.value in PrimitiveTypes && GIRName(r.value) == name
    ensures r.None? <==> forall t :: t in PrimitiveTypes ==> GIRName(t) != name
  {
    FirstMatch(PrimitiveTypes, ByGIRName(name))
  }

  /** isPointer: only gpointer and gconstpointer are untyped pointers; both
    * are unsafe.Pointer in Go and are found by their own C types. */
  predicate IsPointer(t: Ty) {
    t == Gpointer || t == Gconstpointer
  }

  lemma PointerTypes(t: Ty)
    ensures IsPointer(t) ==> t.Castable? && t.base.goTyp == "unsafe.Pointer"
    ensures IsPointer(t) ==> t in PrimitiveTypes
  {
    assert PrimitiveTypes[24] == Gpointer && PrimitiveTypes[25] == Gconstpointer;
  }

  /** gpointer and gconstpointer are found by their own C types. */
  lemma PointersFoundByCType(t: Ty)
    requires IsPointer(t)
    ensures PrimitiveByCType(CType(t, 0)) == Some(t)
  {
    CTypeAtZero(t);
    PointerIndices();
    PointerNamesFirst();
    if t == Gpointer {
      PointerFirstAt(24, CType(t, 0));
    } else {
      PointerFirstAt(25, CType(t, 0));
    }
  }

  /** Where gpointer and gconstpointer sit in the builtin list. */
  lemma PointerIndices()
    ensures |PrimitiveTypes| > 25 && |PrimitiveCTypeNames| > 25
    ensures PrimitiveTypes[24] == Gpointer && PrimitiveTypes[25] == Gconstpointer
    ensures PrimitiveCTypeNames[24] == "gpointer" && PrimitiveCTypeNames[25] == "gconstpointer"
  {
  }

  lemma PointerNamesFirst()
    ensures "gpointer" !in PrimitiveCTypeNames[..24]
    ensures "gconstpointer" !in PrimitiveCTypeNames[..25]
  {
    forall k | 0 <= k < 24 ensures PrimitiveCTypeNames[k] != "gpointer" {
      assert |PrimitiveCTypeNames[k]| != 8 || PrimitiveCTypeNames[k][1] != 'o';
    }
    assert "gpointer" !in PrimitiveCTypeNames[..24] by {
      forall k | 0 <= k < 24 ensures PrimitiveCTypeNames[..24][k] != "gpointer" {
        assert PrimitiveCTypeNames[..24][k] == PrimitiveCTypeNames[k];
      }
    }
    forall k | 0 <= k < 25 ensures PrimitiveCTypeNames[k] != "gconstpointer" {
      assert |PrimitiveCTypeNames[k]| != 13;
    }
    assert "gconstpointer" !in PrimitiveCTypeNames[..25] by {
      forall k | 0 <= k < 25 ensures PrimitiveCTypeNames[..25][k] != "gconstpointer" {
        assert PrimitiveCTypeNames[..25][k] == PrimitiveCTypeNames[k];
      }
    }
  }

  lemma PointerFirstAt(i: nat, c: string)
    requires i < |PrimitiveCTypeNames| && PrimitiveCTypeNames[i] == c && c !in PrimitiveCTypeNames[..i]
    ensures i < |PrimitiveTypes| && PrimitiveByCType(c) == Some(PrimitiveTypes[i])
  {
    PrimitiveCTypes();
    forall j | 0 <= j < i ensures !Matches(ByCType(c), PrimitiveTypes[j]) {
      assert PrimitiveCTypeNames[..i][j] == PrimitiveCTypeNames[j];
    }
    FirstMatchAt(PrimitiveTypes, ByCType(c), i);
  }

  /** The C types of the builtin primitives, in lookup order. */
  const PrimitiveCTypeNames: seq<string> := [
    "guint", "guint8", "guint16", "guint32", "guint64",
    "gint", "gint8", "gint16", "gint32", "gint64",
    "gshort", "gushort", "gsize", "gssize", "gchar", "guchar", "gunichar",
    "gboolean", "gfloat", "gdouble", "gchar*", "gchar*",
    "gintptr", "guintptr", "gpointer", "gconstpointer",
    "glong", "gulong", "time_t", "pid_t", "ino_t", "uid_t", "gid_t", "void"
  ]

  /** At no pointers a type with a base renders as its base C type. */
  lemma CTypeAtZero(t: Ty)
    requires BaseOf(t).Some? && !t.Str? && !t.ContainerTy? && !t.ContainerInstanceTy? && !t.ArrayTy?
    ensures CType(t, 0) == BaseOf(t).value.cTyp
  {
    var r := CType(t, 0);
    assert r[..|BaseOf(t).value.cTyp|] == r;
  }

  lemma PrimitiveCTypes()
    ensures |PrimitiveCTypeNames| == |PrimitiveTypes|
    ensures forall i :: 0 <= i < |PrimitiveTypes| ==> CType(PrimitiveTypes[i], 0) == PrimitiveCTypeNames[i]
  {
    forall i | 0 <= i < |PrimitiveTypes| ensures CType(PrimitiveTypes[i], 0) == PrimitiveCTypeNames[i] {
      var t := PrimitiveTypes[i];
      if !t.Str? {
        CTypeAtZero(t);
      }
    }
  }

  /** The first match is the element at i when it matches and none before
    * it does. */
  lemma {:induction false} FirstMatchAt(ts: seq<Ty>, k: Key, i: nat)
    requires i < |ts| && Matches(k, ts[i])
    requires forall j :: 0 <= j < i ==> !Matches(k, ts[j])
    ensures FirstMatch(ts, k) == Some(ts[i])
    decreases i
  {
    if i > 0 {
      FirstMatchAt(ts[1..], k, i - 1);
      assert FirstIndex(ts[1..], k) == Some(i - 1);
    }
  }

  /** No C type without a Go counterpart is a builtin primitive's. */
  lemma IncompatibleNotPrimitive(ctype: string)
    requires CTypeIsIncompatible(ctype)
    ensures PrimitiveByCType(ctype).None?
  {
    IncompatibleNamesApart();
    PrimitiveCTypes();
    assert FirstIndex(PrimitiveTypes, ByCType(ctype)).None?;
  }

  /** The C types without Go counterpart begin with a letter no builtin's
    * C type begins with, or differ from those that share it in length. */
  lemma IncompatibleNamesApart()
    ensures forall k :: 0 <= k < |PrimitiveCTypeNames| ==> !CTypeIsIncompatible(PrimitiveCTypeNames[k])
  {
    forall k | 0 <= k < |PrimitiveCTypeNames| ensures !CTypeIsIncompatible(PrimitiveCTypeNames[k]) {
      var n := PrimitiveCTypeNames[k];
      assert n[0] != 'l' && (n[0] == 't' ==> |n| == 6) && (n[0] == 'v' ==> |n| == 4);
    }
  }

  /** The string primitives take exactly one pointer and always render as
    * gchar* in C and string in Go. */
  lemma StringPrimitiveRules(t: Ty, n: nat, m: nat)
    requires t == Utf8 || t == Filename
    ensures TypePointersAllowed(t, m) <==> m == 1
    ensures CType(t, n) == "gchar*" && CGoType(t, n) == "*C.gchar" && GoType(t, n) == "string"
  {
  }
}
