/** C type strings as the typesystem reads them: pointer stars, qualifiers,
  * and the spelling cgo uses for a C type. */
module CTypes {
  import opened Wrappers
  import opened Strings
  import opened Gir

  // ---------------------------------------------------------------------------
  // Pointer stars

  /** CountCTypePointers: the number of '*' in a C type. */
  function CountCTypePointers(ctype: string): nat {
    Count(ctype, '*')
  }

  /** GetPointers: n stars. */
  function GetPointers(n: nat): (r: string)
    ensures |r| == n
    ensures CountCTypePointers(r) == n
  {
    CountRepeat('*', n);
    Repeat('*', n)
  }

  /** trimCTypePointers: every '*' removed, the rest in order. */
  function TrimCTypePointers(ctype: string): (r: string)
    ensures '*' !in r
    ensures |r| + CountCTypePointers(ctype) == |ctype|
    ensures forall c :: c in r ==> c in ctype
  {
    ReplaceAllRemovesChar(ctype, '*');
    ReplaceAll(ctype, "*", "")
  }

  /** Trimming and re-appending n stars: the base is kept and the star count
    * becomes n. */
  lemma BaseWithPointers(ctype: string, n: nat)
    ensures CountCTypePointers(TrimCTypePointers(ctype) + GetPointers(n)) == n
    ensures TrimCTypePointers(TrimCTypePointers(ctype) + GetPointers(n)) == TrimCTypePointers(ctype)
  {
    var base := TrimCTypePointers(ctype);
    CountAppend(base, GetPointers(n), '*');
    ReplaceAllRemovesChar(base + GetPointers(n), '*');
    RemoveCharAppend(base, GetPointers(n), '*');
    ReplaceAllRemovesChar(base, '*');
    RemoveCharAbsent(base, '*');
    RemoveCharRepeat('*', n);
  }

  /** The C type with one star fewer, stars moved to the end. */
  function DecreasePointers(ctype: string): (r: string)
    requires CountCTypePointers(ctype) > 0
    ensures CountCTypePointers(r) + 1 == CountCTypePointers(ctype)
    ensures TrimCTypePointers(r) == TrimCTypePointers(ctype)
  {
    BaseWithPointers(ctype, CountCTypePointers(ctype) - 1);
    TrimCTypePointers(ctype) + GetPointers(CountCTypePointers(ctype) - 1)
  }

  /** decreaseAnyTypePointers: a copy of the AnyType whose type and array
    * (where present) each carry one star fewer; false, with an empty AnyType,
    * when one of them has no star left. An AnyType with neither part comes
    * back empty and true. */
  function DecreaseAnyTypePointers(t: AnyType): (r: (AnyType, bool))
    ensures r.1 <==>
      ((t.typ.Some? ==> CountCTypePointers(t.typ.value.ctype) > 0)
       && (t.arr.Some? ==> CountCTypePointers(t.arr.value.ctype) > 0))
    ensures !r.1 ==> r.0 == AnyType(None, None)
    ensures r.1 ==> r.0.typ.Some? == t.typ.Some? && r.0.arr.Some? == t.arr.Some?
    ensures r.1 && t.typ.Some? ==>
      (var before, after := t.typ.value, r.0.typ.value;
       after == before.(ctype := after.ctype)
       && CountCTypePointers(after.ctype) + 1 == CountCTypePointers(before.ctype)
       && TrimCTypePointers(after.ctype) == TrimCTypePointers(before.ctype))
    ensures r.1 && t.arr.Some? ==>
      (var before, after := t.arr.value, r.0.arr.value;
       after == before.(ctype := after.ctype)
       && CountCTypePointers(after.ctype) + 1 == CountCTypePointers(before.ctype)
       && TrimCTypePointers(after.ctype) == TrimCTypePointers(before.ctype))
  {
    if t.typ.Some? && CountCTypePointers(t.typ.value.ctype) == 0 then (AnyType(None, None), false)
    else if t.arr.Some? && CountCTypePointers(t.arr.value.ctype) == 0 then (AnyType(None, None), false)
    else
      var typ := if t.typ.Some? then Some(t.typ.value.(ctype := DecreasePointers(t.typ.value.ctype))) else None;
      var arr := if t.arr.Some? then Some(t.arr.value.(ctype := DecreasePointers(t.arr.value.ctype))) else None;
      (AnyType(typ, arr), true)
  }

  /** Decreasing twice removes two stars when both steps succeed. */
  lemma DecreaseTwice(t: Type)
    requires CountCTypePointers(t.ctype) >= 2
    ensures
      var once := DecreaseAnyTypePointers(AnyType(Some(t), None));
      var twice := DecreaseAnyTypePointers(once.0);
      once.1 && twice.1 && CountCTypePointers(twice.0.typ.value.ctype) + 2 == CountCTypePointers(t.ctype)
  {
  }

  // ---------------------------------------------------------------------------
  // Qualifiers and cgo spelling

  /** cleanCType: drops "const " and " const", then "volatile " and
    * " volatile" (the spaces keep names such as "constant" intact). */
  function CleanCType(ctype: string): (r: string)
    ensures CountCTypePointers(r) == CountCTypePointers(ctype)
    ensures |r| <= |ctype|
  {
    var a := ReplaceAll(ctype, "const ", "");
    var b := ReplaceAll(a, " const", "");
    var c := ReplaceAll(b, "volatile ", "");
    var d := ReplaceAll(c, " volatile", "");
    ReplaceAllKeepsCount(ctype, "const ", "", '*');
    ReplaceAllKeepsCount(a, " const", "", '*');
    ReplaceAllKeepsCount(b, "volatile ", "", '*');
    ReplaceAllKeepsCount(c, " volatile", "", '*');
    ReplaceAllShrinks(ctype, "const ");
    ReplaceAllShrinks(a, " const");
    ReplaceAllShrinks(b, "volatile ");
    ReplaceAllShrinks(c, " volatile");
    d
  }

  /** cleanCType as its four removals, one after the other. */
  lemma CleanCTypeSteps(ctype: string, a: string, b: string, c: string, d: string)
    requires ReplaceAll(ctype, "const ", "") == a && ReplaceAll(a, " const", "") == b
    requires ReplaceAll(b, "volatile ", "") == c && ReplaceAll(c, " volatile", "") == d
    ensures CleanCType(ctype) == d
  {
  }

  /** A C type without qualifier words comes back unchanged. */
  lemma CleanCTypeUnqualified(ctype: string)
    requires forall i: nat :: !OccursAt(ctype, "const ", i) && !OccursAt(ctype, " const", i)
    requires forall i: nat :: !OccursAt(ctype, "volatile ", i) && !OccursAt(ctype, " volatile", i)
    ensures CleanCType(ctype) == ctype
  {
    ReplaceAllAbsent(ctype, "const ", "");
    ReplaceAllAbsent(ctype, " const", "");
    ReplaceAllAbsent(ctype, "volatile ", "");
    ReplaceAllAbsent(ctype, " volatile", "");
  }

  /** A base type name: no stars and neither qualifier word inside it. */
  ghost predicate PlainBase(b: string) {
    '*' !in b && forall i: nat :: !OccursAt(b, "const", i) && !OccursAt(b, "volatile", i)
  }

  /** A plain base holds none of the four patterns cleanCType removes. */
  lemma PlainNoPatterns(b: string)
    requires PlainBase(b)
    ensures forall i: nat :: !OccursAt(b, "const ", i) && !OccursAt(b, " const", i)
    ensures forall i: nat :: !OccursAt(b, "volatile ", i) && !OccursAt(b, " volatile", i)
  {
    forall i: nat ensures !OccursAt(b, "const ", i) && !OccursAt(b, " const", i)
      && !OccursAt(b, "volatile ", i) && !OccursAt(b, " volatile", i)
    {
      if OccursAt(b, "const ", i) { OccursSplit(b, "const", " ", i); }
      if OccursAt(b, " const", i) { OccursSplit(b, " ", "const", i); }
      if OccursAt(b, "volatile ", i) { OccursSplit(b, "volatile", " ", i); }
      if OccursAt(b, " volatile", i) { OccursSplit(b, " ", "volatile", i); }
    }
  }

  /** A pattern without stars that is not in b is not in b followed by stars. */
  lemma AbsentBeforeStars(b: string, n: nat, pat: string)
    requires |pat| > 0 && '*' !in pat
    requires forall i: nat :: !OccursAt(b, pat, i)
    ensures forall i: nat :: !OccursAt(b + GetPointers(n), pat, i)
  {
    var t := b + GetPointers(n);
    forall i: nat ensures !OccursAt(t, pat, i) {
      if i + |pat| <= |b| {
        if OccursAt(t, pat, i) {
          OccursInFront(b, GetPointers(n), pat, i);
        }
      } else if i + |pat| <= |t| {
        var j := if i < |b| then |b| else i;
        assert t[i..i + |pat|][j - i] == t[j] == '*';
        assert pat[j - i] != '*';
      }
    }
  }

  /** An occurrence of a pattern whose only space is at k cannot start in b
    * and run into a y that starts with a space, when b holds neither the
    * pattern nor the part of it before the space. */
  lemma KeepPlainFront(b: string, y: string, pat: string, k: nat)
    requires k < |pat| && pat[k] == ' ' && forall m :: 0 <= m < |pat| && m != k ==> pat[m] != ' '
    requires |y| > 0 && y[0] == ' '
    requires forall i: nat :: !OccursAt(b, pat, i)
    requires k > 0 ==> forall i: nat :: !OccursAt(b, pat[..k], i)
    ensures forall i: nat :: i < |b| ==> !OccursAt(b + y, pat, i)
  {
    forall i: nat | i < |b| ensures !OccursAt(b + y, pat, i) {
      if OccursAt(b + y, pat, i) {
        if i + |pat| <= |b| {
          OccursInFront(b, y, pat, i);
        } else {
          OccursAcross(b, y, pat, i);
        }
      }
    }
  }

  /** A plain base followed by stars holds none of the four qualifier
    * patterns, so cleanCType leaves it unchanged. */
  lemma PlainBaseUnqualified(b: string, n: nat)
    requires PlainBase(b)
    ensures forall i: nat :: !OccursAt(b + GetPointers(n), "const", i)
    ensures forall i: nat :: !OccursAt(b + GetPointers(n), "const ", i)
    ensures forall i: nat :: !OccursAt(b + GetPointers(n), " const", i)
    ensures forall i: nat :: !OccursAt(b + GetPointers(n), "volatile ", i)
    ensures forall i: nat :: !OccursAt(b + GetPointers(n), " volatile", i)
    ensures CleanCType(b + GetPointers(n)) == b + GetPointers(n)
  {
    PlainNoPatterns(b);
    AbsentBeforeStars(b, n, "const");
    AbsentBeforeStars(b, n, "const ");
    AbsentBeforeStars(b, n, " const");
    AbsentBeforeStars(b, n, "volatile ");
    AbsentBeforeStars(b, n, " volatile");
    CleanCTypeUnqualified(b + GetPointers(n));
  }

  /** A leading "const " is dropped: "const gchar*" cleans to "gchar*". */
  lemma CleanLeadingConst(b: string, n: nat)
    requires PlainBase(b)
    ensures CleanCType("const " + b + GetPointers(n)) == b + GetPointers(n)
  {
    var t := b + GetPointers(n);
    PlainBaseUnqualified(b, n);
    assert "const " + b + GetPointers(n) == "const " + t;
    ReplaceAllFront("const ", t, "");
    ReplaceAllAbsent(t, "const ", "");
    assert ReplaceAll("const " + t, "const ", "") == t;
    ReplaceAllAbsent(t, " const", "");
    ReplaceAllAbsent(t, "volatile ", "");
    ReplaceAllAbsent(t, " volatile", "");
    CleanCTypeSteps("const " + t, t, t, t, t);
  }

  /** "volatile " followed by a plain base and stars: the first two removals
    * find nothing to remove. */
  lemma LeadingVolatileKeptByConst(b: string, n: nat)
    requires PlainBase(b)
    ensures ReplaceAll("volatile " + b + GetPointers(n), "const ", "") == "volatile " + b + GetPointers(n)
    ensures ReplaceAll("volatile " + b + GetPointers(n), " const", "") == "volatile " + b + GetPointers(n)
  {
    var t := b + GetPointers(n);
    var v := "volatile ";
    PlainBaseUnqualified(b, n);
    assert "volatile " + b + GetPointers(n) == v + t;
    forall i: nat | i < |v| ensures !OccursAt(v + t, "const ", i) && !OccursAt(v + t, " const", i) {
      if i + 6 <= |v + t| {
        assert (v + t)[i..i + 6][0] == v[i];
        if i == 8 {
          assert t[..5] == (v + t)[i..i + 6][1..];
          assert !OccursAt(t, "const", 0);
        }
      }
    }
    ReplaceAllKeepFront(v, t, "const ", "");
    ReplaceAllAbsent(t, "const ", "");
    ReplaceAllKeepFront(v, t, " const", "");
    ReplaceAllAbsent(t, " const", "");
  }

  /** The C type GLib uses for strings: "const gchar*" cleans to "gchar*". */
  lemma CleanConstGchar()
    ensures CleanCType("const gchar*") == "gchar*"
  {
    var g := "gchar";
    var star := GetPointers(1);
    assert star == "*";
    NoOccurrence(g, "const", 1);
    NoOccurrence(g, "volatile", 0);
    CleanLeadingConst(g, 1);
    assert "const " + g + star == "const gchar*";
    assert g + star == "gchar*";
  }

  /** A leading "volatile " is dropped as well. */
  lemma CleanLeadingVolatile(b: string, n: nat)
    requires PlainBase(b)
    ensures CleanCType("volatile " + b + GetPointers(n)) == b + GetPointers(n)
  {
    var t := b + GetPointers(n);
    LeadingVolatileKeptByConst(b, n);
    PlainBaseUnqualified(b, n);
    assert "volatile " + b + GetPointers(n) == "volatile " + t;
    ReplaceAllFront("volatile ", t, "");
    ReplaceAllAbsent(t, "volatile ", "");
    ReplaceAllAbsent(t, " volatile", "");
    CleanCTypeSteps("volatile " + t, "volatile " + t, "volatile " + t, t, t);
  }

  /** A space-led qualifier followed by stars holds no occurrence of
    * "const " or "volatile ": the character after the word is a star. */
  lemma QualifierThenStars(n: nat)
    ensures forall i: nat :: !OccursAt(" const" + GetPointers(n), "const ", i)
    ensures forall i: nat :: !OccursAt(" volatile" + GetPointers(n), "const ", i)
    ensures forall i: nat :: !OccursAt(" volatile" + GetPointers(n), " const", i)
    ensures forall i: nat :: !OccursAt(" volatile" + GetPointers(n), "volatile ", i)
  {
    var y := " const" + GetPointers(n);
    var z := " volatile" + GetPointers(n);
    forall i: nat ensures !OccursAt(y, "const ", i) {
      if i + 6 <= |y| {
        assert y[i..i + 6][0] == y[i];
        if i == 1 {
          assert y[i..i + 6][5] == y[6] == '*';
        }
      }
    }
    assert 'c' !in z;
    NoOccurrence(z, "const ", 0);
    NoOccurrence(z, " const", 1);
    forall i: nat ensures !OccursAt(z, "volatile ", i) {
      if i + 9 <= |z| {
        assert z[i..i + 9][0] == z[i];
        if i == 1 {
          assert z[i..i + 9][8] == z[9] == '*';
        }
      }
    }
  }

  /** A trailing " const" before the stars is dropped: "gchar const*"
    * cleans to "gchar*". */
  lemma CleanTrailingConst(b: string, n: nat)
    requires PlainBase(b)
    ensures CleanCType(b + " const" + GetPointers(n)) == b + GetPointers(n)
  {
    var stars := GetPointers(n);
    TrailingConstRemoved(b, n);
    PlainBaseUnqualified(b, n);
    ReplaceAllAbsent(b + stars, "volatile ", "");
    ReplaceAllAbsent(b + stars, " volatile", "");
    CleanCTypeSteps(b + " const" + stars, b + " const" + stars, b + stars, b + stars, b + stars);
  }

  /** The two const removals keep b + " const" + stars, then drop its " const". */
  lemma TrailingConstRemoved(b: string, n: nat)
    requires PlainBase(b)
    ensures ReplaceAll(b + " const" + GetPointers(n), "const ", "") == b + " const" + GetPointers(n)
    ensures ReplaceAll(b + " const" + GetPointers(n), " const", "") == b + GetPointers(n)
  {
    var stars := GetPointers(n);
    var y := " const" + stars;
    assert b + " const" + GetPointers(n) == b + y;
    PlainNoPatterns(b);
    QualifierThenStars(n);
    assert "const "[..5] == "const";
    KeepPlainFront(b, y, "const ", 5);
    ReplaceAllKeepFront(b, y, "const ", "");
    ReplaceAllAbsent(y, "const ", "");
    KeepPlainFront(b, y, " const", 0);
    ReplaceAllKeepFront(b, y, " const", "");
    ReplaceAllFront(" const", stars, "");
    NoOccurrence(stars, " const", 0);
    ReplaceAllAbsent(stars, " const", "");
  }

  /** The first three removals leave b + " volatile" + stars unchanged. */
  lemma TrailingVolatileKept(b: string, n: nat)
    requires PlainBase(b)
    ensures ReplaceAll(b + " volatile" + GetPointers(n), "const ", "") == b + " volatile" + GetPointers(n)
    ensures ReplaceAll(b + " volatile" + GetPointers(n), " const", "") == b + " volatile" + GetPointers(n)
    ensures ReplaceAll(b + " volatile" + GetPointers(n), "volatile ", "") == b + " volatile" + GetPointers(n)
  {
    var stars := GetPointers(n);
    var y := " volatile" + stars;
    assert b + " volatile" + GetPointers(n) == b + y;
    TrailingVolatileNoConst(b, n);
    PlainNoPatterns(b);
    QualifierThenStars(n);
    assert "volatile "[..8] == "volatile";
    KeepPlainFront(b, y, "volatile ", 8);
    ReplaceAllKeepFront(b, y, "volatile ", "");
    ReplaceAllAbsent(y, "volatile ", "");
  }

  /** Neither const removal touches b + " volatile" + stars. */
  lemma TrailingVolatileNoConst(b: string, n: nat)
    requires PlainBase(b)
    ensures ReplaceAll(b + " volatile" + GetPointers(n), "const ", "") == b + " volatile" + GetPointers(n)
    ensures ReplaceAll(b + " volatile" + GetPointers(n), " const", "") == b + " volatile" + GetPointers(n)
  {
    var stars := GetPointers(n);
    var y := " volatile" + stars;
    assert b + " volatile" + GetPointers(n) == b + y;
    PlainNoPatterns(b);
    QualifierThenStars(n);
    assert "const "[..5] == "const";
    KeepPlainFront(b, y, "const ", 5);
    ReplaceAllKeepFront(b, y, "const ", "");
    ReplaceAllAbsent(y, "const ", "");
    KeepPlainFront(b, y, " const", 0);
    ReplaceAllKeepFront(b, y, " const", "");
    ReplaceAllAbsent(y, " const", "");
  }

  /** A trailing " volatile" before the stars is dropped as well. */
  lemma CleanTrailingVolatile(b: string, n: nat)
    requires PlainBase(b)
    ensures CleanCType(b + " volatile" + GetPointers(n)) == b + GetPointers(n)
  {
    var stars := GetPointers(n);
    var y := " volatile" + stars;
    TrailingVolatileKept(b, n);
    assert b + " volatile" + GetPointers(n) == b + y;
    PlainNoPatterns(b);
    KeepPlainFront(b, y, " volatile", 0);
    ReplaceAllKeepFront(b, y, " volatile", "");
    ReplaceAllFront(" volatile", stars, "");
    NoOccurrence(stars, " volatile", 0);
    ReplaceAllAbsent(stars, " volatile", "");
    CleanCTypeSteps(b + y, b + y, b + y, b + y, b + stars);
  }

  /** CTypeFromAnytype: the array's C type when there is an array, else the
    * type's; an AnyType with neither is an error (a panic in the source). */
  function CTypeFromAnytype(t: AnyType): (r: Result<string>)
    ensures r.Err? <==> t.arr.None? && t.typ.None?
    ensures t.arr.Some? ==> r == Ok(t.arr.value.ctype)
    ensures t.arr.None? && t.typ.Some? ==> r == Ok(t.typ.value.ctype)
  {
    if t.arr.Some? then Ok(t.arr.value.ctype)
    else if t.typ.Some? then Ok(t.typ.value.ctype)
    else Err("invalid anytype")
  }

  /** C primitive names that cgo spells differently. */
  const CgoPrimitiveTypes: Table := [
    ("long long", "longlong"),
    ("unsigned char", "uchar"),
    ("unsigned int", "uint"),
    ("unsigned short", "ushort"),
    ("unsigned long", "ulong"),
    ("unsigned long long", "ulonglong")
  ]

  lemma CgoPrimitiveNamesPlain()
    ensures forall i :: 0 <= i < |CgoPrimitiveTypes| ==> '*' !in CgoPrimitiveTypes[i].1
  {
  }

  /** The base name cgo uses for a C type without stars. */
  function CgoBase(base: string): (r: string)
    ensures '*' !in base ==> '*' !in r
    ensures Lookup(CgoPrimitiveTypes, base).Some? ==> r == Lookup(CgoPrimitiveTypes, base).value
    ensures Lookup(CgoPrimitiveTypes, base).None? ==> r == base
  {
    match Lookup(CgoPrimitiveTypes, base)
    case Some(renamed) =>
      LookupFirst(CgoPrimitiveTypes, base);
      CgoPrimitiveNamesPlain();
      renamed
    case None => base
  }

  /** CtypeToCgoType: "void*" is unsafe.Pointer; anything else is as many
    * stars as the C type has, then "C.", then the unqualified, star-free
    * base with cgo's primitive renames. */
  function CtypeToCgoType(ctype: string): (r: string)
    ensures ctype == "void*" ==> r == "unsafe.Pointer"
    ensures ctype != "void*" ==>
      var n := CountCTypePointers(ctype);
      |r| >= n + 2 && r[..n] == GetPointers(n) && r[n..n + 2] == "C." && '*' !in r[n + 2..]
      && r[n + 2..] == CgoBase(TrimCTypePointers(CleanCType(ctype)))
  {
    if ctype == "void*" then "unsafe.Pointer"
    else
      var n := CountCTypePointers(ctype);
      var base := CgoBase(TrimCTypePointers(CleanCType(ctype)));
      var r := GetPointers(n) + "C." + base;
      assert r[n + 2..] == base;
      r
  }

  /** Apart from "void*", the cgo spelling has exactly the C type's stars. */
  lemma CtypeToCgoTypeKeepsPointers(ctype: string)
    requires ctype != "void*"
    ensures CountCTypePointers(CtypeToCgoType(ctype)) == CountCTypePointers(ctype)
  {
    var r := CtypeToCgoType(ctype);
    var n := CountCTypePointers(ctype);
    assert r == r[..n] + r[n..n + 2] + r[n + 2..];
    CountAppend(r[..n] + r[n..n + 2], r[n + 2..], '*');
    CountAppend(r[..n], r[n..n + 2], '*');
  }

  /** A renamed primitive keeps its stars: "unsigned int*" is "*C.uint". */
  lemma CtypeToCgoTypeRenames(ctype: string)
    requires ctype == "unsigned int*"
    ensures CtypeToCgoType(ctype) == "*C.uint"
  {
    var base := "unsigned int";
    assert ctype == base + GetPointers(1);
    PlainBaseWithPointers(base, 1);
    CgoBaseUnsignedInt(base);
  }

  /** A base without stars or qualifier letters, followed by n stars, comes
    * back as that base from cleaning and trimming. */
  lemma PlainBaseWithPointers(base: string, n: nat)
    requires '*' !in base && 'c' !in base && 'v' !in base
    ensures CountCTypePointers(base + GetPointers(n)) == n
    ensures TrimCTypePointers(CleanCType(base + GetPointers(n))) == base
  {
    var ctype := base + GetPointers(n);
    assert 'c' !in ctype && 'v' !in ctype;
    NoOccurrence(ctype, "const ", 0);
    NoOccurrence(ctype, " const", 1);
    NoOccurrence(ctype, "volatile ", 0);
    NoOccurrence(ctype, " volatile", 1);
    CleanCTypeUnqualified(ctype);
    RemoveCharAbsent(base, '*');
    BaseWithPointers(base, n);
    ReplaceAllRemovesChar(base, '*');
  }

  /** A "const "-qualified plain base keeps its stars and loses the
    * qualifier in cgo: "const gchar**" is "**C.gchar". */
  lemma CgoTypeOfConst(b: string, n: nat)
    requires PlainBase(b)
    ensures CtypeToCgoType("const " + b + GetPointers(n)) == GetPointers(n) + "C." + CgoBase(b)
  {
    var ctype := "const " + b + GetPointers(n);
    assert ctype[0] == 'c';
    CleanLeadingConst(b, n);
    RemoveCharAbsent(b, '*');
    BaseWithPointers(b, n);
    ReplaceAllRemovesChar(b, '*');
    CountAppend("const " + b, GetPointers(n), '*');
    CountAppend("const ", b, '*');
    RemoveCharAbsent("const ", '*');
    ReplaceAllRemovesChar("const ", '*');
  }

  lemma CgoBaseUnsignedInt(base: string)
    requires base == "unsigned int"
    ensures CgoBase(base) == "uint"
  {
    assert CgoPrimitiveTypes[2] == (base, "uint");
    LookupFirst(CgoPrimitiveTypes, base);
  }

  // ---------------------------------------------------------------------------
  // Go package names

  /** goPackageName: the letters and digits of a GIR package name, lowered
    * (ASCII letters only). */
  function GoPackageName(name: string): (r: string)
    ensures |r| <= |name|
    ensures forall i :: 0 <= i < |r| ==> IsLower(r[i]) || IsDigit(r[i])
  {
    if name == [] then []
    else
      (if IsLetter(name[0]) || IsDigit(name[0]) then [ToLowerChar(name[0])] else [])
      + GoPackageName(name[1..])
  }

  lemma {:induction false} GoPackageNameAppend(a: string, b: string)
    ensures GoPackageName(a + b) == GoPackageName(a) + GoPackageName(b)
  {
    if a != [] {
      assert (a + b)[1..] == a[1..] + b;
      GoPackageNameAppend(a[1..], b);
    } else {
      assert a + b == b;
    }
  }

  /** A name that is already lower-case letters and digits is its own
    * package name. */
  lemma {:induction false} GoPackageNameKeepsPlain(name: string)
    requires forall i :: 0 <= i < |name| ==> IsLower(name[i]) || IsDigit(name[i])
    ensures GoPackageName(name) == name
  {
    if name != [] {
      GoPackageNameKeepsPlain(name[1..]);
    }
  }

  /** Applying goPackageName twice changes nothing more. */
  lemma GoPackageNameIdempotent(name: string)
    ensures GoPackageName(GoPackageName(name)) == GoPackageName(name)
  {
    GoPackageNameKeepsPlain(GoPackageName(name));
  }
}
