/** Enumeration and bitfield members (member.go): the member value is read
  * as a C integer literal and wrapped to Go's int32, and Uniques keeps one
  * member per value, ordered by Go name. */
module Members {
  import opened Wrappers
  import opened Strings
  import opened CustomAttrs
  import Gir
  import StrCases
  import opened Env

  // ---------------------------------------------------------------------------
  // strconv.ParseInt(value, 0, 64)

  /** The value of a digit in bases up to 36; 36 marks a character that is
    * no digit in any base. */
  function DigitValue(c: char): (d: nat)
    ensures d <= 36
    ensures IsDigit(c) ==> d == c as int - '0' as int
  {
    if IsDigit(c) then c as int - '0' as int
    else if 'a' <= c <= 'z' then c as int - 'a' as int + 10
    else if 'A' <= c <= 'Z' then c as int - 'A' as int + 10
    else 36
  }

  predicate DigitsIn(s: string, base: nat) {
    forall i :: 0 <= i < |s| ==> DigitValue(s[i]) < base
  }

  /** The value of a digit string in the given base, most significant digit
    * first. */
  function ValueIn(s: string, base: nat): nat
    requires DigitsIn(s, base)
  {
    if s == [] then 0 else ValueIn(s[..|s| - 1], base) * base + DigitValue(s[|s| - 1])
  }

  /** Base 0: "0x"/"0X" is hexadecimal, "0b"/"0B" binary, "0o"/"0O" octal
    * (each only with at least one character after the prefix), any other
    * leading "0" octal, everything else decimal; the digits follow. */
  function BaseOf(s: string): (r: (nat, string))
    requires s != []
    ensures r.0 in {2, 8, 10, 16}
    ensures r.0 == 10 <==> s[0] != '0'
    ensures r.0 == 10 ==> r.1 == s
  {
    if s[0] != '0' then (10, s)
    else if |s| >= 3 && (s[1] == 'b' || s[1] == 'B') then (2, s[2..])
    else if |s| >= 3 && (s[1] == 'o' || s[1] == 'O') then (8, s[2..])
    else if |s| >= 3 && (s[1] == 'x' || s[1] == 'X') then (16, s[2..])
    else (8, s[1..])
  }

  /** strconv.ParseUint(s, 0, 64) without the 64-bit limit: an empty text
    * or a character that is no digit of the base is a syntax error. */
  function ParseUnsigned(s: string): (r: Result<nat>)
    ensures s == [] ==> r.Err?
  {
    if s == [] then Err("invalid syntax")
    else
      var (base, digits) := BaseOf(s);
      if DigitsIn(digits, base) then Ok(ValueIn(digits, base)) else Err("invalid syntax")
  }

  /** strconv.ParseInt(s, 0, 64): an optional sign, then an unsigned
    * literal; a value outside int64 is a range error. */
  function ParseInt(s: string): (r: Result<int>)
    ensures r.Ok? ==> InInt64(r.value)
    ensures s == [] ==> r.Err?
  {
    if s == [] then Err("invalid syntax")
    else
      var neg := s[0] == '-';
      var rest := if s[0] == '-' || s[0] == '+' then s[1..] else s;
      match ParseUnsigned(rest)
      case Err(m) => Err(m)
      case Ok(u) =>
        var v := if neg then -(u as int) else u;
        if InInt64(v) then Ok(v) else Err("value out of range")
  }

  // ---------------------------------------------------------------------------
  // int32 conversion

  const TwoTo32: int := 0x1_0000_0000
  const MinInt32: int := -0x8000_0000
  const MaxInt32: int := 0x7FFF_FFFF

  /** Go's int32(v): the low 32 bits of v read as two's complement. */
  function Wrap32(v: int): (w: int)
    ensures MinInt32 <= w <= MaxInt32
    ensures (w - v) % TwoTo32 == 0
  {
    (v - MinInt32) % TwoTo32 + MinInt32
  }

  /** int32 conversion keeps every value that fits. */
  lemma Wrap32Identity(v: int)
    requires MinInt32 <= v <= MaxInt32
    ensures Wrap32(v) == v
  {
  }

  /** int32 conversion only depends on v modulo 2^32. */
  lemma Wrap32Periodic(v: int, k: int)
    ensures Wrap32(v + k * TwoTo32) == Wrap32(v)
  {
    var a := v - MinInt32;
    assert (a + k * TwoTo32) % TwoTo32 == a % TwoTo32 by {
      ModAddMultiple(a, k);
    }
  }

  lemma ModAddMultiple(a: int, k: int)
    ensures (a + k * TwoTo32) % TwoTo32 == a % TwoTo32
  {
    var q := a / TwoTo32;
    var r := a % TwoTo32;
    assert a + k * TwoTo32 == (q + k) * TwoTo32 + r;
  }

  /** valueToInt32: the literal read as int64 and printed in decimal after
    * the int32 conversion; a value that does not parse is a panic in the
    * source. */
  function ValueToInt32(value: string): (r: Result<string>)
    ensures r.Ok? <==> ParseInt(value).Ok?
    ensures r.Ok? ==> r.value != [] && '.' !in r.value
  {
    match ParseInt(value)
    case Err(m) => Err("value is not a valid integer")
    case Ok(v) => Ok(FormatInt(Wrap32(v)))
  }

  /** The printed value is an int32 that reads back with strconv.Atoi and
    * agrees with the parsed literal modulo 2^32. */
  lemma ValueToInt32Reads(value: string)
    requires ValueToInt32(value).Ok?
    ensures Atoi(ValueToInt32(value).value).Ok?
    ensures var w := Atoi(ValueToInt32(value).value).value;
            MinInt32 <= w <= MaxInt32 && (w - ParseInt(value).value) % TwoTo32 == 0
  {
    AtoiFormatInt(Wrap32(ParseInt(value).value));
  }

  lemma NatDigitsLead(n: nat)
    requires n > 0
    ensures NatDigits(n)[0] != '0'
  {
    if n >= 10 {
      NatDigitsLead(n / 10);
    }
  }

  lemma {:induction false} DecimalValue(s: string)
    requires AllDigits(s)
    ensures DigitsIn(s, 10) && ValueIn(s, 10) == DigitsValue(s)
  {
    if s != [] {
      DecimalValue(s[..|s| - 1]);
    }
  }

  lemma ParseNat(n: nat)
    ensures ParseUnsigned(NatDigits(n)) == Ok(n)
  {
    NatDigitsValue(n);
    DecimalValue(NatDigits(n));
    if n == 0 {
      assert NatDigits(0) == "0" == ['0'];
      assert "0"[1..] == [];
      assert BaseOf("0") == (8, []);
    } else {
      NatDigitsLead(n);
    }
  }

  /** What fmt prints in decimal, ParseInt reads back. */
  lemma ParseIntFormatInt(n: int)
    requires InInt64(n)
    ensures ParseInt(FormatInt(n)) == Ok(n)
  {
    if n < 0 {
      var s := FormatInt(n);
      assert s[1..] == NatDigits(-n);
      ParseNat(-n);
    } else {
      ParseNat(n);
      NatDigitsLead1(n);
    }
  }

  lemma NatDigitsLead1(n: nat)
    ensures NatDigits(n)[0] != '-' && NatDigits(n)[0] != '+'
  {
    if n >= 10 {
      NatDigitsLead1(n / 10);
    }
  }

  /** A decimal int32 value comes out as it went in. */
  lemma ValueToInt32KeepsInt32(n: int)
    requires MinInt32 <= n <= MaxInt32
    ensures ValueToInt32(FormatInt(n)) == Ok(FormatInt(n))
  {
    ParseIntFormatInt(n);
    Wrap32Identity(n);
  }

  /** An unsigned literal within int64 goes through the int32 conversion
    * unchanged otherwise. */
  lemma ValueToInt32Unsigned(s: string, u: nat)
    requires s != [] && s[0] != '-' && s[0] != '+'
    requires ParseUnsigned(s) == Ok(u) && u <= MaxInt64
    ensures ValueToInt32(s) == Ok(FormatInt(Wrap32(u)))
  {
  }

  /** A hexadecimal value beyond int32 wraps around. */
  lemma ValueToInt32WrapsHex()
    ensures ValueToInt32("0xFFFFFFFF") == Ok("-1")
  {
    assert ParseUnsigned("0xFFFFFFFF") == Ok(0xFFFF_FFFF) by {
      assert BaseOf("0xFFFFFFFF") == (16, "FFFFFFFF");
      HexFs(8);
      assert "FFFFFFFF" == Repeated('F', 8);
    }
    ValueToInt32Unsigned("0xFFFFFFFF", 0xFFFF_FFFF);
    assert Wrap32(0xFFFF_FFFF) == -1 by {
      Wrap32Periodic(-1, 1);
      Wrap32Identity(-1);
    }
    assert FormatInt(-1) == "-1" by {
      assert NatDigits(1) == "1";
    }
  }

  /** A leading zero reads the rest as octal digits; a lone zero is
    * zero. */
  lemma ParseOctal(d: string)
    requires DigitsIn(d, 8)
    ensures ParseUnsigned("0" + d) == Ok(ValueIn(d, 8))
  {
    var s := "0" + d;
    assert s[1..] == d;
    if |s| >= 3 {
      assert DigitValue(d[0]) < 8;
    }
  }

  lemma ValueToInt32Octal()
    ensures ValueToInt32("010") == Ok("8")
  {
    ParseOctal("10");
    assert "010" == "0" + "10";
    assert ValueIn("10", 8) == 8 by {
      assert "10"[..1] == "1";
    }
    ValueToInt32Unsigned("010", 8);
    Wrap32Identity(8);
    assert FormatInt(8) == "8" by {
      assert NatDigits(8) == "8";
    }
  }

  lemma ValueToInt32Zero()
    ensures ValueToInt32("0") == Ok("0")
  {
    ParseOctal("");
    assert "0" == "0" + "";
    ValueToInt32Unsigned("0", 0);
    Wrap32Identity(0);
    assert FormatInt(0) == "0" by {
      assert NatDigits(0) == "0";
    }
  }

  /** An empty literal, a bare "0x" prefix, an 8 among octal digits and a
    * decimal point are all rejected. */
  lemma ValueToInt32Rejects()
    ensures ValueToInt32("").Err?
    ensures ValueToInt32("0x").Err?
    ensures ValueToInt32("08").Err?
    ensures ValueToInt32("1.5").Err?
  {
    assert BaseOf("0x") == (8, "x");
    assert !DigitsIn("x", 8) by { assert DigitValue("x"[0]) == 33; }
    assert BaseOf("08") == (8, "8");
    assert !DigitsIn("8", 8) by { assert DigitValue("8"[0]) == 8; }
    assert !DigitsIn("1.5", 10) by { assert DigitValue("1.5"[1]) == 36; }
  }

  function Repeated(c: char, n: nat): (s: string)
    ensures |s| == n && forall i :: 0 <= i < n ==> s[i] == c
  {
    if n == 0 then [] else Repeated(c, n - 1) + [c]
  }

  function Pow16(n: nat): nat {
    if n == 0 then 1 else 16 * Pow16(n - 1)
  }

  lemma {:induction false} HexFs(n: nat)
    ensures DigitsIn(Repeated('F', n), 16) && ValueIn(Repeated('F', n), 16) == Pow16(n) - 1
  {
    if n > 0 {
      HexFs(n - 1);
      assert Repeated('F', n)[..n - 1] == Repeated('F', n - 1);
    }
  }

  lemma {:induction false} HexEightThenZeros(n: nat)
    ensures DigitsIn("8" + Repeated('0', n), 16) && ValueIn("8" + Repeated('0', n), 16) == 8 * Pow16(n)
  {
    if n > 0 {
      HexEightThenZeros(n - 1);
      assert ("8" + Repeated('0', n))[..n] == "8" + Repeated('0', n - 1);
    }
  }

  // ---------------------------------------------------------------------------
  // Members

  /** A generated member: its C identifier, Go name and int32 value text. */
  datatype Member = Member(cIdentifier: string, goIdentifier: string, cGoIdentifier: string, value: string)

  /** NewMember: nothing for a non-introspectable or skipped member; the Go
    * name is the lower-cased C identifier in PascalCase with the
    * namespace's identifier prefix removed. `info` is the member's info
    * attributes and `ignored` the configured ignore function's answer. */
  function NewMember(e: Env, m: Gir.Member, info: Gir.InfoAttrs, ignored: bool): (r: Result<Option<Member>>)
    ensures !Gir.IsIntrospectable(info) || Skip(e, Gir.MemberName(m), info, ignored) ==> r == Ok(None)
    ensures Gir.IsIntrospectable(info) && !Skip(e, Gir.MemberName(m), info, ignored) ==>
              (r.Ok? <==> ParseInt(m.value).Ok?)
    ensures r.Ok? && r.value.Some? ==>
              r.value.value.cGoIdentifier == "C." + m.cIdentifier &&
              Atoi(r.value.value.value).Ok?
    ensures r.Ok? && r.value.Some? ==>
              r.value.value.cIdentifier == m.cIdentifier &&
              r.value.value.value == ValueToInt32(m.value).value &&
              r.value.value.goIdentifier ==
                IdentifierToGo(e.identifierPrefixes, StrCases.SnakeToGo(true, ToLower(m.cIdentifier)))
  {
    if !Gir.IsIntrospectable(info) || Skip(e, Gir.MemberName(m), info, ignored) then Ok(None)
    else
      match ValueToInt32(m.value)
      case Err(msg) => Err(msg)
      case Ok(v) =>
        ValueToInt32Reads(m.value);
        var goName := IdentifierToGo(e.identifierPrefixes, StrCases.SnakeToGo(true, ToLower(m.cIdentifier)));
        Ok(Some(Member(m.cIdentifier, goName, "C." + m.cIdentifier, v)))
  }

  /** Whether m is the first member in ms carrying m's value. */
  predicate FirstOfValue(ms: seq<Member>, m: Member) {
    exists i :: 0 <= i < |ms| && ms[i] == m && forall j :: 0 <= j < i ==> ms[j].value != m.value
  }

  /** The map Uniques builds: each value to its first member. */
  function FirstByValue(ms: seq<Member>): map<string, Member> {
    if ms == [] then map[]
    else
      var u := FirstByValue(ms[..|ms| - 1]);
      var last := ms[|ms| - 1];
      if last.value in u then u else u[last.value := last]
  }

  /** Every value of the input is a key, and each key maps to the first
    * member carrying it. */
  lemma {:induction false} FirstByValueSpec(ms: seq<Member>)
    ensures forall i :: 0 <= i < |ms| ==> ms[i].value in FirstByValue(ms)
    ensures forall v :: v in FirstByValue(ms) ==>
              FirstByValue(ms)[v].value == v && FirstOfValue(ms, FirstByValue(ms)[v])
  {
    if ms != [] {
      var init := ms[..|ms| - 1];
      FirstByValueSpec(init);
      var u := FirstByValue(init);
      var last := ms[|ms| - 1];
      var r := FirstByValue(ms);
      forall v | v in u
        ensures FirstOfValue(ms, u[v])
      {
        FirstOfValuePrefix(init, ms, u[v]);
      }
      if last.value !in u {
        assert forall j :: 0 <= j < |init| ==> ms[j].value != last.value;
        assert FirstOfValue(ms, last) by {
          assert ms[|ms| - 1] == last;
        }
      }
      forall i | 0 <= i < |ms|
        ensures ms[i].value in r
      {
        if i < |init| {
          assert ms[i] == init[i];
        }
      }
    }
  }

  /** The first member of a value in a prefix stays first in the whole. */
  lemma FirstOfValuePrefix(init: seq<Member>, ms: seq<Member>, m: Member)
    requires |init| <= |ms| && init == ms[..|init|] && FirstOfValue(init, m)
    ensures FirstOfValue(ms, m)
  {
    var i :| 0 <= i < |init| && init[i] == m && forall j :: 0 <= j < i ==> init[j].value != m.value;
    assert ms[i] == m;
    assert forall j :: 0 <= j < i ==> ms[j] == init[j];
  }

  /** Some element of s carries the value v. */
  predicate HasValue(s: seq<Member>, v: string) {
    exists k :: 0 <= k < |s| && s[k].value == v
  }

  predicate DistinctValues(s: seq<Member>) {
    forall i, j :: 0 <= i < j < |s| ==> s[i].value != s[j].value
  }

  /** The walk over the map: every entry once, in an order the model leaves
    * open (Go's map iteration order is unspecified). */
  method MapEntries(unique: map<string, Member>) returns (entries: seq<Member>)
    requires forall v :: v in unique ==> unique[v].value == v
    ensures DistinctValues(entries)
    ensures forall k :: 0 <= k < |entries| ==> entries[k].value in unique && unique[entries[k].value] == entries[k]
    ensures forall v :: v in unique ==> HasValue(entries, v)
  {
    entries := [];
    var keys := unique.Keys;
    while keys != {}
      invariant keys <= unique.Keys
      invariant forall k :: 0 <= k < |entries| ==>
                  entries[k].value in unique && entries[k].value !in keys && unique[entries[k].value] == entries[k]
      invariant forall v :: v in unique && v !in keys ==> HasValue(entries, v)
      invariant DistinctValues(entries)
      decreases keys
    {
      var v :| v in keys;
      var prev := entries;
      var last := |entries|;
      entries := entries + [unique[v]];
      keys := keys - {v};
      forall w | w in unique && w !in keys
        ensures HasValue(entries, w)
      {
        if w == v {
          assert entries[last].value == w;
        } else {
          var k :| 0 <= k < |prev| && prev[k].value == w;
          assert entries[k].value == w;
        }
      }
    }
  }

  /** Members.Uniques: the first member of every value, in Go-name order. */
  method Uniques(ms: seq<Member>) returns (r: seq<Member>)
    ensures DistinctValues(r)
    ensures forall i :: 0 <= i < |r| ==> FirstOfValue(ms, r[i])
    ensures forall i :: 0 <= i < |ms| ==> HasValue(r, ms[i].value)
    ensures SortedBy(r, (m: Member) => m.goIdentifier)
  {
    var unique: map<string, Member> := map[];
    for i := 0 to |ms|
      invariant unique == FirstByValue(ms[..i])
    {
      assert ms[..i + 1][..i] == ms[..i];
      if ms[i].value !in unique {
        unique := unique[ms[i].value := ms[i]];
      }
    }
    assert ms[..|ms|] == ms;
    FirstByValueSpec(ms);
    var uniques := MapEntries(unique);
    r := SortByKey(uniques, (m: Member) => m.goIdentifier);
    SameEntries(ms, unique, uniques, r);
  }

  /** Sorting the map's entries keeps what they say about the input. */
  lemma SameEntries(ms: seq<Member>, unique: map<string, Member>, uniques: seq<Member>, r: seq<Member>)
    requires forall i :: 0 <= i < |ms| ==> ms[i].value in unique
    requires forall v :: v in unique ==> unique[v].value == v && FirstOfValue(ms, unique[v])
    requires DistinctValues(uniques)
    requires forall k :: 0 <= k < |uniques| ==> uniques[k].value in unique && unique[uniques[k].value] == uniques[k]
    requires forall v :: v in unique ==> HasValue(uniques, v)
    requires multiset(r) == multiset(uniques)
    ensures DistinctValues(r)
    ensures forall i :: 0 <= i < |r| ==> FirstOfValue(ms, r[i])
    ensures forall i :: 0 <= i < |ms| ==> HasValue(r, ms[i].value)
  {
    forall i | 0 <= i < |r|
      ensures r[i] in uniques && unique[r[i].value] == r[i]
    {
      assert r[i] in multiset(r);
    }
    forall i | 0 <= i < |ms|
      ensures HasValue(r, ms[i].value)
    {
      var n :| 0 <= n < |uniques| && uniques[n].value == ms[i].value;
      Covered(uniques, r, n);
    }
    forall i, j | 0 <= i < j < |r|
      ensures r[i].value != r[j].value
    {
      if r[i].value == r[j].value {
        TwiceCounted(r, i, j);
        DistinctCount(uniques, r[i]);
      }
    }
  }

  lemma Covered(uniques: seq<Member>, r: seq<Member>, k: nat)
    requires k < |uniques| && multiset(r) == multiset(uniques)
    ensures HasValue(r, uniques[k].value)
  {
    assert uniques[k] in multiset(uniques);
    var k' :| 0 <= k' < |r| && r[k'] == uniques[k];
  }

  lemma TwiceCounted<T>(s: seq<T>, i: nat, j: nat)
    requires i < j < |s| && s[i] == s[j]
    ensures multiset(s)[s[i]] >= 2
  {
    assert s == s[..i] + [s[i]] + s[i + 1..j] + [s[j]] + s[j + 1..];
  }

  lemma {:induction false} DistinctCount(s: seq<Member>, x: Member)
    requires DistinctValues(s)
    ensures multiset(s)[x] <= 1
  {
    if s != [] {
      var init := s[..|s| - 1];
      assert s == init + [s[|s| - 1]];
      DistinctCount(init, x);
      if x == s[|s| - 1] {
        assert x !in init;
      }
    }
  }
}
