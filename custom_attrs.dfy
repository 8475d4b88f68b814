/** Custom GIR attribute types: comma-separated lists and the
  * `major.minor.patch` version used for deprecation and availability checks. */
module CustomAttrs {
  import opened Wrappers
  import opened Strings

  // ---------------------------------------------------------------------------
  // CommaSeparated

  /** Reading a comma-separated attribute splits it at every comma. */
  function UnmarshalCommaSeparated(value: string): (list: seq<string>)
    ensures |list| >= 1
    ensures forall i :: 0 <= i < |list| ==> ',' !in list[i]
  {
    Split(value, ',')
  }

  /** Writing the attribute joins the list with commas. */
  function MarshalCommaSeparated(list: seq<string>): string {
    Join(list, ',')
  }

  lemma CommaSeparatedRoundTrip(value: string)
    ensures MarshalCommaSeparated(UnmarshalCommaSeparated(value)) == value
  {
    JoinSplit(value, ',');
  }

  lemma CommaSeparatedRoundTripList(list: seq<string>)
    requires |list| >= 1
    requires forall i :: 0 <= i < |list| ==> ',' !in list[i]
    ensures UnmarshalCommaSeparated(MarshalCommaSeparated(list)) == list
  {
    SplitJoin(list, ',');
  }

  // ---------------------------------------------------------------------------
  // Decimal integers as strconv.Atoi and fmt's %d see them (64-bit int)

  const MinInt64: int := -0x8000_0000_0000_0000
  const MaxInt64: int := 0x7FFF_FFFF_FFFF_FFFF

  predicate InInt64(n: int) { MinInt64 <= n <= MaxInt64 }

  predicate AllDigits(s: string) {
    forall i :: 0 <= i < |s| ==> IsDigit(s[i])
  }

  function DigitsValue(s: string): (n: nat)
    requires AllDigits(s)
  {
    if s == [] then 0 else DigitsValue(s[..|s| - 1]) * 10 + (s[|s| - 1] as int - '0' as int)
  }

  function DigitChar(d: nat): (c: char)
    requires d < 10
    ensures IsDigit(c) && c as int - '0' as int == d
  {
    ('0' as int + d) as char
  }

  /** The decimal digits of a natural number, without leading zeros. */
  function NatDigits(n: nat): (s: string)
    ensures s != [] && AllDigits(s)
  {
    if n < 10 then [DigitChar(n)] else NatDigits(n / 10) + [DigitChar(n % 10)]
  }

  lemma {:induction false} NatDigitsValue(n: nat)
    ensures DigitsValue(NatDigits(n)) == n
  {
    if n >= 10 {
      NatDigitsValue(n / 10);
      var s := NatDigits(n);
      assert s[..|s| - 1] == NatDigits(n / 10);
    }
  }

  /** fmt.Sprintf("%d", n). */
  function FormatInt(n: int): (s: string)
    ensures s != [] && '.' !in s
  {
    if n < 0 then "-" + NatDigits(-n) else NatDigits(n)
  }

  /** strconv.Atoi: an optional sign, at least one decimal digit, and a value
    * that fits the 64-bit int; anything else is an error. */
  function Atoi(s: string): (r: Result<int>)
    ensures r.Ok? ==> InInt64(r.value)
    ensures s == [] ==> r.Err?
  {
    var negative := |s| > 0 && s[0] == '-';
    var digits := if |s| > 0 && (s[0] == '-' || s[0] == '+') then s[1..] else s;
    if digits == [] || !AllDigits(digits) then Err("invalid syntax")
    else
      var n: int := if negative then -(DigitsValue(digits) as int) else DigitsValue(digits);
      if InInt64(n) then Ok(n) else Err("value out of range")
  }

  lemma AtoiFormatInt(n: int)
    requires InInt64(n)
    ensures Atoi(FormatInt(n)) == Ok(n)
  {
    if n < 0 {
      AtoiNegative(-n);
    } else {
      AtoiNonNegative(n);
    }
  }

  lemma AtoiNonNegative(n: nat)
    requires n <= MaxInt64
    ensures Atoi(NatDigits(n)) == Ok(n)
  {
    NatDigitsValue(n);
    var s := NatDigits(n);
    assert IsDigit(s[0]);
  }

  lemma AtoiNegative(m: nat)
    requires 0 < m <= -MinInt64
    ensures Atoi("-" + NatDigits(m)) == Ok(-(m as int))
  {
    NatDigitsValue(m);
    var s := "-" + NatDigits(m);
    assert s[1..] == NatDigits(m);
  }

  // ---------------------------------------------------------------------------
  // Version

  datatype Version = Version(major: int, minor: int, patch: int)

  const ZeroVersion := Version(0, 0, 0)

  /** Version.String: "major.minor.patch". */
  function VersionString(v: Version): string {
    FormatInt(v.major) + "." + FormatInt(v.minor) + "." + FormatInt(v.patch)
  }

  predicate Equals(v: Version, other: Version) {
    v.major == other.major && v.minor == other.minor && v.patch == other.patch
  }

  predicate Less(v: Version, other: Version) {
    if v.major < other.major then true
    else if v.major > other.major then false
    else if v.minor < other.minor then true
    else if v.minor > other.minor then false
    else v.patch < other.patch
  }

  predicate Greater(v: Version, other: Version) {
    if v.major > other.major then true
    else if v.major < other.major then false
    else if v.minor > other.minor then true
    else if v.minor < other.minor then false
    else v.patch > other.patch
  }

  predicate LessEqual(v: Version, other: Version) {
    Less(v, other) || Equals(v, other)
  }

  predicate GreaterEqual(v: Version, other: Version) {
    Greater(v, other) || Equals(v, other)
  }

  /** Less is the lexicographic order on (major, minor, patch). */
  lemma LessIsLexicographic(v: Version, w: Version)
    ensures Less(v, w) <==>
      (v.major < w.major
       || (v.major == w.major && v.minor < w.minor)
       || (v.major == w.major && v.minor == w.minor && v.patch < w.patch))
  {
  }

  /** Greater is Less with its arguments swapped. */
  lemma GreaterIsConverse(v: Version, w: Version)
    ensures Greater(v, w) <==> Less(w, v)
  {
  }

  /** Less is a strict total order: irreflexive, transitive and total. */
  lemma LessStrictTotalOrder(u: Version, v: Version, w: Version)
    ensures !Less(v, v)
    ensures Less(u, v) && Less(v, w) ==> Less(u, w)
    ensures Less(v, w) || Equals(v, w) || Less(w, v)
    ensures !(Less(v, w) && Less(w, v))
  {
  }

  /** LessEqual is exactly the negation of Greater, so deprecation checks
    * can be read either way. */
  lemma LessEqualIsNotGreater(v: Version, w: Version)
    ensures LessEqual(v, w) <==> !Greater(v, w)
    ensures GreaterEqual(v, w) <==> !Less(v, w)
    ensures Equals(v, w) <==> v == w
  {
  }

  /** The LessEqual table that the package's own test checks. */
  lemma LessEqualTable()
    ensures LessEqual(Version(1, 0, 0), Version(2, 0, 0))
    ensures !LessEqual(Version(2, 0, 0), Version(1, 0, 0))
    ensures LessEqual(Version(1, 2, 0), Version(1, 3, 0))
    ensures !LessEqual(Version(1, 3, 0), Version(1, 2, 0))
    ensures LessEqual(Version(1, 2, 3), Version(1, 2, 4))
    ensures !LessEqual(Version(1, 2, 4), Version(1, 2, 3))
    ensures LessEqual(Version(1, 2, 3), Version(1, 2, 3))
  {
  }

  /** Version.UnmarshalText: the new value of the receiver and the error, if
    * any. On an error or on empty text the receiver keeps its old value. */
  function UnmarshalText(v: Version, text: string): (r: (Version, Option<string>))
    ensures text == [] ==> r == (v, None)
    ensures r.1.Some? ==> r.0 == v
    ensures |Split(text, '.')| > 3 ==> r.1.Some?
  {
    if text == [] then (v, None)
    else
      var parts := Split(text, '.');
      if |parts| > 3 then (v, Some("invalid version"))
      else
        var major := Atoi(parts[0]);
        var minor := if |parts| > 1 then Atoi(parts[1]) else Ok(0);
        var patch := if |parts| > 2 && parts[2] != [] then Atoi(parts[2]) else Ok(0);
        if major.Err? then (v, Some("error while parsing major version: " + major.msg))
        else if minor.Err? then (v, Some("error while parsing minor version: " + minor.msg))
        else if patch.Err? then (v, Some("error while parsing patch version: " + patch.msg))
        else (Version(major.value, minor.value, patch.value), None)
  }

  /** ParseVersion: unmarshal into a zero version. */
  function ParseVersion(s: string): (r: Result<Version>)
    ensures s == [] ==> r == Ok(ZeroVersion)
  {
    var (v, err) := UnmarshalText(ZeroVersion, s);
    if err.Some? then Err(err.value) else Ok(v)
  }

  /** Formatting a version and parsing it back gives the same version. */
  lemma ParseVersionString(v: Version)
    requires InInt64(v.major) && InInt64(v.minor) && InInt64(v.patch)
    ensures ParseVersion(VersionString(v)) == Ok(v)
  {
    var a, b, c := FormatInt(v.major), FormatInt(v.minor), FormatInt(v.patch);
    assert Join([a, b, c], '.') == VersionString(v) by {
      assert [a, b, c][1..] == [b, c];
      assert [b, c][1..] == [c];
      assert Join([b, c], '.') == b + "." + c;
      assert Join([a, b, c], '.') == a + "." + (b + "." + c);
    }
    SplitJoin([a, b, c], '.');
    AtoiFormatInt(v.major);
    AtoiFormatInt(v.minor);
    AtoiFormatInt(v.patch);
  }

  lemma SplitConcrete(parts: seq<string>, s: string)
    requires |parts| >= 1 && forall i :: 0 <= i < |parts| ==> '.' !in parts[i]
    requires Join(parts, '.') == s
    ensures Split(s, '.') == parts
  {
    SplitJoin(parts, '.');
  }

  /** A one-digit number reads as its digit. */
  lemma AtoiDigit(s: string)
    requires |s| == 1 && IsDigit(s[0])
    ensures Atoi(s) == Ok(s[0] as int - '0' as int)
  {
    assert s[..|s| - 1] == [];
    assert AllDigits(s) && DigitsValue(s) == s[0] as int - '0' as int;
  }

  /** A lone one-digit major part defaults minor and patch to 0. */
  lemma ParseVersionMajorOnly(s: string)
    requires |s| == 1 && IsDigit(s[0])
    ensures ParseVersion(s) == Ok(Version(s[0] as int - '0' as int, 0, 0))
  {
    SplitNoSep(s, '.');
    AtoiDigit(s);
  }

  /** A missing patch part defaults to 0. */
  lemma ParseVersionNoPatch()
    ensures ParseVersion("1.2") == Ok(Version(1, 2, 0))
  {
    SplitConcrete(["1", "2"], "1.2");
    AtoiDigit("1");
    AtoiDigit("2");
  }

  /** A trailing empty patch part is accepted as 0. */
  lemma ParseVersionEmptyPatch()
    ensures ParseVersion("1.2.") == Ok(Version(1, 2, 0))
  {
    SplitConcrete(["1", "2", ""], "1.2.");
    AtoiDigit("1");
    AtoiDigit("2");
  }

  /** An empty minor part is an error. */
  lemma ParseVersionEmptyMinor()
    ensures ParseVersion("1.").Err?
  {
    SplitConcrete(["1", ""], "1.");
  }

  /** A fourth part is an error. */
  lemma ParseVersionTooManyParts()
    ensures ParseVersion("1.2.3.4").Err?
  {
    SplitConcrete(["1", "2", "3", "4"], "1.2.3.4");
  }
}
