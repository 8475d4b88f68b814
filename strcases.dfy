/** Case conversion for generated Go identifiers: snake_case and kebab-case to
  * mixed caps, parameter names, receiver names, and the guard that keeps
  * generated names clear of Go keywords and built-in types. Letters are
  * ASCII only. */
module StrCases {
  import opened Wrappers
  import opened Strings

  /** Words spelled specially when they are not the leading word of a
    * camel-case name. */
  const SpecialWords: Table := [
    ("api", "API"), ("id", "ID"), ("ids", "IDs"), ("uri", "URI"), ("json", "JSON"),
    ("ok", "OK"), ("eof", "EOF"), ("io", "IO"),
    ("utf8", "UTF8"), ("utf16", "UTF16"), ("ascii", "ASCII"), ("ucs4", "UCS4"),
    ("nfc", "NFC"), ("nfd", "NFD"), ("nfkc", "NFKC"), ("nfkd", "NFKD"),
    ("foreach", "ForEach"),
    ("md5", "MD5"), ("sha1", "SHA1"), ("sha256", "SHA256"), ("sha384", "SHA384"), ("sha512", "SHA512"),
    ("dbus", "DBus"), ("gsettings", "GSettings"), ("gtype", "GType"), ("vfs", "VFS"),
    ("eos", "EOS")]

  /** Go keywords and standard package names, with the replacement to use
    * (empty: prefix an underscore instead). */
  const GoKeywords: Table := [
    ("break", ""), ("default", ""), ("func", "fn"), ("interface", "iface"), ("select", "sel"),
    ("case", ""), ("defer", ""), ("go", ""), ("map", ""), ("struct", ""),
    ("chan", "ch"), ("else", ""), ("goto", ""), ("package", "pkg"), ("switch", ""),
    ("const", ""), ("fallthrough", ""), ("if", ""), ("range", ""), ("type", "typ"),
    ("continue", ""), ("for", ""), ("import", ""), ("return", "ret"), ("var", ""),
    ("context", "_context"), ("strings", "_strings"), ("fmt", "_fmt")]

  /** Go built-in types, with the replacement to use (empty: prefix an
    * underscore instead). */
  const GoBuiltinTypes: Table := [
    ("bool", ""), ("byte", ""), ("complex128", "cmplx"), ("complex64", "cmplx"),
    ("error", "err"), ("float32", ""), ("float64", ""), ("int", ""), ("int16", ""),
    ("int32", ""), ("int64", ""), ("int8", ""), ("rune", ""), ("string", "str"),
    ("uint", ""), ("uint16", ""), ("uint32", ""), ("uint64", ""), ("uint8", ""),
    ("uintptr", "")]

  predicate IsKeyword(s: string) {
    Lookup(GoKeywords, s).Some?
  }

  predicate IsReserved(s: string) {
    IsKeyword(s) || Lookup(GoBuiltinTypes, s).Some?
  }

  /** The non-empty replacements that are not underscore-prefixed. */
  const Replacements: set<string> := {"fn", "iface", "sel", "ch", "pkg", "typ", "ret", "cmplx", "err", "str"}

  /** Every reserved word starts with a lower-case letter, and every
    * replacement is empty, listed, or the word with an underscore in front. */
  lemma KeywordTable()
    ensures forall i :: 0 <= i < |GoKeywords| ==> GoKeywords[i].0 != [] && GoKeywords[i].0[0] >= 'a'
    ensures forall i :: 0 <= i < |GoKeywords| ==>
      GoKeywords[i].1 == "" || GoKeywords[i].1 in Replacements || GoKeywords[i].1 == "_" + GoKeywords[i].0
  {
  }

  lemma BuiltinTable()
    ensures forall i :: 0 <= i < |GoBuiltinTypes| ==> GoBuiltinTypes[i].0 != [] && GoBuiltinTypes[i].0[0] >= 'a'
    ensures forall i :: 0 <= i < |GoBuiltinTypes| ==> GoBuiltinTypes[i].1 == "" || GoBuiltinTypes[i].1 in Replacements
  {
  }

  lemma ReplacementsFree()
    ensures forall i, r :: 0 <= i < |GoKeywords| && r in Replacements ==> GoKeywords[i].0 != r
    ensures forall i, r :: 0 <= i < |GoBuiltinTypes| && r in Replacements ==> GoBuiltinTypes[i].0 != r
    ensures forall r :: r in Replacements ==> '_' !in r
  {
  }

  lemma ReplacementNotReserved(r: string)
    requires r in Replacements
    ensures !IsReserved(r) && '_' !in r
  {
    ReplacementsFree();
    LookupFirst(GoKeywords, r);
    LookupFirst(GoBuiltinTypes, r);
  }

  /** A reserved word starts with a lower-case letter. */
  lemma ReservedStartsLower(s: string)
    requires IsReserved(s)
    ensures s != [] && s[0] >= 'a'
  {
    KeywordTable();
    BuiltinTable();
    LookupFirst(GoKeywords, s);
    LookupFirst(GoBuiltinTypes, s);
  }

  lemma NotReservedWhenEmpty(s: string)
    requires s == []
    ensures !IsReserved(s)
  {
    if IsReserved(s) {
      ReservedStartsLower(s);
    }
  }

  lemma UnderscoredNotReserved(s: string)
    ensures !IsReserved("_" + s)
  {
    if IsReserved("_" + s) {
      ReservedStartsLower("_" + s);
    }
  }

  /** An underscore can only appear as the first character. */
  predicate NoInnerUnderscore(s: string) {
    forall j :: 0 < j < |s| ==> s[j] != '_'
  }

  /** noGoReserved: a keyword or built-in type becomes its replacement, or
    * gets an underscore prefix when it has none; other words are kept. The
    * keyword table is consulted first. */
  function NoGoReserved(word: string): (r: string)
    ensures !IsReserved(r)
    ensures !IsReserved(word) ==> r == word
    ensures IsReserved(word) ==> r != word
    ensures '_' !in word ==> NoInnerUnderscore(r)
    ensures Lookup(GoKeywords, word).Some? ==>
      r == Guarded(word, Lookup(GoKeywords, word).value)
    ensures Lookup(GoKeywords, word).None? && Lookup(GoBuiltinTypes, word).Some? ==>
      r == Guarded(word, Lookup(GoBuiltinTypes, word).value)
  {
    match Lookup(GoKeywords, word)
    case Some(rep) =>
      LookupFirst(GoKeywords, word);
      KeywordTable();
      UnderscoredNotReserved(word);
      if rep == "" then "_" + word
      else if rep in Replacements then ReplacementNotReserved(rep); rep
      else rep
    case None =>
      match Lookup(GoBuiltinTypes, word)
      case Some(rep) =>
        LookupFirst(GoBuiltinTypes, word);
        BuiltinTable();
        UnderscoredNotReserved(word);
        if rep == "" then "_" + word
        else ReplacementNotReserved(rep); rep
      case None => word
  }

  /** What a reserved word becomes given its table entry: the replacement,
    * or the word behind an underscore when the replacement is empty. */
  function Guarded(word: string, rep: string): string {
    if rep == "" then "_" + word else rep
  }

  /** Guarding a name twice changes nothing more. */
  lemma NoGoReservedIdempotent(word: string)
    ensures NoGoReserved(NoGoReserved(word)) == NoGoReserved(word)
  {
  }

  /** firstToUpper: the first letter in upper case, the rest unchanged. */
  function FirstToUpper(s: string): (r: string)
    ensures |r| == |s|
    ensures s != [] ==> r[0] == ToUpperChar(s[0]) && r[1..] == s[1..]
  {
    if s == [] then s else [ToUpperChar(s[0])] + s[1..]
  }

  /** How a word that does not lead the name is spelled: its special
    * spelling when the table is consulted and lists the lowered word,
    * otherwise the lowered word with its first letter upper-cased. */
  function Capitalised(word: string, special: bool): (r: string)
    requires '_' !in word
    ensures '_' !in r
    ensures |r| > 0 <==> |word| > 0
    ensures special && Lookup(SpecialWords, ToLower(word)).Some? ==> r == Lookup(SpecialWords, ToLower(word)).value
    ensures !(special && Lookup(SpecialWords, ToLower(word)).Some?) ==>
      |r| == |word| && (word != [] ==> r[0] == ToUpperChar(ToLowerChar(word[0])))
      && forall j :: 0 < j < |word| ==> r[j] == ToLowerChar(word[j])
    ensures !(special && Lookup(SpecialWords, ToLower(word)).Some?) ==> r == FirstToUpper(ToLower(word))
  {
    var w := ToLower(word);
    assert '_' !in w by { LowerKeepsUnderscores(word); }
    if special && Lookup(SpecialWords, w).Some? then
      LookupFirst(SpecialWords, w); SpecialTable();
      Lookup(SpecialWords, w).value
    else FirstToUpper(w)
  }

  /** The text contributed by the word at index i of the split input (empty
    * words included in the count): nothing for an empty word, the lowered
    * word when it leads a camel-case name, else its Capitalised spelling. */
  function Piece(word: string, i: nat, pascal: bool, special: bool): (r: string)
    requires '_' !in word
    ensures '_' !in r
    ensures r == [] <==> word == []
    ensures word != [] && i == 0 && !pascal ==> r == ToLower(word)
    ensures word != [] && (i > 0 || pascal) ==> r == Capitalised(word, special)
  {
    if word == [] then []
    else if i == 0 && !pascal then
      LowerKeepsUnderscores(word);
      ToLower(word)
    else Capitalised(word, special)
  }

  /** The special spellings are non-empty, capitalised and underscore-free;
    * the special words are lower-case letters and digits. */
  lemma SpecialTable()
    ensures forall i :: 0 <= i < |SpecialWords| ==> SpecialWords[i].0 != []
    ensures forall i :: 0 <= i < |SpecialWords| ==>
      SpecialWords[i].1 != [] && IsUpper(SpecialWords[i].1[0]) && '_' !in SpecialWords[i].1
    ensures forall i :: 0 <= i < |SpecialWords| ==>
      forall j :: 0 <= j < |SpecialWords[i].0| ==> IsLower(SpecialWords[i].0[j]) || IsDigit(SpecialWords[i].0[j])
  {
  }

  lemma LowerKeepsUnderscores(s: string)
    ensures ('_' in ToLower(s)) <==> ('_' in s)
  {
    assert forall i :: 0 <= i < |s| ==> (ToLower(s)[i] == '_' <==> s[i] == '_');
  }

  /** The pieces of words[i..] joined together. */
  function Pieces(words: seq<string>, i: nat, pascal: bool, special: bool): (r: string)
    requires i <= |words|
    requires forall k :: 0 <= k < |words| ==> '_' !in words[k]
    ensures '_' !in r
    decreases |words| - i
  {
    if i == |words| then []
    else Piece(words[i], i, pascal, special) + Pieces(words, i + 1, pascal, special)
  }

  // ---------------------------------------------------------------------------
  // The mixed-caps spelling of a word list, stated word by word

  /** The non-empty words, in order. */
  function NonEmpty(words: seq<string>): (r: seq<string>)
    ensures forall w :: w in r <==> w in words && w != []
  {
    if words == [] then [] else (if words[0] == [] then [] else [words[0]]) + NonEmpty(words[1..])
  }

  lemma {:induction false} NonEmptyConcat(a: seq<string>, b: seq<string>)
    ensures NonEmpty(a + b) == NonEmpty(a) + NonEmpty(b)
  {
    if a != [] {
      assert (a + b)[0] == a[0] && (a + b)[1..] == a[1..] + b;
      NonEmptyConcat(a[1..], b);
    } else {
      assert a + b == b;
    }
  }

  /** Every word capitalised, joined. */
  function Capitals(words: seq<string>, special: bool): string
    requires forall w :: w in words ==> '_' !in w
  {
    if words == [] then [] else Capitalised(words[0], special) + Capitals(words[1..], special)
  }

  /** The leading word: lowered in camel case, capitalised in pascal case,
    * nothing when it is empty. */
  function Leading(word: string, pascal: bool, special: bool): string
    requires '_' !in word
  {
    if word == [] then [] else if pascal then Capitalised(word, special) else ToLower(word)
  }

  /** The words of a split name in mixed caps: empty words dropped, the
    * first word spelled as the leading word only when it is not empty,
    * every other word capitalised. */
  function MixedCaps(words: seq<string>, pascal: bool, special: bool): string
    requires |words| >= 1 && forall w :: w in words ==> '_' !in w
  {
    Leading(words[0], pascal, special) + Capitals(NonEmpty(words[1..]), special)
  }

  /** From the second word on, the pieces are the non-empty words
    * capitalised. */
  lemma {:induction false} PiecesAreCapitals(words: seq<string>, i: nat, pascal: bool, special: bool)
    requires 1 <= i <= |words|
    requires forall k :: 0 <= k < |words| ==> '_' !in words[k]
    ensures Pieces(words, i, pascal, special) == Capitals(NonEmpty(words[i..]), special)
    decreases |words| - i
  {
    if i < |words| {
      PiecesAreCapitals(words, i + 1, pascal, special);
      var tail := words[i..];
      assert tail[0] == words[i] && tail[1..] == words[i + 1..];
      var rest := NonEmpty(words[i + 1..]);
      if words[i] != [] {
        assert NonEmpty(tail) == [words[i]] + rest;
        assert ([words[i]] + rest)[0] == words[i] && ([words[i]] + rest)[1..] == rest;
        assert Capitals([words[i]] + rest, special) == Capitalised(words[i], special) + Capitals(rest, special);
      } else {
        assert NonEmpty(tail) == rest;
      }
    } else {
      assert words[i..] == [];
    }
  }

  lemma PiecesAreMixedCaps(words: seq<string>, pascal: bool, special: bool)
    requires |words| >= 1
    requires forall k :: 0 <= k < |words| ==> '_' !in words[k]
    ensures Pieces(words, 0, pascal, special) == MixedCaps(words, pascal, special)
  {
    PiecesAreCapitals(words, 1, pascal, special);
  }

  /** ParamNameToGo: snake_case to camelCase, guarded against reserved words,
    * with no special spellings: empty words are dropped, the first word is
    * lowered (unless empty), the others are capitalised. */
  function ParamNameToGo(p: string): (r: string)
    ensures !IsReserved(r)
    ensures NoInnerUnderscore(r)
    ensures r == NoGoReserved(MixedCaps(Split(p, '_'), false, false))
  {
    PiecesAreMixedCaps(Split(p, '_'), false, false);
    NoGoReserved(Pieces(Split(p, '_'), 0, false, false))
  }

  /** SnakeToGo: snake_case to mixed caps with the special spellings; pascal
    * capitalises the leading word too. */
  function SnakeToGo(pascal: bool, s: string): (r: string)
    ensures !IsReserved(r)
    ensures NoInnerUnderscore(r)
    ensures r == NoGoReserved(MixedCaps(Split(s, '_'), pascal, true))
  {
    PiecesAreMixedCaps(Split(s, '_'), pascal, true);
    NoGoReserved(Pieces(Split(s, '_'), 0, pascal, true))
  }

  /** Non-empty words joined by single underscores: the first is the leading
    * word and every other is capitalised. */
  lemma WordsToGo(words: seq<string>, pascal: bool)
    requires |words| >= 1
    requires forall k :: 0 <= k < |words| ==> words[k] != [] && '_' !in words[k]
    ensures SnakeToGo(pascal, Join(words, '_')) ==
      NoGoReserved(Leading(words[0], pascal, true) + Capitals(words[1..], true))
    ensures ParamNameToGo(Join(words, '_')) ==
      NoGoReserved(ToLower(words[0]) + Capitals(words[1..], false))
  {
    SplitJoin(words, '_');
    NonEmptyAll(words[1..]);
  }

  lemma {:induction false} NonEmptyAll(words: seq<string>)
    requires forall k :: 0 <= k < |words| ==> words[k] != []
    ensures NonEmpty(words) == words
  {
    if words != [] {
      NonEmptyAll(words[1..]);
    }
  }

  /** Two words: "a_b" is a lowered, then b capitalised. */
  lemma TwoWordsCamel(a: string, b: string)
    requires a != [] && b != [] && '_' !in a && '_' !in b
    ensures ParamNameToGo(a + "_" + b) == NoGoReserved(ToLower(a) + FirstToUpper(ToLower(b)))
  {
    var ws := [a, b];
    JoinTwo(a, b);
    WordsToGo(ws, false);
    assert ws[0] == a && ws[1..] == [b];
    CapitalsOne(b);
  }

  lemma JoinTwo(a: string, b: string)
    ensures Join([a, b], '_') == a + "_" + b
  {
    assert [a, b][1..] == [b];
  }

  lemma CapitalsOne(b: string)
    requires '_' !in b
    ensures Capitals([b], false) == FirstToUpper(ToLower(b))
  {
    assert [b][1..] == [];
  }

  /** Splitting at a separator splits each side. */
  lemma {:induction false} SplitConcat(a: string, b: string, sep: char)
    ensures Split(a + [sep] + b, sep) == Split(a, sep) + Split(b, sep)
  {
    if a == [] {
      SplitCons(sep, b, sep);
      assert a + [sep] + b == [sep] + b;
    } else {
      var t := a[1..] + [sep] + b;
      assert a + [sep] + b == [a[0]] + t;
      assert a == [a[0]] + a[1..];
      SplitConcat(a[1..], b, sep);
      SplitCons(a[0], t, sep);
      SplitCons(a[0], a[1..], sep);
      ConsPartAppend(a[0], Split(a[1..], sep), Split(b, sep), sep);
    }
  }

  /** The parts of [c] + t given the parts of t. */
  function ConsPart(c: char, parts: seq<string>, sep: char): seq<string>
    requires |parts| >= 1
  {
    if c == sep then [[]] + parts else [[c] + parts[0]] + parts[1..]
  }

  lemma ConsPartAppend(c: char, x: seq<string>, y: seq<string>, sep: char)
    requires |x| >= 1
    ensures ConsPart(c, x + y, sep) == ConsPart(c, x, sep) + y
  {
    assert (x + y)[0] == x[0] && (x + y)[1..] == x[1..] + y;
  }

  lemma SplitCons(c: char, t: string, sep: char)
    ensures Split([c] + t, sep) == ConsPart(c, Split(t, sep), sep)
  {
    assert ([c] + t)[0] == c && ([c] + t)[1..] == t;
  }

  /** An empty word after the first changes nothing. */
  lemma MixedCapsDropsEmpty(x: seq<string>, y: seq<string>, pascal: bool, special: bool)
    requires |x| >= 1
    requires forall w :: w in x + y ==> '_' !in w
    ensures MixedCaps(x + [[]] + y, pascal, special) == MixedCaps(x + y, pascal, special)
  {
    var u, v := x + [[]] + y, x + y;
    assert u[0] == x[0] == v[0];
    assert u[1..] == x[1..] + [[]] + y && v[1..] == x[1..] + y;
    NonEmptyConcat(x[1..] + [[]], y);
    NonEmptyConcat(x[1..], [[]]);
    NonEmptyConcat(x[1..], y);
    assert NonEmpty([[]]) == [];
    assert NonEmpty(u[1..]) == NonEmpty(v[1..]);
  }

  /** Split of a + "__" + b and of a + "_" + b: an empty word between. */
  lemma SplitDoubleUnderscore(a: string, b: string)
    ensures Split(a + "__" + b, '_') == Split(a, '_') + [[]] + Split(b, '_')
    ensures Split(a + "_" + b, '_') == Split(a, '_') + Split(b, '_')
  {
    assert a + "__" + b == a + ['_'] + ("_" + b);
    assert a + "_" + b == a + ['_'] + b;
    SplitConcat(a, "_" + b, '_');
    SplitConcat(a, b, '_');
    SplitCons('_', b, '_');
    assert "_" + b == ['_'] + b;
  }

  /** A run of underscores separates words like a single one: the empty
    * words between them are dropped. */
  lemma EmptyWordsDropped(pascal: bool, a: string, b: string)
    ensures SnakeToGo(pascal, a + "__" + b) == SnakeToGo(pascal, a + "_" + b)
    ensures ParamNameToGo(a + "__" + b) == ParamNameToGo(a + "_" + b)
  {
    SplitDoubleUnderscore(a, b);
    var x, y := Split(a, '_'), Split(b, '_');
    assert forall w :: w in x + y ==> '_' !in w;
    MixedCapsDropsEmpty(x, y, pascal, true);
    MixedCapsDropsEmpty(x, y, false, false);
  }

  /** KebabToGo: SnakeToGo after turning every '-' into '_'. */
  function KebabToGo(pascal: bool, s: string): (r: string)
    ensures !IsReserved(r)
  {
    SnakeToGo(pascal, ReplaceChar(s, '-', '_'))
  }

  /** Hyphens and underscores separate words alike in kebab input. */
  lemma KebabSeparatorsAlike(pascal: bool, s: string)
    ensures KebabToGo(pascal, ReplaceChar(s, '_', '-')) == KebabToGo(pascal, s)
    ensures '-' !in s ==> KebabToGo(pascal, s) == SnakeToGo(pascal, s)
  {
    assert ReplaceChar(ReplaceChar(s, '_', '-'), '-', '_') == ReplaceChar(s, '-', '_');
    if '-' !in s {
      assert ReplaceChar(s, '-', '_') == s;
    }
  }

  /** Splitting commutes with lowering: '_' is not a letter. */
  function LowerAll(parts: seq<string>): (r: seq<string>)
    ensures |r| == |parts| && forall k :: 0 <= k < |parts| ==> r[k] == ToLower(parts[k])
  {
    if parts == [] then [] else [ToLower(parts[0])] + LowerAll(parts[1..])
  }

  lemma {:induction false} SplitLower(s: string)
    ensures Split(ToLower(s), '_') == LowerAll(Split(s, '_'))
  {
    if s != [] {
      var t := ToLower(s);
      assert t[0] == ToLowerChar(s[0]) && t[1..] == ToLower(s[1..]);
      SplitLower(s[1..]);
      var rest := Split(s[1..], '_');
      var lowered := LowerAll(rest);
      assert Split(t, '_') == if t[0] == '_' then [[]] + lowered else [[t[0]] + lowered[0]] + lowered[1..];
      if s[0] != '_' {
        assert ToLower([s[0]] + rest[0]) == [ToLowerChar(s[0])] + ToLower(rest[0]);
        assert LowerAll([[s[0]] + rest[0]] + rest[1..]) == [ToLower([s[0]] + rest[0])] + LowerAll(rest)[1..];
      } else {
        assert LowerAll([[]] + rest) == [[]] + LowerAll(rest);
      }
    }
  }

  lemma ToLowerIdempotent(s: string)
    ensures ToLower(ToLower(s)) == ToLower(s)
  {
  }

  lemma {:induction false} PiecesLower(words: seq<string>, lowered: seq<string>, i: nat, pascal: bool, special: bool)
    requires i <= |words| == |lowered|
    requires forall k :: 0 <= k < |words| ==> '_' !in words[k] && '_' !in lowered[k]
    requires forall k :: 0 <= k < |words| ==> lowered[k] == ToLower(words[k])
    ensures Pieces(lowered, i, pascal, special) == Pieces(words, i, pascal, special)
    decreases |words| - i
  {
    if i < |words| {
      PiecesLower(words, lowered, i + 1, pascal, special);
      PieceLower(words[i], i, pascal, special);
    }
  }

  lemma PieceLower(w: string, i: nat, pascal: bool, special: bool)
    requires '_' !in w
    ensures '_' !in ToLower(w)
    ensures Piece(ToLower(w), i, pascal, special) == Piece(w, i, pascal, special)
  {
    LowerKeepsUnderscores(w);
    ToLowerIdempotent(w);
  }

  /** Both converters lower every word first, so the input's case never
    * matters. */
  lemma CaseInsensitive(pascal: bool, s: string)
    ensures ParamNameToGo(ToLower(s)) == ParamNameToGo(s)
    ensures SnakeToGo(pascal, ToLower(s)) == SnakeToGo(pascal, s)
  {
    SplitLower(s);
    PiecesLower(Split(s, '_'), Split(ToLower(s), '_'), 0, false, false);
    PiecesLower(Split(s, '_'), Split(ToLower(s), '_'), 0, pascal, true);
  }

  /** A lower-case word without '_' that is not reserved is its own camel-case
    * name, special or not: the table is not used for the leading word. */
  lemma SingleWordCamel(w: string)
    requires w != [] && '_' !in w && ToLower(w) == w && !IsReserved(w)
    ensures SnakeToGo(false, w) == w
    ensures ParamNameToGo(w) == w
  {
    SplitNoSep(w, '_');
    SinglePiece(w, false, true);
    SinglePiece(w, false, false);
    assert Piece(w, 0, false, true) == w;
    assert Piece(w, 0, false, false) == w;
  }

  lemma SpecialEntry(i: nat)
    requires i < |SpecialWords|
    ensures SpecialWords[i].0 != []
    ensures forall j :: 0 <= j < |SpecialWords[i].0| ==> IsLower(SpecialWords[i].0[j]) || IsDigit(SpecialWords[i].0[j])
  {
    SpecialTable();
  }

  lemma LowerWord(w: string)
    requires forall j :: 0 <= j < |w| ==> IsLower(w[j]) || IsDigit(w[j])
    ensures '_' !in w && ToLower(w) == w
  {
  }

  lemma SinglePiece(w: string, pascal: bool, special: bool)
    requires '_' !in w
    ensures Pieces([w], 0, pascal, special) == Piece(w, 0, pascal, special)
  {
    assert Pieces([w], 1, pascal, special) == [];
  }

  /** A special word alone in pascal case is its special spelling. */
  lemma SpecialWordPascal(w: string)
    requires Lookup(SpecialWords, w).Some?
    ensures SnakeToGo(true, w) == Lookup(SpecialWords, w).value
  {
    var sp := Lookup(SpecialWords, w).value;
    SpecialWordPiece(w);
    SpecialSpellingFree(w);
    assert SnakeToGo(true, w) == NoGoReserved(sp);
  }

  lemma SpecialWordPiece(w: string)
    requires Lookup(SpecialWords, w).Some?
    ensures Pieces(Split(w, '_'), 0, true, true) == Lookup(SpecialWords, w).value
  {
    SpecialWordShape(w);
    SplitNoSep(w, '_');
    SinglePiece(w, true, true);
    assert Piece(w, 0, true, true) == Lookup(SpecialWords, w).value;
  }

  lemma SpecialWordShape(w: string)
    requires Lookup(SpecialWords, w).Some?
    ensures w != [] && '_' !in w && ToLower(w) == w
  {
    var sp := Lookup(SpecialWords, w).value;
    LookupFirst(SpecialWords, w);
    var i :| 0 <= i < |SpecialWords| && SpecialWords[i].0 == w && SpecialWords[i].1 == sp;
    SpecialEntry(i);
    LowerWord(w);
  }

  lemma SpecialSpellingFree(w: string)
    requires Lookup(SpecialWords, w).Some?
    ensures !IsReserved(Lookup(SpecialWords, w).value)
  {
    SpecialTable();
    var sp := Lookup(SpecialWords, w).value;
    LookupFirst(SpecialWords, w);
    if IsReserved(sp) {
      ReservedStartsLower(sp);
    }
  }

  /** The leading-word test counts empty words: with a leading underscore the
    * first real word is capitalised even in camel case. */
  lemma LeadingUnderscoreCapitalises(w: string)
    requires w != [] && '_' !in w
    ensures ParamNameToGo("_" + w) == NoGoReserved(FirstToUpper(ToLower(w)))
  {
    LeadingUnderscorePieces(w);
  }

  lemma LeadingUnderscorePieces(w: string)
    requires w != [] && '_' !in w
    ensures Pieces(Split("_" + w, '_'), 0, false, false) == FirstToUpper(ToLower(w))
  {
    var p := "_" + w;
    SplitPrefix("", '_', w);
    assert "" + ['_'] + w == p;
    SplitNoSep(w, '_');
    var words := Split(p, '_');
    assert words == ["", w];
    assert Pieces(words, 2, false, false) == [];
    assert Pieces(words, 1, false, false) == Piece(w, 1, false, false);
    assert Pieces(words, 0, false, false) == Piece("", 0, false, false) + Piece(w, 1, false, false);
  }

  /** ReceiverName: the first letter in lower case; empty input and a leading
    * underscore are panics. */
  function ReceiverName(p: string): (r: Result<string>)
    ensures r.Ok? <==> p != [] && p[0] != '_'
    ensures r.Ok? ==> |r.value| == 1 && !IsUpper(r.value[0])
    ensures r.Ok? ==> (IsLetter(r.value[0]) <==> IsLetter(p[0]))
  {
    if p == [] then Err("ReceiverName: empty string")
    else if p[0] == '_' then Err("ReceiverName: invalid string with underscore " + p)
    else Ok([ToLowerChar(p[0])])
  }

  /** Unexport: the first letter in lower case, then guarded against reserved
    * words; the empty string is kept. */
  function Unexport(s: string): (r: string)
    ensures s == [] ==> r == []
    ensures !IsReserved(r)
    ensures s != [] ==> r == NoGoReserved([ToLowerChar(s[0])] + s[1..])
    ensures s != [] && s[0] != '_' && !IsReserved([ToLowerChar(s[0])] + s[1..]) ==>
              r == ReceiverName(s).value + s[1..]
  {
    if s == [] then
      NotReservedWhenEmpty(s);
      s
    else NoGoReserved([ToLowerChar(s[0])] + s[1..])
  }

  /** Every non-empty replacement starts with a lower-case letter or an
    * underscore. */
  lemma ReplacementsStartLower()
    ensures forall i :: 0 <= i < |GoKeywords| ==> GoKeywords[i].1 == "" || IsLower(GoKeywords[i].1[0]) || GoKeywords[i].1[0] == '_'
    ensures forall i :: 0 <= i < |GoBuiltinTypes| ==> GoBuiltinTypes[i].1 == "" || IsLower(GoBuiltinTypes[i].1[0])
  {
  }

  /** The guard keeps a word starting with a character that is not an
    * upper-case letter in that shape. */
  lemma GuardedStartsLower(w: string)
    requires w != [] && !IsUpper(w[0])
    ensures NoGoReserved(w) != [] && !IsUpper(NoGoReserved(w)[0])
  {
    var k := Lookup(GoKeywords, w);
    var t := Lookup(GoBuiltinTypes, w);
    if k.Some? {
      LookupFirst(GoKeywords, w);
      var i :| 0 <= i < |GoKeywords| && GoKeywords[i] == (w, k.value);
      ReplacementsStartLower();
      assert k.value == "" || IsLower(k.value[0]) || k.value[0] == '_';
      assert NoGoReserved(w) == Guarded(w, k.value);
    } else if t.Some? {
      LookupFirst(GoBuiltinTypes, w);
      var i :| 0 <= i < |GoBuiltinTypes| && GoBuiltinTypes[i] == (w, t.value);
      ReplacementsStartLower();
      assert t.value == "" || IsLower(t.value[0]);
      assert NoGoReserved(w) == Guarded(w, t.value);
    }
  }

  /** Unexporting an unexported name changes nothing. */
  lemma UnexportIdempotent(s: string)
    ensures Unexport(Unexport(s)) == Unexport(s)
  {
    if s != [] {
      var w := [ToLowerChar(s[0])] + s[1..];
      var u := Unexport(s);
      GuardedStartsLower(w);
      assert [ToLowerChar(u[0])] + u[1..] == u;
      NoGoReservedIdempotent(w);
    }
  }

  /** CGoField: cgo exposes C fields named like Go keywords with a leading
    * underscore; other names are unchanged. */
  function CGoField(field: string): (r: string)
    ensures !IsKeyword(r)
    ensures !IsKeyword(field) ==> r == field
    ensures IsKeyword(field) ==> |r| == |field| + 1 && r[0] == '_' && r[1..] == field
  {
    if IsKeyword(field) then UnderscoredNotReserved(field); "_" + field else field
  }
}
