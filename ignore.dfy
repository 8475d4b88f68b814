/** GIR identifier patterns (gir_ident.go) and the ignore functions built
  * from them (ignore.go). An ignore function answers, for an item named
  * `self` inside `parent`, whether the generator should pretend it does not
  * exist. */
module Ignore {
  import opened Wrappers
  import opened Strings
  import Gir

  const WildCard: string := "*"

  /** A `Parent.Name` pattern; an empty parent means a top-level name. */
  datatype GIRIdentifier = GIRIdentifier(parent: string, name: string)

  /** GIRIdentifier.Matches: a wildcard name matches every item of the
    * parent. */
  predicate Matches(id: GIRIdentifier, parent: string, self: string) {
    if id.name == WildCard then parent == id.parent
    else parent == id.parent && self == id.name
  }

  lemma WildCardMatchesAll(p: string, self: string, self': string)
    ensures Matches(GIRIdentifier(p, WildCard), p, self) == Matches(GIRIdentifier(p, WildCard), p, self')
    ensures Matches(GIRIdentifier(p, WildCard), p, self)
  {
  }

  /** A pattern that is not a wildcard matches exactly its own item. */
  lemma ExactMatch(id: GIRIdentifier, parent: string, self: string)
    requires id.name != WildCard
    ensures Matches(id, parent, self) <==> GIRIdentifier(parent, self) == id
  {
  }

  /** GIRPattern: "Name" or "Parent.Name"; more dots are a panic in the
    * source. */
  function GIRPattern(s: string): (r: Result<GIRIdentifier>)
    ensures r.Ok? <==> Count(s, '.') <= 1
    ensures Count(s, '.') == 0 ==> r == Ok(GIRIdentifier("", s))
    ensures r.Ok? ==> '.' !in r.value.parent && '.' !in r.value.name
  {
    var parts := Split(s, '.');
    if |parts| == 1 then
      SplitNoSep(s, '.');
      Ok(GIRIdentifier("", parts[0]))
    else if |parts| == 2 then Ok(GIRIdentifier(parts[0], parts[1]))
    else Err("invalid GIR identifier")
  }

  /** GIRIdentifier.String: dot notation, or the bare name at top level. */
  function IdString(id: GIRIdentifier): (s: string)
  {
    if id.parent == "" then id.name else id.parent + "." + id.name
  }

  /** Printing a dot-free identifier and parsing it back gives it back. */
  lemma PatternOfString(id: GIRIdentifier)
    requires '.' !in id.parent && '.' !in id.name
    ensures GIRPattern(IdString(id)) == Ok(id)
  {
    if id.parent != "" {
      SplitJoin([id.parent, id.name], '.');
      assert Join([id.parent, id.name], '.') == IdString(id);
    }
  }

  /** Parsing a pattern and printing it gives the text back, unless the
    * text starts with the dot (its empty parent is then dropped). */
  lemma StringOfPattern(s: string)
    requires GIRPattern(s).Ok?
    requires s == [] || s[0] != '.'
    ensures IdString(GIRPattern(s).value) == s
  {
    var parts := Split(s, '.');
    JoinSplit(s, '.');
    if |parts| == 2 {
      assert Join(parts, '.') == parts[0] + "." + parts[1];
    }
  }

  // ---------------------------------------------------------------------------
  // Ignore functions

  /** IgnoreFunc: (parent name, name, info attributes) to "ignore it". */
  type IgnoreFunc = (string, string, Gir.InfoAttrs) -> bool

  /** Whether one of the functions ignores the item: the loop of ignoreOr's
    * combined function, first to last. */
  predicate AnyIgnores(fs: seq<IgnoreFunc>, parent: string, self: string, attrs: Gir.InfoAttrs) {
    if fs == [] then false
    else fs[0](parent, self, attrs) || AnyIgnores(fs[1..], parent, self, attrs)
  }

  /** ignoreOr: nothing is ignored by no function, one function is used as
    * it is, several are or-ed. */
  function IgnoreOr(fs: seq<IgnoreFunc>): (f: IgnoreFunc)
    ensures |fs| == 1 ==> f == fs[0]
  {
    if |fs| == 0 then (parent: string, self: string, attrs: Gir.InfoAttrs) => false
    else if |fs| == 1 then fs[0]
    else (parent: string, self: string, attrs: Gir.InfoAttrs) => AnyIgnores(fs, parent, self, attrs)
  }

  /** The loop finds a function that ignores the item, if there is one. */
  lemma {:induction false} AnyIgnoresExists(fs: seq<IgnoreFunc>, parent: string, self: string, attrs: Gir.InfoAttrs)
    ensures AnyIgnores(fs, parent, self, attrs) <==> exists i :: 0 <= i < |fs| && fs[i](parent, self, attrs)
  {
    if fs != [] {
      AnyIgnoresExists(fs[1..], parent, self, attrs);
      if fs[0](parent, self, attrs) {
      } else {
        forall i | 0 < i < |fs| && fs[i](parent, self, attrs)
          ensures fs[1..][i - 1](parent, self, attrs)
        {
        }
      }
    }
  }

  /** The combination ignores an item iff some function does. */
  lemma IgnoreOrIsAny(fs: seq<IgnoreFunc>, parent: string, self: string, attrs: Gir.InfoAttrs)
    ensures IgnoreOr(fs)(parent, self, attrs) <==> exists i :: 0 <= i < |fs| && fs[i](parent, self, attrs)
  {
    AnyIgnoresExists(fs, parent, self, attrs);
  }

  /** IgnoreMatching: ignores what the pattern matches; a malformed pattern
    * is a panic in the source. */
  function IgnoreMatching(pattern: string): (r: Result<IgnoreFunc>)
    ensures r.Ok? <==> GIRPattern(pattern).Ok?
    ensures r.Ok? ==> forall parent, self, attrs ::
              r.value(parent, self, attrs) == Matches(GIRPattern(pattern).value, parent, self)
  {
    match GIRPattern(pattern)
    case Err(m) => Err(m)
    case Ok(id) => Ok((parent: string, self: string, attrs: Gir.InfoAttrs) => Matches(id, parent, self))
  }

  /** The text IgnoreByRegex hands the expression: the bare name at top
    * level, else "parent.self". */
  function RegexSubject(parent: string, self: string): (s: string)
    ensures parent == "" ==> s == self
    ensures parent != "" ==> HasPrefix(s, parent + ".") && s[|parent| + 1..] == self
  {
    if parent == "" then self else parent + "." + self
  }

  /** IgnoreByRegex; `matches` stands for the compiled expression's Match. */
  function IgnoreByRegex(matches: string -> bool): (f: IgnoreFunc)
    ensures forall parent, self, attrs :: f(parent, self, attrs) == matches(RegexSubject(parent, self))
  {
    (parent: string, self: string, attrs: Gir.InfoAttrs) => matches(RegexSubject(parent, self))
  }

  /** A top-level name and its dotted spelling under its parent reach the
    * expression as the same text they would print as. */
  lemma RegexSubjectIsIdString(parent: string, self: string)
    ensures RegexSubject(parent, self) == IdString(GIRIdentifier(parent, self))
  {
  }
}
