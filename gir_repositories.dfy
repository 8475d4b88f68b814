/** The set of parsed GIR files and the lookup of a dotted path such as
  * `Gtk-4.Widget.show` through namespaces, types and their members. */
module GirRepositories {
  import opened Wrappers
  import opened Strings
  import opened CustomAttrs
  import opened Gir

  /** The parsed files by file name, in the order Go's map iteration happens
    * to visit them. */
  type Repositories = seq<(string, Repository)>

  /** Repositories.Repository: the file with the given name, if any. */
  function RepositoryNamed(repos: Repositories, filename: string): (r: Option<nat>)
    ensures r.Some? ==> r.value < |repos| && repos[r.value].0 == filename
    ensures r.None? ==> forall i :: 0 <= i < |repos| ==> repos[i].0 != filename
  {
    IndexWhere(repos, (e: (string, Repository)) => e.0 == filename)
  }

  /** strings.Cut with a one-character separator: text before and after the
    * first separator and whether there was one. */
  function Cut(s: string, sep: char): (r: (string, string, bool))
    ensures r.2 <==> sep in s
    ensures r.2 ==> s == r.0 + [sep] + r.1 && sep !in r.0
    ensures !r.2 ==> r.0 == s && r.1 == []
  {
    if s == [] then ([], [], false)
    else if s[0] == sep then
      assert s == [] + [sep] + s[1..];
      ([], s[1..], true)
    else
      var (b, a, f) := Cut(s[1..], sep);
      assert f ==> s == ([s[0]] + b) + [sep] + a;
      ([s[0]] + b, a, f)
  }

  /** The first namespace, in iteration order, with that name and major
    * version. */
  function FindNamespace(repos: Repositories, name: string, major: int): (r: Option<Namespace>)
    ensures r.Some? ==> r.value.name == name && r.value.version.major == major
    ensures r.None? ==> forall i, j :: 0 <= i < |repos| && 0 <= j < |repos[i].1.namespaces| ==>
      !(repos[i].1.namespaces[j].name == name && repos[i].1.namespaces[j].version.major == major)
  {
    if repos == [] then None
    else
      match IndexWhere(repos[0].1.namespaces, (n: Namespace) => n.name == name && n.version.major == major)
      case Some(j) => Some(repos[0].1.namespaces[j])
      case None => FindNamespace(repos[1..], name, major)
  }

  /** Repositories.Find for a versioned name like "Gtk-4": panics (Err)
    * without a '-', finds nothing for a malformed version, and otherwise
    * matches the name and the major version only. */
  function ReposFind(repos: Repositories, versioned: string): (r: Result<Option<Node>>)
    ensures '-' !in versioned <==> r.Err?
    ensures r.Ok? && r.value.Some? ==> r.value.value.NamespaceNode?
  {
    var (name, versionText, found) := Cut(versioned, '-');
    if !found then Err("invalid namespace name: " + versioned)
    else match ParseVersion(versionText)
      case Err(_) => Ok(None)
      case Ok(v) =>
        match FindNamespace(repos, name, v.major)
        case None => Ok(None)
        case Some(n) => Ok(Some(NamespaceNode(n)))
  }

  /** A namespace is found by any version string with the same major. */
  lemma ReposFindIgnoresMinor(repos: Repositories, name: string, v: Version)
    requires '-' !in name
    requires InInt64(v.major) && InInt64(v.minor) && InInt64(v.patch)
    ensures ReposFind(repos, name + ['-'] + VersionString(v))
      == ReposFind(repos, name + ['-'] + VersionString(Version(v.major, 0, 0)))
  {
    CutAt(name, '-', VersionString(v));
    CutAt(name, '-', VersionString(Version(v.major, 0, 0)));
    ParseVersionString(v);
    ParseVersionString(Version(v.major, 0, 0));
  }

  /** Cut splits at the first separator: the text before it is returned whole. */
  lemma {:induction false} CutAt(a: string, sep: char, b: string)
    requires sep !in a
    ensures Cut(a + [sep] + b, sep) == (a, b, true)
  {
    var s := a + [sep] + b;
    if a == [] {
      assert s == [sep] + b;
      assert s[1..] == b;
    } else {
      assert s[0] == a[0];
      assert s[1..] == a[1..] + [sep] + b;
      assert sep !in a[1..] by { assert forall x :: x in a[1..] ==> x in a; }
      CutAt(a[1..], sep, b);
      assert [a[0]] + a[1..] == a;
    }
  }

  /** subPaths: the dot-separated parts of a path, stopping at the first
    * empty part. */
  function SubPaths(path: string): (parts: seq<string>)
    ensures forall i :: 0 <= i < |parts| ==> parts[i] != [] && '.' !in parts[i]
    decreases |path|
  {
    var (first, rest, _) := Cut(path, '.');
    if first == [] then [] else [first] + SubPaths(rest)
  }

  /** The longest prefix of xs whose elements are all non-empty. */
  function TakeNonEmpty(xs: seq<string>): seq<string> {
    if xs == [] || xs[0] == [] then [] else [xs[0]] + TakeNonEmpty(xs[1..])
  }

  /** subPaths yields what strings.Split would, up to the first empty part. */
  lemma {:induction false} SubPathsIsSplitPrefix(path: string)
    ensures SubPaths(path) == TakeNonEmpty(Split(path, '.'))
    decreases |path|
  {
    var (first, rest, found) := Cut(path, '.');
    if found {
      SplitPrefix(first, '.', rest);
      if first != [] {
        SubPathsIsSplitPrefix(rest);
        assert ([first] + Split(rest, '.'))[1..] == Split(rest, '.');
      }
    } else {
      SplitNoSep(path, '.');
    }
  }

  /** FindFullType exactly as the loop is written: `current == nil` is read
    * as "first part", so a part that is not found makes the next part start
    * a new search among the repositories. */
  function FindFullTypeAsWritten(repos: Repositories, parts: seq<string>, current: Option<Node>): Result<Option<Node>>
    decreases |parts|
  {
    if parts == [] then Ok(current)
    else if current.None? then
      match ReposFind(repos, parts[0])
      case Err(e) => Err(e)
      case Ok(None) => Ok(None)
      case Ok(Some(n)) => FindFullTypeAsWritten(repos, parts[1..], Some(n))
    else if IsSearchable(current.value) then
      FindFullTypeAsWritten(repos, parts[1..], Find(current.value, parts[0]))
    else Ok(None)
  }

  /** Descending from a node along the remaining parts; a missing or
    * non-searchable step ends the walk with nothing found. */
  function Walk(node: Node, parts: seq<string>): Option<Node>
    decreases |parts|
  {
    if parts == [] then Some(node)
    else if !IsSearchable(node) then None
    else match Find(node, parts[0])
      case None => None
      case Some(n) => Walk(n, parts[1..])
  }

  /** Once a step finds nothing, no longer path can find anything. */
  lemma {:induction false} WalkPrefixClosed(node: Node, parts: seq<string>, more: seq<string>)
    requires Walk(node, parts).None?
    ensures Walk(node, parts + more).None?
    decreases |parts|
  {
    assert parts != [];
    assert (parts + more)[0] == parts[0];
    assert (parts + more)[1..] == parts[1..] + more;
    if IsSearchable(node) && Find(node, parts[0]).Some? {
      WalkPrefixClosed(Find(node, parts[0]).value, parts[1..], more);
    }
  }

  /** What a dotted path denotes: the first part selects a namespace, every
    * later part is looked up in what the previous part found. */
  function FullType(repos: Repositories, path: string): Result<Option<Node>> {
    var parts := SubPaths(path);
    if parts == [] then Ok(None)
    else match ReposFind(repos, parts[0])
      case Err(e) => Err(e)
      case Ok(None) => Ok(None)
      case Ok(Some(n)) => Ok(Walk(n, parts[1..]))
  }

  /** Repositories.FindFullType with the first-part test made explicit. */
  method FindFullType(repos: Repositories, path: string) returns (r: Result<Option<Node>>)
    ensures r == FullType(repos, path)
  {
    var parts := SubPaths(path);
    if parts == [] {
      return Ok(None);
    }
    var first := ReposFind(repos, parts[0]);
    if first.Err? {
      return Err(first.msg);
    }
    if first.value.None? {
      return Ok(None);
    }
    var current := first.value.value;
    var i := 1;
    while i < |parts|
      invariant 1 <= i <= |parts|
      invariant Walk(first.value.value, parts[1..]) == Walk(current, parts[i..])
    {
      assert parts[i..][1..] == parts[i + 1..];
      if !IsSearchable(current) {
        return Ok(None);
      }
      var next := Find(current, parts[i]);
      if next.None? {
        return Ok(None);
      }
      current := next.value;
      i := i + 1;
    }
    return Ok(Some(current));
  }

  /** A path whose middle part is missing finds nothing, whatever follows. */
  lemma FindFullTypeMissingMiddle(node: Node, missing: string, rest: seq<string>)
    requires IsSearchable(node) && Find(node, missing).None?
    ensures Walk(node, [missing] + rest).None?
  {
    assert Walk(node, [missing]).None?;
    WalkPrefixClosed(node, [missing], rest);
  }

  /** The loop as written restarts the search after a missing part: the
    * path first.missing.first finds what "first" finds, although "missing"
    * does not exist below it. */
  lemma FindFullTypeAsWrittenRestarts(repos: Repositories, first: string, missing: string, n: Node)
    requires ReposFind(repos, first) == Ok(Some(n))
    requires Find(n, missing).None?
    ensures FindFullTypeAsWritten(repos, [first, missing, first], None) == Ok(Some(n))
    ensures Walk(n, [missing, first]).None?
  {
    assert n.NamespaceNode?;
    assert [first, missing, first][1..] == [missing, first];
    assert [missing, first][1..] == [first];
    assert FindFullTypeAsWritten(repos, [first], None) == Ok(Some(n)) by {
      assert [first][1..] == [];
    }
  }

  /** A concrete repository where the restart happens: namespace Gtk 4 has
    * no member "Missing", yet the path "Gtk-4.Missing.Gtk-4" finds Gtk
    * itself. */
  lemma FindFullTypeAsWrittenCounterexample(path: string)
    requires path == "Gtk-4.Missing.Gtk-4"
    ensures var gtk := EmptyNamespace("Gtk", Version(4, 0, 0));
      var repos := [("Gtk-4.0.gir", Repository([], [], [], [gtk]))];
      && FindFullTypeAsWritten(repos, SubPaths(path), None) == Ok(Some(NamespaceNode(gtk)))
      && Walk(NamespaceNode(gtk), SubPaths(path)[1..]).None?
  {
    var gtk := EmptyNamespace("Gtk", Version(4, 0, 0));
    var repos := [("Gtk-4.0.gir", Repository([], [], [], [gtk]))];
    GtkFound(gtk, repos);
    assert NamespaceFind(gtk, "Missing").None?;
    FindFullTypeAsWrittenRestarts(repos, "Gtk-4", "Missing", NamespaceNode(gtk));
    SubPathsOfExample(path);
    assert SubPaths(path)[1..] == ["Missing", "Gtk-4"];
  }

  lemma SubPathsCons(a: string, rest: string)
    requires a != [] && '.' !in a
    ensures SubPaths(a + ['.'] + rest) == [a] + SubPaths(rest)
  {
    CutAt(a, '.', rest);
  }

  lemma SubPathsSingle(a: string)
    requires a != [] && '.' !in a
    ensures SubPaths(a) == [a]
  {
    assert Cut(a, '.') == (a, [], false);
    assert Cut([], '.') == ([], [], false);
  }

  lemma SubPathsOfExample(path: string)
    requires path == "Gtk-4.Missing.Gtk-4"
    ensures SubPaths(path) == ["Gtk-4", "Missing", "Gtk-4"]
  {
    var g: string, m: string := "Gtk-4", "Missing";
    assert g + ['.'] + (m + ['.'] + g) == path;
    assert '.' !in g && '.' !in m by {
      assert forall i :: 0 <= i < |g| ==> g[i] != '.';
      assert forall i :: 0 <= i < |m| ==> m[i] != '.';
    }
    SubPathsCons(g, m + ['.'] + g);
    SubPathsCons(m, g);
    SubPathsSingle(g);
  }

  lemma GtkFound(gtk: Namespace, repos: Repositories)
    requires gtk == EmptyNamespace("Gtk", Version(4, 0, 0))
    requires repos == [("Gtk-4.0.gir", Repository([], [], [], [gtk]))]
    ensures ReposFind(repos, "Gtk-4") == Ok(Some(NamespaceNode(gtk)))
  {
    CutAt("Gtk", '-', "4");
    assert "Gtk" + ['-'] + "4" == "Gtk-4";
    ParseVersionMajorOnly("4");
    assert FindNamespace(repos, "Gtk", 4) == Some(gtk);
  }

  function EmptyNamespace(name: string, version: Version): Namespace {
    Namespace(name, version, [], [], [], [], [], [], [], [], [], [], [], [])
  }
}
