/** Preprocessors that edit the parsed GIR files before generation: removing
  * pkg-config packages and C includes, renaming a type, and locating the
  * signal a signal modifier applies to. Regular-expression matching is a
  * parameter (`matches(pattern, text)` stands for regexp.MatchString). */
module GirPreprocess {
  import opened Wrappers
  import opened Strings
  import opened Gir
  import opened GirRepositories

  /** The elements of xs that satisfy keep, in their original order. */
  function Filter(xs: seq<string>, keep: string -> bool): (r: seq<string>)
    ensures |r| <= |xs|
    ensures forall x :: x in r <==> x in xs && keep(x)
  {
    if xs == [] then [] else (if keep(xs[0]) then [xs[0]] else []) + Filter(xs[1..], keep)
  }

  lemma {:induction false} FilterAppend(xs: seq<string>, x: string, keep: string -> bool)
    ensures Filter(xs + [x], keep) == Filter(xs, keep) + (if keep(x) then [x] else [])
  {
    if xs != [] {
      assert (xs + [x])[1..] == xs[1..] + [x];
      FilterAppend(xs[1..], x, keep);
    } else {
      assert [x][1..] == [];
    }
  }

  /** Filtering a concatenation filters each part: kept elements stay in
    * their original relative order. */
  lemma {:induction false} FilterConcat(a: seq<string>, b: seq<string>, keep: string -> bool)
    ensures Filter(a + b, keep) == Filter(a, keep) + Filter(b, keep)
  {
    if a != [] {
      assert (a + b)[0] == a[0] && (a + b)[1..] == a[1..] + b;
      FilterConcat(a[1..], b, keep);
    } else {
      assert a + b == b;
    }
  }

  /** A list whose every element is kept comes back unchanged. */
  lemma {:induction false} FilterKeepsAll(xs: seq<string>, keep: string -> bool)
    requires forall i :: 0 <= i < |xs| ==> keep(xs[i])
    ensures Filter(xs, keep) == xs
  {
    if xs != [] {
      FilterKeepsAll(xs[1..], keep);
    }
  }

  /** The repositories with file i's package list replaced. */
  function WithPackages(repos: Repositories, i: nat, packages: seq<string>): Repositories
    requires i < |repos|
  {
    repos[i := (repos[i].0, repos[i].1.(packages := packages))]
  }

  /** The filter RemovePkgconfig applies. */
  function OtherPackage(pkgconfig: string): string -> bool {
    p => p != pkgconfig
  }

  /** RemovePkgconfig on one file's package list: drops the packages named
    * pkgconfig, keeping the others in their original order. */
  method KeepPackages(packages: seq<string>, pkgconfig: string) returns (kept: seq<string>)
    ensures kept == Filter(packages, OtherPackage(pkgconfig))
  {
    kept := [];
    var j := 0;
    while j < |packages|
      invariant 0 <= j <= |packages|
      invariant kept == Filter(packages[..j], OtherPackage(pkgconfig))
    {
      FilterAppend(packages[..j], packages[j], OtherPackage(pkgconfig));
      assert packages[..j + 1] == packages[..j] + [packages[j]];
      if packages[j] != pkgconfig {
        kept := kept + [packages[j]];
      }
      j := j + 1;
    }
    assert packages[..j] == packages;
  }

  /** An include survives when no pattern matches it. */
  predicate KeepInclude(inc: string, regexes: seq<string>, matches: (string, string) -> bool) {
    forall k :: 0 <= k < |regexes| ==> !matches(regexes[k], inc)
  }

  /** The filter RemoveCIncludes applies. */
  function Unmatched(regexes: seq<string>, matches: (string, string) -> bool): string -> bool {
    inc => KeepInclude(inc, regexes, matches)
  }

  /** RemoveCIncludes on one file's include list: drops every include that
    * any pattern matches, keeping the rest in order. */
  method RemoveCIncludes(includes: seq<string>, regexes: seq<string>, matches: (string, string) -> bool)
    returns (kept: seq<string>)
    ensures kept == Filter(includes, Unmatched(regexes, matches))
  {
    kept := [];
    var j := 0;
    while j < |includes|
      invariant 0 <= j <= |includes|
      invariant kept == Filter(includes[..j], Unmatched(regexes, matches))
    {
      var inc := includes[j];
      var matched := false;
      var k := 0;
      while k < |regexes| && !matched
        invariant 0 <= k <= |regexes|
        invariant matched <==> exists m :: 0 <= m < k && matches(regexes[m], inc)
      {
        matched := matches(regexes[k], inc);
        k := k + 1;
      }
      FilterAppend(includes[..j], inc, Unmatched(regexes, matches));
      assert includes[..j + 1] == includes[..j] + [inc];
      if !matched {
        kept := kept + [inc];
      }
      j := j + 1;
    }
    assert includes[..j] == includes;
  }

  /** The kinds TypeRenamer can rename. */
  predicate Renamable(n: Node) {
    n.ClassNode? || n.InterfaceNode? || n.RecordNode? || n.EnumNode? || n.BitfieldNode?
    || n.UnionNode? || n.FunctionNode? || n.CallbackNode? || n.AliasNode? || n.ConstantNode?
  }

  /** TypeRenamer: the found node with its new name. A path that finds
    * nothing, or a node of a kind without a name to change, is a panic. */
  function Rename(found: Option<Node>, to: string): (r: Result<Node>)
    ensures r.Ok? <==> found.Some? && Renamable(found.value)
    ensures r.Ok? ==> NodeName(r.value) == to
    ensures r.Ok? ==> RenamedNode(r.value, NodeName(found.value)) == Some(found.value)
  {
    if found.None? then Err("GIR type not found")
    else match RenamedNode(found.value, to)
      case None => Err("GIR type is not a type that can be renamed")
      case Some(n) => Ok(n)
  }

  /** The renamed node for the kinds TypeRenamer supports: it carries the new
    * name, is of the same kind, and renaming it back gives the node it came
    * from, so nothing but the name changed. None for the rest (namespaces,
    * methods, signals, fields, members, ...). */
  function RenamedNode(n: Node, to: string): (r: Option<Node>)
    ensures r.Some? <==> Renamable(n)
    ensures r.Some? ==> NodeName(r.value) == to && Renamable(r.value)
    ensures r.Some? ==> RenameBack(r.value, NodeName(n)) == n
  {
    match n
    case ClassNode(c) => Some(ClassNode(c.(name := to)))
    case InterfaceNode(i) => Some(InterfaceNode(i.(name := to)))
    case RecordNode(r) => Some(RecordNode(r.(name := to)))
    case EnumNode(e) => Some(EnumNode(e.(name := to)))
    case BitfieldNode(b) => Some(BitfieldNode(b.(name := to)))
    case UnionNode(u) => Some(UnionNode(u.(name := to)))
    case FunctionNode(f) => Some(FunctionNode(f.(name := to)))
    case CallbackNode(c) => Some(CallbackNode(c.(attrs := c.attrs.(name := to))))
    case AliasNode(a) => Some(AliasNode(a.(name := to)))
    case ConstantNode(c) => Some(ConstantNode(c.(name := to)))
    case _ => None
  }

  /** The name field of a renamable node set back to `old`, written field by
    * field so that RenamedNode's contract can be checked against it. */
  function RenameBack(n: Node, prev: string): Node
    requires Renamable(n)
  {
    match n
    case ClassNode(c) => ClassNode(Class(prev, c.parent, c.ctype, c.glibTypeStruct, c.implements, c.methods,
      c.virtualMethods, c.functions, c.signals, c.fields, c.constructors, c.info))
    case InterfaceNode(i) => InterfaceNode(Interface(prev, i.ctype, i.glibTypeStruct, i.prerequisites, i.methods,
      i.virtualMethods, i.functions, i.signals, i.info))
    case RecordNode(r) => RecordNode(Record(prev, r.ctype, r.disguised, r.foreign, r.fields, r.functions,
      r.methods, r.constructors, r.unions, r.info))
    case EnumNode(e) => EnumNode(Enum(prev, e.members, e.functions))
    case BitfieldNode(b) => BitfieldNode(Enum(prev, b.members, b.functions))
    case UnionNode(u) => UnionNode(Union(prev))
    case FunctionNode(f) => FunctionNode(f.(name := prev))
    case CallbackNode(c) => CallbackNode(Callback(c.ctype, c.attrs.(name := prev)))
    case AliasNode(a) => AliasNode(Alias(prev, a.ctype, a.info, a.typ))
    case ConstantNode(c) => ConstantNode(Constant(prev))
  }

  /** TypeRenamer's Preprocess: the node the full path finds, renamed. */
  function TypeRenamer(repos: Repositories, from: string, to: string): (r: Result<Node>)
    ensures FullType(repos, from).Err? ==> r.Err?
    ensures r.Ok? <==> (FullType(repos, from).Ok? && FullType(repos, from).value.Some?
      && Renamable(FullType(repos, from).value.value))
    ensures r.Ok? ==> (NodeName(r.value) == to
      && RenamedNode(r.value, NodeName(FullType(repos, from).value.value)) == Some(FullType(repos, from).value.value))
  {
    match FullType(repos, from)
    case Err(e) => Err(e)
    case Ok(found) => Rename(found, to)
  }

  /** "::" starts at k exactly when the two characters there are colons. */
  lemma DoubleColonAt(s: string, k: nat)
    ensures OccursAt(s, "::", k) <==> k + 1 < |s| && s[k] == ':' && s[k + 1] == ':'
  {
    if k + 1 < |s| {
      assert s[k..k + 2] == [s[k], s[k + 1]];
    }
  }

  /** Start of the last "::" in s, or -1. */
  function LastDoubleColon(s: string): (q: int)
    ensures -1 <= q < |s| - 1 || q == -1
    ensures q >= 0 ==> s[q] == ':' && s[q + 1] == ':'
    ensures q >= 0 ==> forall k :: q < k < |s| - 1 ==> !(s[k] == ':' && s[k + 1] == ':')
    ensures q == -1 ==> forall k :: 0 <= k < |s| - 1 ==> !(s[k] == ':' && s[k + 1] == ':')
    decreases |s|
  {
    if |s| < 2 then -1
    else if s[|s| - 2] == ':' && s[|s| - 1] == ':' then |s| - 2
    else LastDoubleColon(s[..|s| - 1])
  }

  /** Some '.' comes before some "::": what `(.*)\.(.*)::(.*)` needs. */
  predicate HasSignalShape(s: string) {
    exists p: nat, q: nat :: p < q < |s| && OccursAt(s, "::", q) && s[p] == '.'
  }

  /** The groups of `(.*)\.(.*)::(.*)`: both stars before "::" are greedy,
    * so the split is at the last "::" and at the last '.' before it. The
    * input is read as a single line matched from its start. No match is a
    * panic. */
  function ParseSignalPath(girType: string): (r: Result<(string, string, string)>)
    ensures r.Err? <==> !HasSignalShape(girType)
    ensures r.Ok? ==> girType == r.value.0 + "." + r.value.1 + "::" + r.value.2
    ensures r.Ok? ==> '.' !in r.value.1
    ensures r.Ok? ==> (forall k: nat :: !OccursAt(r.value.2, "::", k)) && (r.value.2 == [] || r.value.2[0] != ':')
  {
    var q := LastDoubleColon(girType);
    if q < 0 then
      assert !HasSignalShape(girType) by {
        forall q': nat | OccursAt(girType, "::", q') ensures false {
          DoubleColonAt(girType, q');
        }
      }
      Err("GIR signal type invalid")
    else
      var p := LastIndex(girType[..q], '.');
      if p < 0 then
        assert !HasSignalShape(girType) by {
          forall p': nat, q': nat | p' < q' && OccursAt(girType, "::", q') ensures girType[p'] != '.' {
            DoubleColonAt(girType, q');
            assert girType[..q][p'] == girType[p'];
          }
        }
        Err("GIR signal type invalid")
      else
        var g1, g2, g3 := girType[..p], girType[p + 1..q], girType[q + 2..];
        assert girType == g1 + "." + g2 + "::" + g3 by {
          assert girType[..q][p] == '.';
          assert girType == girType[..p] + [girType[p]] + girType[p + 1..q] + [girType[q], girType[q + 1]] + girType[q + 2..];
        }
        assert g2 == girType[..q][p + 1..];
        assert HasSignalShape(girType) by {
          DoubleColonAt(girType, q);
          assert girType[..q][p] == girType[p];
        }
        assert forall k: nat :: !OccursAt(g3, "::", k) by {
          forall k: nat ensures !OccursAt(g3, "::", k) {
            DoubleColonAt(g3, k);
            if k + 1 < |g3| {
              assert g3[k] == girType[q + 2 + k] && g3[k + 1] == girType[q + 3 + k];
            }
          }
        }
        assert g3 != [] ==> g3[0] == girType[q + 2];
        Ok((g1, g2, g3))
  }

  /** The signals a node declares: a class's or an interface's, none for the
    * other kinds. */
  function SignalsOf(n: Node): seq<Signal> {
    match n
    case ClassNode(c) => c.signals
    case InterfaceNode(it) => it.signals
    case _ => []
  }

  /** ModifySignal's target: the first signal with the parsed name in the
    * class or interface the "namespace.type" part finds; None when the type
    * is neither or has no such signal. */
  function SignalTarget(found: Option<Node>, signalName: string): (r: Result<Option<Signal>>)
    ensures found.None? <==> r.Err?
    ensures found.Some? && !found.value.ClassNode? && !found.value.InterfaceNode? ==> r == Ok(None)
    ensures found.Some? ==> var sigs := SignalsOf(found.value);
      r.Ok? && (r.value.Some? <==> exists i :: 0 <= i < |sigs| && sigs[i].name == signalName)
    ensures r.Ok? && r.value.Some? ==> var sigs := SignalsOf(found.value);
      exists i :: 0 <= i < |sigs| && sigs[i] == r.value.value && sigs[i].name == signalName
        && forall j :: 0 <= j < i ==> sigs[j].name != signalName
  {
    if found.None? then Err("GIR type not found")
    else match found.value
      case ClassNode(c) =>
        (match IndexWhere(c.signals, (s: Signal) => s.name == signalName)
         case Some(i) => Ok(Some(c.signals[i]))
         case None => Ok(None))
      case InterfaceNode(it) =>
        (match IndexWhere(it.signals, (s: Signal) => s.name == signalName)
         case Some(i) => Ok(Some(it.signals[i]))
         case None => Ok(None))
      case _ => Ok(None)
  }

  /** ModifySignal: the path is parsed when the preprocessor is made, then
    * "namespace.type" is looked up and the signal is searched in it. */
  function ModifySignalTarget(repos: Repositories, girType: string): (r: Result<Option<Signal>>)
    ensures !HasSignalShape(girType) ==> r.Err?
    ensures HasSignalShape(girType) ==> var g := ParseSignalPath(girType).value;
      (FullType(repos, g.0 + "." + g.1).Ok? && FullType(repos, g.0 + "." + g.1).value.Some? <==> r.Ok?)
      && (r.Ok? && r.value.Some? ==> (r.value.value.name == g.2
            && r.value.value in SignalsOf(FullType(repos, g.0 + "." + g.1).value.value)))
  {
    match ParseSignalPath(girType)
    case Err(e) => Err(e)
    case Ok(g) =>
      match FullType(repos, g.0 + "." + g.1)
      case Err(e) => Err(e)
      case Ok(found) => SignalTarget(found, g.2)
  }

  /** The preprocessors that edit a file's lists; renames and signal edits
    * only locate their target here. */
  datatype Preprocessor =
    | RemovePkgconfigStep(filename: string, pkgconfig: string)
    | RemoveCIncludesStep(filename: string, regexes: seq<string>)
  {
    function StepName(): string {
      if RemovePkgconfigStep? then "RemovePkgconfig" else "RemoveCIncludes"
    }
  }

  function WithCIncludes(repos: Repositories, i: nat, cIncludes: seq<string>): Repositories
    requires i < |repos|
  {
    repos[i := (repos[i].0, repos[i].1.(cIncludes := cIncludes))]
  }

  /** What one preprocessor does to the repositories: the named file must
    * exist, and only its package or include list changes. */
  function Step(repos: Repositories, p: Preprocessor, matches: (string, string) -> bool): (r: Result<Repositories>)
    ensures r.Err? <==> RepositoryNamed(repos, p.filename).None?
    ensures r.Ok? ==> |r.value| == |repos| && forall i :: 0 <= i < |repos| ==> r.value[i].0 == repos[i].0
    ensures r.Ok? ==> var k := RepositoryNamed(repos, p.filename).value;
      (forall i :: 0 <= i < |repos| && i != k ==> r.value[i] == repos[i])
      && r.value[k].1.namespaces == repos[k].1.namespaces
      && r.value[k].1.includes == repos[k].1.includes
    ensures r.Ok? && p.RemovePkgconfigStep? ==> var k := RepositoryNamed(repos, p.filename).value;
      r.value[k].1.cIncludes == repos[k].1.cIncludes
      && forall x :: x in r.value[k].1.packages <==> x in repos[k].1.packages && x != p.pkgconfig
    ensures r.Ok? && p.RemoveCIncludesStep? ==> var k := RepositoryNamed(repos, p.filename).value;
      r.value[k].1.packages == repos[k].1.packages
      && forall x :: x in r.value[k].1.cIncludes <==> x in repos[k].1.cIncludes && KeepInclude(x, p.regexes, matches)
  {
    match RepositoryNamed(repos, p.filename)
    case None => Err(p.StepName() + ": repository not found: " + p.filename)
    case Some(i) =>
      match p
      case RemovePkgconfigStep(_, pkg) =>
        Ok(WithPackages(repos, i, Filter(repos[i].1.packages, OtherPackage(pkg))))
      case RemoveCIncludesStep(_, regexes) =>
        Ok(WithCIncludes(repos, i, Filter(repos[i].1.cIncludes, Unmatched(regexes, matches))))
  }

  /** One preprocessor applied to the repositories. */
  method Preprocess(repos: Repositories, p: Preprocessor, matches: (string, string) -> bool)
    returns (r: Result<Repositories>)
    ensures r == Step(repos, p, matches)
  {
    var idx := RepositoryNamed(repos, p.filename);
    if idx.None? {
      return Err(p.StepName() + ": repository not found: " + p.filename);
    }
    var i := idx.value;
    match p
    case RemovePkgconfigStep(f, pkg) =>
      var packages := KeepPackages(repos[i].1.packages, pkg);
      r := Ok(WithPackages(repos, i, packages));
    case RemoveCIncludesStep(f, regexes) =>
      var kept := RemoveCIncludes(repos[i].1.cIncludes, regexes, matches);
      r := Ok(WithCIncludes(repos, i, kept));
  }

  /** The preprocessors applied in list order, each seeing the result of the
    * ones before; the first failure ends the run. */
  function ApplyAll(repos: Repositories, ps: seq<Preprocessor>, matches: (string, string) -> bool): (r: Result<Repositories>)
    ensures ps == [] ==> r == Ok(repos)
    ensures r.Ok? ==> |r.value| == |repos| && forall i :: 0 <= i < |repos| ==> r.value[i].0 == repos[i].0
    decreases |ps|
  {
    if ps == [] then Ok(repos)
    else match Step(repos, ps[0], matches)
      case Err(e) => Err(e)
      case Ok(next) => ApplyAll(next, ps[1..], matches)
  }

  /** Running a + b is running a, then b on its result. */
  lemma {:induction false} ApplyAllAppend(repos: Repositories, a: seq<Preprocessor>, b: seq<Preprocessor>, matches: (string, string) -> bool)
    ensures ApplyAll(repos, a + b, matches) ==
      (match ApplyAll(repos, a, matches) case Err(e) => Err(e) case Ok(mid) => ApplyAll(mid, b, matches))
    decreases |a|
  {
    if a != [] {
      assert (a + b)[0] == a[0] && (a + b)[1..] == a[1..] + b;
      match Step(repos, a[0], matches)
      case Err(_) =>
      case Ok(next) => ApplyAllAppend(next, a[1..], b, matches);
    } else {
      assert a + b == b;
    }
  }

  /** ApplyPreprocessors: the preprocessors run one after the other in list
    * order. */
  method ApplyPreprocessors(repos: Repositories, preprocs: seq<Preprocessor>, matches: (string, string) -> bool)
    returns (r: Result<Repositories>)
    ensures r == ApplyAll(repos, preprocs, matches)
  {
    var current := repos;
    var k := 0;
    while k < |preprocs|
      invariant 0 <= k <= |preprocs|
      invariant ApplyAll(current, preprocs[k..], matches) == ApplyAll(repos, preprocs, matches)
    {
      assert preprocs[k..][1..] == preprocs[k + 1..];
      var step := Preprocess(current, preprocs[k], matches);
      if step.Err? {
        return Err(step.msg);
      }
      current := step.value;
      k := k + 1;
    }
    return Ok(current);
  }
}
