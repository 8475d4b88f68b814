/** Transitive namespace includes (namespace_includes.go): every namespace
  * of every repository gets the map of the namespaces it includes, directly
  * or through other includes, and a resolve index that numbers the
  * namespaces in the order their include collection finished; the
  * repositories are then sorted by that index so that dependencies come
  * first. */
module NamespaceIncludes {
  import opened Wrappers
  import opened CustomAttrs
  import Gir
  import GirRepositories
  import Config

  /** versionedName: a namespace name and its full version. */
  datatype VName = VName(name: string, version: Version)

  /** A value of a namespace's includes map. Before collection it is a
    * placeholder that carries only the included versioned name; collection
    * puts the included namespace itself there, named by its position among
    * all namespaces. */
  datatype Entry = Placeholder(vname: VName) | Found(ns: nat)

  // ---------------------------------------------------------------------------
  // repoPrefilledIncludes

  /** The position of the last of the first n includes that is named k. */
  function LastNamed(includes: seq<Gir.Include>, n: nat, k: string): (r: Option<nat>)
    requires n <= |includes|
    ensures r.Some? ==> r.value < n && includes[r.value].name == k
    ensures r.Some? ==> forall j :: r.value < j < n ==> includes[j].name != k
    ensures r.None? ==> forall j :: 0 <= j < n ==> includes[j].name != k
  {
    if n == 0 then None
    else if includes[n - 1].name == k then Some(n - 1)
    else LastNamed(includes, n - 1, k)
  }

  /** m maps every name among the first n includes to the versioned name of
    * the last of them with that name, and holds nothing else. */
  ghost predicate PrefillUpTo(includes: seq<Gir.Include>, n: nat, m: map<string, VName>)
    requires n <= |includes|
  {
    forall k :: (k in m <==> LastNamed(includes, n, k).Some?)
      && (k in m ==> m[k] == VName(k, includes[LastNamed(includes, n, k).value].version))
  }

  ghost predicate PrefillOf(includes: seq<Gir.Include>, m: map<string, VName>) {
    PrefillUpTo(includes, |includes|, m)
  }

  /** repoPrefilledIncludes: the repository's includes by name, a later
    * include of the same name replacing an earlier one. */
  method PrefilledIncludes(includes: seq<Gir.Include>) returns (m: map<string, VName>)
    ensures PrefillOf(includes, m)
    ensures forall k :: k in m ==> m[k].name == k
  {
    m := map[];
    for n := 0 to |includes|
      invariant PrefillUpTo(includes, n, m)
      invariant forall k :: k in m ==> m[k].name == k
    {
      var inc := includes[n];
      m := m[inc.name := VName(inc.name, inc.version)];
    }
  }

  /** The includes map of a namespace that has not been collected. */
  function Placeholders(m: map<string, VName>): (r: map<string, Entry>)
    ensures r.Keys == m.Keys
    ensures forall k :: k in r ==> r[k] == Placeholder(m[k])
  {
    map k | k in m :: Placeholder(m[k])
  }

  // ---------------------------------------------------------------------------
  // The include graph

  /** One namespace: its versioned name, its repository (a position in the
    * repository list) and its repository's prefilled includes. */
  datatype NsNode = NsNode(vname: VName, repo: nat, prefilled: map<string, VName>)

  /** All namespaces, and namespacesByName: for each versioned name the
    * namespace registered under it (the last one of that name). */
  datatype Graph = Graph(nodes: seq<NsNode>, byName: map<VName, nat>)

  predicate WellFormed(g: Graph) {
    && (forall v :: v in g.byName ==> g.byName[v] < |g.nodes| && g.nodes[g.byName[v]].vname == v)
    && (forall a, k :: 0 <= a < |g.nodes| && k in g.nodes[a].prefilled ==> g.nodes[a].prefilled[k].name == k)
  }

  /** The include of namespace a named k is found among the namespaces. */
  predicate FoundVia(g: Graph, a: int, k: string) {
    0 <= a < |g.nodes| && k in g.nodes[a].prefilled && g.nodes[a].prefilled[k] in g.byName
  }

  /** The namespace that include k of a resolves to. */
  function Target(g: Graph, a: int, k: string): nat
    requires FoundVia(g, a, k)
  {
    g.byName[g.nodes[a].prefilled[k]]
  }

  /** a directly includes b. */
  ghost predicate Edge(g: Graph, a: int, b: int) {
    exists k :: FoundVia(g, a, k) && Target(g, a, k) == b
  }

  predicate InNodes(g: Graph, p: seq<nat>) {
    forall i :: 0 <= i < |p| ==> p[i] < |g.nodes|
  }

  /** A walk along include edges. */
  ghost predicate IsPath(g: Graph, p: seq<nat>) {
    |p| >= 1 && InNodes(g, p) && forall i :: 0 <= i < |p| - 1 ==> Edge(g, p[i], p[i + 1])
  }

  /** a is b, or reaches b along includes. */
  ghost predicate Reaches(g: Graph, a: int, b: int) {
    exists p :: IsPath(g, p) && p[0] == a && p[|p| - 1] == b
  }

  /** a includes b directly or transitively. */
  ghost predicate Includes(g: Graph, a: int, b: int) {
    exists p :: IsPath(g, p) && |p| >= 2 && p[0] == a && p[|p| - 1] == b
  }

  /** a includes, directly or transitively, a namespace with the given
    * name. */
  ghost predicate IncludesName(g: Graph, a: int, name: string) {
    exists p :: IsPath(g, p) && |p| >= 2 && p[0] == a && g.nodes[p[|p| - 1]].vname.name == name
  }

  /** No namespace includes itself, directly or transitively. */
  ghost predicate Acyclic(g: Graph) {
    forall a :: !Includes(g, a, a)
  }

  // ---------------------------------------------------------------------------
  // The state of include collection

  /** The resolve index of the k-th namespace to finish is k. */
  predicate Numbered(g: Graph, order: seq<nat>, idx: seq<int>) {
    forall k :: 0 <= k < |order| ==> order[k] < |g.nodes| && order[k] < |idx| && idx[order[k]] == k
  }

  /** A namespace that has not finished keeps its placeholders and index 0. */
  predicate Untouched(g: Graph, order: seq<nat>, includes: seq<map<string, Entry>>, idx: seq<int>)
    requires |includes| == |g.nodes| && |idx| == |g.nodes|
  {
    forall i :: 0 <= i < |g.nodes| && i !in order ==> includes[i] == Placeholders(g.nodes[i].prefilled) && idx[i] == 0
  }

  /** Every found include of a finished namespace finished before it, or
    * reaches it (it was still being collected). */
  ghost predicate Ordered(g: Graph, order: seq<nat>, idx: seq<int>)
    requires WellFormed(g) && |idx| == |g.nodes|
  {
    forall n, k :: n in order && FoundVia(g, n, k) ==>
      (Target(g, n, k) in order && idx[Target(g, n, k)] < idx[n]) || Reaches(g, Target(g, n, k), n)
  }

  /** A finished namespace holds the name of each found include, and every
    * name an include that finished before it holds. */
  ghost predicate Closed(g: Graph, order: seq<nat>, includes: seq<map<string, Entry>>, idx: seq<int>)
    requires WellFormed(g) && |includes| == |g.nodes| && |idx| == |g.nodes|
  {
    forall n, k :: n in order && FoundVia(g, n, k) ==>
      && k in includes[n]
      && (Target(g, n, k) in order && idx[Target(g, n, k)] < idx[n] ==> includes[Target(g, n, k)].Keys <= includes[n].Keys)
  }

  /** Every found include of n finished before n. */
  ghost predicate AllBefore(g: Graph, order: seq<nat>, idx: seq<int>, n: nat)
    requires WellFormed(g) && |idx| == |g.nodes| && n < |g.nodes|
  {
    forall k :: FoundVia(g, n, k) ==> Target(g, n, k) in order && idx[Target(g, n, k)] < idx[n]
  }

  /** When all its found includes finished first, a finished namespace holds
    * only their names and the names they hold. */
  ghost predicate Sound(g: Graph, order: seq<nat>, includes: seq<map<string, Entry>>, idx: seq<int>)
    requires WellFormed(g) && |includes| == |g.nodes| && |idx| == |g.nodes|
  {
    forall n :: 0 <= n < |g.nodes| && n in order && AllBefore(g, order, idx, n) ==>
      forall key :: key in includes[n] ==>
        FoundVia(g, n, key) || exists k :: FoundVia(g, n, k) && key in includes[Target(g, n, k)]
  }

  /** The state after every registered namespace has been collected. */
  ghost predicate Collected(g: Graph, order: seq<nat>, includes: seq<map<string, Entry>>, idx: seq<int>) {
    && WellFormed(g)
    && |includes| == |g.nodes| && |idx| == |g.nodes|
    && Numbered(g, order, idx)
    && Untouched(g, order, includes, idx)
    && Ordered(g, order, idx)
    && Closed(g, order, includes, idx)
    && Sound(g, order, includes, idx)
    && (forall v :: v in g.byName ==> g.byName[v] in order)
  }

  lemma StackReaches(g: Graph, s: seq<nat>, i: int)
    requires InNodes(g, s)
    requires forall k :: 0 <= k < |s| - 1 ==> Edge(g, s[k], s[k + 1])
    requires 0 <= i < |s|
    ensures Reaches(g, s[i], s[|s| - 1])
  {
    var p := s[i..];
    assert IsPath(g, p) by {
      forall j | 0 <= j < |p| - 1
        ensures Edge(g, p[j], p[j + 1])
      {
        assert p[j] == s[i + j] && p[j + 1] == s[i + j + 1];
      }
    }
  }

  lemma IndexBelow(g: Graph, order: seq<nat>, idx: seq<int>, t: nat)
    requires Numbered(g, order, idx) && t in order
    ensures t < |idx| && 0 <= idx[t] < |order|
  {
    var j :| 0 <= j < |order| && order[j] == t;
  }

  /** Finishing n keeps every finished namespace's includes ordered. */
  lemma FinishOrdered(g: Graph, order: seq<nat>, idx: seq<int>, n: nat, s: seq<nat>)
    requires WellFormed(g) && |idx| == |g.nodes| && Numbered(g, order, idx) && Ordered(g, order, idx)
    requires n < |g.nodes| && n !in order
    requires InNodes(g, s) && |s| >= 1 && s[|s| - 1] == n
    requires forall k :: 0 <= k < |s| - 1 ==> Edge(g, s[k], s[k + 1])
    requires forall k :: FoundVia(g, n, k) ==> Target(g, n, k) in order || Target(g, n, k) in s
    ensures Ordered(g, order + [n], idx[n := |order|])
  {
    var order', idx' := order + [n], idx[n := |order|];
    forall m, k | m in order' && FoundVia(g, m, k)
      ensures (Target(g, m, k) in order' && idx'[Target(g, m, k)] < idx'[m]) || Reaches(g, Target(g, m, k), m)
    {
      var t := Target(g, m, k);
      if m == n {
        if t in order {
          IndexBelow(g, order, idx, t);
        } else {
          var i :| 0 <= i < |s| && s[i] == t;
          StackReaches(g, s, i);
        }
      } else {
        assert m in order;
      }
    }
  }

  /** Finishing n with the names it collected keeps the includes closed. */
  lemma FinishClosed(g: Graph, order: seq<nat>, includes: seq<map<string, Entry>>, idx: seq<int>, n: nat, res: map<string, Entry>)
    requires WellFormed(g) && |includes| == |g.nodes| && |idx| == |g.nodes|
    requires Numbered(g, order, idx) && Closed(g, order, includes, idx)
    requires n < |g.nodes| && n !in order
    requires forall k :: FoundVia(g, n, k) ==>
               k in res && (Target(g, n, k) in order ==> includes[Target(g, n, k)].Keys <= res.Keys)
    ensures Closed(g, order + [n], includes[n := res], idx[n := |order|])
  {
    var order', includes', idx' := order + [n], includes[n := res], idx[n := |order|];
    forall m, k | m in order' && FoundVia(g, m, k)
      ensures k in includes'[m]
      ensures Target(g, m, k) in order' && idx'[Target(g, m, k)] < idx'[m] ==> includes'[Target(g, m, k)].Keys <= includes'[m].Keys
    {
      var t := Target(g, m, k);
      if m != n {
        assert m in order;
        IndexBelow(g, order, idx, m);
      }
    }
  }

  /** Finishing n with names that all come from its found includes keeps the
    * includes sound. */
  lemma FinishSound(g: Graph, order: seq<nat>, includes: seq<map<string, Entry>>, idx: seq<int>, n: nat, res: map<string, Entry>)
    requires WellFormed(g) && |includes| == |g.nodes| && |idx| == |g.nodes|
    requires Numbered(g, order, idx) && Sound(g, order, includes, idx)
    requires n < |g.nodes| && n !in order
    requires forall key :: key in res ==>
               FoundVia(g, n, key) || exists k :: FoundVia(g, n, k) && key in includes[Target(g, n, k)]
    ensures Sound(g, order + [n], includes[n := res], idx[n := |order|])
  {
    var order', includes', idx' := order + [n], includes[n := res], idx[n := |order|];
    forall m | 0 <= m < |g.nodes| && m in order' && AllBefore(g, order', idx', m)
      ensures forall key :: key in includes'[m] ==>
                FoundVia(g, m, key) || exists k :: FoundVia(g, m, k) && key in includes'[Target(g, m, k)]
    {
      if m == n {
        forall key | key in res && !FoundVia(g, n, key)
          ensures exists k :: FoundVia(g, n, k) && key in includes'[Target(g, n, k)]
        {
          var k :| FoundVia(g, n, k) && key in includes[Target(g, n, k)];
          assert Target(g, n, k) != n;
          assert key in includes'[Target(g, n, k)];
        }
      } else {
        assert m in order;
        IndexBelow(g, order, idx, m);
        assert AllBefore(g, order, idx, m) by {
          forall k | FoundVia(g, m, k)
            ensures Target(g, m, k) in order && idx[Target(g, m, k)] < idx[m]
          {
            assert Target(g, m, k) != n;
          }
        }
        forall key | key in includes'[m] && !FoundVia(g, m, key)
          ensures exists k :: FoundVia(g, m, k) && key in includes'[Target(g, m, k)]
        {
          var k :| FoundVia(g, m, k) && key in includes[Target(g, m, k)];
          assert Target(g, m, k) != n;
          assert key in includes'[Target(g, m, k)];
        }
      }
    }
  }

  /** Marking v visited leaves fewer unvisited registered names. */
  lemma FewerUnvisited(keys: set<VName>, before: set<VName>, after: set<VName>, v: VName)
    requires before + {v} <= after && v in keys && v !in before
    ensures |keys - after| < |keys - before|
  {
    Config.SubsetCard(keys - after, (keys - before) - {v});
  }

  /** The state of collection between steps: the finished namespaces are
    * numbered in order, the unfinished ones untouched, the ones being
    * collected form an include chain, the visited names are exactly the
    * started ones, and the finished ones are ordered, closed and sound. */
  ghost predicate CollectionState(g: Graph, includes: seq<map<string, Entry>>, idx: seq<int>, visited: set<VName>,
                                  resolved: nat, order: seq<nat>, stack: seq<nat>)
  {
    && WellFormed(g)
    && |includes| == |g.nodes| && |idx| == |g.nodes|
    && Numbered(g, order, idx)
    && resolved == |order|
    && Untouched(g, order, includes, idx)
    && InNodes(g, stack)
    && (forall k :: 0 <= k < |stack| ==> stack[k] !in order)
    && (forall k :: 0 <= k < |stack| - 1 ==> Edge(g, stack[k], stack[k + 1]))
    && (forall v :: v in visited <==> v in g.byName && (g.byName[v] in order || g.byName[v] in stack))
    && Ordered(g, order, idx)
    && Closed(g, order, includes, idx)
    && Sound(g, order, includes, idx)
  }

  /** Marking an unvisited namespace visited and pushing it keeps the
    * collection state. */
  lemma StartKeepsState(g: Graph, includes: seq<map<string, Entry>>, idx: seq<int>, visited: set<VName>,
                        resolved: nat, order: seq<nat>, stack: seq<nat>, n: nat)
    requires CollectionState(g, includes, idx, visited, resolved, order, stack)
    requires n < |g.nodes| && g.nodes[n].vname in g.byName && g.byName[g.nodes[n].vname] == n
    requires g.nodes[n].vname !in visited
    requires stack != [] ==> Edge(g, stack[|stack| - 1], n)
    ensures n !in stack && n !in order
    ensures CollectionState(g, includes, idx, visited + {g.nodes[n].vname}, resolved, order, stack + [n])
  {
    var stack' := stack + [n];
    assert forall k :: 0 <= k < |stack| ==> stack'[k] == stack[k];
    forall v | v in visited + {g.nodes[n].vname}
      ensures v in g.byName && (g.byName[v] in order || g.byName[v] in stack')
    {
    }
  }

  /** Numbering n next, storing its collected includes and popping it keeps
    * the collection state, when every found include of n has started and
    * every collected name comes from a found include. */
  lemma FinishKeepsState(g: Graph, includes: seq<map<string, Entry>>, idx: seq<int>, visited: set<VName>,
                         resolved: nat, order: seq<nat>, stack0: seq<nat>, n: nat, res: map<string, Entry>)
    requires CollectionState(g, includes, idx, visited, resolved, order, stack0 + [n])
    requires n < |g.nodes| && n !in stack0
    requires g.nodes[n].vname in g.byName && g.byName[g.nodes[n].vname] == n
    requires forall k :: FoundVia(g, n, k) ==>
               && k in res
               && (Target(g, n, k) in order || Target(g, n, k) in stack0 + [n])
               && (Target(g, n, k) in order ==> includes[Target(g, n, k)].Keys <= res.Keys)
    requires forall key :: key in res ==>
               FoundVia(g, n, key) || exists k :: FoundVia(g, n, k) && key in includes[Target(g, n, k)]
    ensures CollectionState(g, includes[n := res], idx[n := resolved], visited, resolved + 1, order + [n], stack0)
  {
    var stack := stack0 + [n];
    assert n !in order by {
      assert stack[|stack| - 1] == n;
    }
    assert forall k :: 0 <= k < |stack0| ==> stack0[k] == stack[k];
    FinishOrdered(g, order, idx, n, stack);
    FinishClosed(g, order, includes, idx, n, res);
    FinishSound(g, order, includes, idx, n, res);
    var order' := order + [n];
    var idx' := idx[n := resolved];
    forall k | 0 <= k < |order'|
      ensures order'[k] < |g.nodes| && order'[k] < |idx'| && idx'[order'[k]] == k
    {
      if k < |order| {
        assert order'[k] == order[k] && order[k] != n;
      }
    }
  }

  /** The include collection of resolveNamespaceIncludes: the graph is fixed,
    * the per-namespace includes maps and resolve indices, the visited set
    * and the counter change. */
  class IncludeResolver {
    const g: Graph
    var includes: seq<map<string, Entry>>
    var resolveIndex: seq<int>
    var visited: set<VName>
    var resolved: nat
    /** The namespaces in the order their collection finished. */
    ghost var order: seq<nat>
    /** The namespaces whose collection has started and not finished, each
      * including the next. */
    ghost var stack: seq<nat>

    ghost predicate Valid()
      reads this
    {
      CollectionState(g, includes, resolveIndex, visited, resolved, order, stack)
    }

    constructor (g: Graph)
      requires WellFormed(g)
      ensures Valid() && this.g == g
      ensures order == [] && stack == [] && visited == {}
      ensures forall i :: 0 <= i < |g.nodes| ==> includes[i] == Placeholders(g.nodes[i].prefilled) && resolveIndex[i] == 0
    {
      this.g := g;
      includes := seq(|g.nodes|, i requires 0 <= i < |g.nodes| => Placeholders(g.nodes[i].prefilled));
      resolveIndex := seq(|g.nodes|, i => 0);
      visited := {};
      resolved := 0;
      order := [];
      stack := [];
    }

    /** The includes of n handled so far (those not in todo): each found
      * one is stored under its name and has started collection, with the
      * names of a finished one copied; every stored name comes from them. */
    ghost predicate Linked(n: nat, todo: set<string>, res: map<string, Entry>)
      reads this
      requires Valid()
    {
      && (forall k :: k !in todo && FoundVia(g, n, k) ==>
            && k in res
            && (Target(g, n, k) in order || Target(g, n, k) in stack)
            && (Target(g, n, k) in order ==> includes[Target(g, n, k)].Keys <= res.Keys))
      && (forall key :: key in res ==>
            (key !in todo && FoundVia(g, n, key))
            || exists k :: k !in todo && FoundVia(g, n, k) && key in includes[Target(g, n, k)])
    }

    /** collectIncludes(n): a visited namespace returns its current includes
      * map; otherwise each include is handled in turn, and n gets the next
      * resolve index. */
    method Collect(n: nat) returns (r: map<string, Entry>)
      requires Valid()
      requires n < |g.nodes| && g.nodes[n].vname in g.byName && g.byName[g.nodes[n].vname] == n
      requires stack != [] ==> Edge(g, stack[|stack| - 1], n)
      modifies this
      decreases |g.byName.Keys - visited|, 3
      ensures Valid()
      ensures stack == old(stack)
      ensures old(visited) <= visited
      ensures g.nodes[n].vname in visited
      ensures old(order) <= order
      ensures forall i :: 0 <= i < |g.nodes| && (i in old(order) || i in old(stack)) ==>
                includes[i] == old(includes[i]) && resolveIndex[i] == old(resolveIndex[i])
      ensures r == includes[n]
    {
      if g.nodes[n].vname in visited {
        return includes[n];
      }
      r := CollectNew(n);
    }

    /** collectIncludes for a namespace not visited before. */
    method CollectNew(n: nat) returns (r: map<string, Entry>)
      requires Valid()
      requires n < |g.nodes| && g.nodes[n].vname in g.byName && g.byName[g.nodes[n].vname] == n
      requires g.nodes[n].vname !in visited
      requires stack != [] ==> Edge(g, stack[|stack| - 1], n)
      modifies this
      decreases |g.byName.Keys - visited|, 2
      ensures Valid()
      ensures stack == old(stack)
      ensures old(visited) <= visited
      ensures g.nodes[n].vname in visited
      ensures old(order) <= order
      ensures forall i :: 0 <= i < |g.nodes| && (i in old(order) || i in old(stack)) ==>
                includes[i] == old(includes[i]) && resolveIndex[i] == old(resolveIndex[i])
      ensures r == includes[n]
    {
      ghost var visited0 := visited;
      ghost var stack0 := stack;
      assert n !in order && n !in stack;
      Start(n);
      FewerUnvisited(g.byName.Keys, visited0, visited, g.nodes[n].vname);
      r := CollectEach(n, stack0);
    }

    /** collectIncludes' loop over the prefilled includes of n and its
      * end. */
    method CollectEach(n: nat, ghost stack0: seq<nat>) returns (res: map<string, Entry>)
      requires Valid()
      requires n < |g.nodes| && g.nodes[n].vname in g.byName && g.byName[g.nodes[n].vname] == n
      requires stack == stack0 + [n] && n !in stack0
      modifies this
      decreases |g.byName.Keys - visited|, 6
      ensures Valid()
      ensures stack == stack0
      ensures old(visited) <= visited
      ensures old(order) <= order
      ensures forall i :: 0 <= i < |g.nodes| && i != n && (i in old(order) || i in stack0) ==>
                includes[i] == old(includes[i]) && resolveIndex[i] == old(resolveIndex[i])
      ensures res == includes[n]
    {
      res := CollectLoop(n, stack0);
      ghost var includes1, idx1 := includes, resolveIndex;
      Finish(n, res, stack0);
      forall i | 0 <= i < |g.nodes| && i != n && (i in old(order) || i in stack0)
        ensures includes[i] == old(includes[i]) && resolveIndex[i] == old(resolveIndex[i])
      {
        assert includes1[i] == old(includes[i]) && idx1[i] == old(resolveIndex[i]);
      }
    }

    /** collectIncludes' loop over the prefilled includes of n, in the
      * arbitrary order of Go's map iteration. */
    method CollectLoop(n: nat, ghost stack0: seq<nat>) returns (res: map<string, Entry>)
      requires Valid()
      requires n < |g.nodes| && stack == stack0 + [n]
      modifies this
      decreases |g.byName.Keys - visited|, 5
      ensures Valid()
      ensures stack == old(stack)
      ensures old(visited) <= visited
      ensures old(order) <= order
      ensures forall i :: 0 <= i < |g.nodes| && (i in old(order) || i in old(stack)) ==>
                includes[i] == old(includes[i]) && resolveIndex[i] == old(resolveIndex[i])
      ensures Linked(n, {}, res)
    {
      var pre := g.nodes[n].prefilled;
      res := map[];
      var todo := pre.Keys;
      while todo != {}
        invariant Valid()
        invariant stack == old(stack)
        invariant todo <= pre.Keys
        invariant old(visited) <= visited
        invariant old(order) <= order
        invariant forall i :: 0 <= i < |g.nodes| && (i in old(order) || i in old(stack)) ==>
                    includes[i] == old(includes[i]) && resolveIndex[i] == old(resolveIndex[i])
        invariant Linked(n, todo, res)
        decreases |todo|
      {
        var k :| k in todo;
        Config.SubsetCard(g.byName.Keys - visited, g.byName.Keys - old(visited));
        res := CollectInclude(n, k, res, todo);
        todo := todo - {k};
      }
    }

    /** The start of collectIncludes for an unvisited namespace: it is
      * marked visited. */
    method Start(n: nat)
      requires Valid()
      requires n < |g.nodes| && g.nodes[n].vname in g.byName && g.byName[g.nodes[n].vname] == n
      requires g.nodes[n].vname !in visited
      requires stack != [] ==> Edge(g, stack[|stack| - 1], n)
      modifies this
      ensures Valid()
      ensures visited == old(visited) + {g.nodes[n].vname}
      ensures stack == old(stack) + [n] && n !in old(stack)
      ensures order == old(order) && includes == old(includes) && resolveIndex == old(resolveIndex)
    {
      StartKeepsState(g, includes, resolveIndex, visited, resolved, order, stack, n);
      visited := visited + {g.nodes[n].vname};
      stack := stack + [n];
    }

    /** One turn of collectIncludes' loop: a found include is stored under
      * its name, then everything its own collection returns is copied over
      * (maps.Copy); a missing one is only warned about. */
    method CollectInclude(n: nat, k: string, res: map<string, Entry>, ghost todo: set<string>) returns (res': map<string, Entry>)
      requires Valid()
      requires n < |g.nodes| && stack != [] && stack[|stack| - 1] == n
      requires k in todo && k in g.nodes[n].prefilled
      requires Linked(n, todo, res)
      modifies this
      decreases |g.byName.Keys - visited|, 4
      ensures Valid()
      ensures stack == old(stack)
      ensures old(visited) <= visited
      ensures old(order) <= order
      ensures forall i :: 0 <= i < |g.nodes| && (i in old(order) || i in old(stack)) ==>
                includes[i] == old(includes[i]) && resolveIndex[i] == old(resolveIndex[i])
      ensures Linked(n, todo - {k}, res')
    {
      var inc := g.nodes[n].prefilled[k];
      if inc !in g.byName {
        return res;
      }
      var d := g.byName[inc];
      assert FoundVia(g, n, k) && Target(g, n, k) == d;
      ghost var includes0, order0 := includes, order;
      var trans := Collect(d);
      res' := res[k := Found(d)] + trans;
      forall key | key in res' && !(key !in todo - {k} && FoundVia(g, n, key))
        ensures exists k' :: k' !in todo - {k} && FoundVia(g, n, k') && key in includes[Target(g, n, k')]
      {
        if key in trans {
          assert key in includes[Target(g, n, k)];
        } else {
          assert key in res && key != k;
          var k' :| k' !in todo && FoundVia(g, n, k') && key in includes0[Target(g, n, k')];
          assert Target(g, n, k') in order0 || Target(g, n, k') in stack;
          assert key in includes[Target(g, n, k')];
        }
      }
    }

    /** The end of collectIncludes: n's includes become the collected map,
      * and n gets the next resolve index. */
    method Finish(n: nat, res: map<string, Entry>, ghost stack0: seq<nat>)
      requires Valid()
      requires n < |g.nodes| && stack == stack0 + [n] && n !in stack0
      requires g.nodes[n].vname in g.byName && g.byName[g.nodes[n].vname] == n
      requires Linked(n, {}, res)
      modifies this
      ensures Valid()
      ensures stack == stack0 && visited == old(visited)
      ensures order == old(order) + [n]
      ensures includes == old(includes)[n := res]
      ensures resolveIndex == old(resolveIndex)[n := old(resolved)]
    {
      FinishKeepsState(g, includes, resolveIndex, visited, resolved, order, stack0, n, res);
      includes := includes[n := res];
      resolveIndex := resolveIndex[n := resolved];
      order := order + [n];
      resolved := resolved + 1;
      stack := stack0;
    }

    /** The loop over namespacesByName: every registered namespace is
      * collected. */
    method CollectAll()
      requires Valid() && stack == []
      modifies this
      ensures Collected(g, order, includes, resolveIndex)
    {
      var todo := g.byName.Keys;
      while todo != {}
        invariant Valid() && stack == []
        invariant todo <= g.byName.Keys
        invariant forall v :: v in g.byName && v !in todo ==> g.byName[v] in order
        decreases |todo|
      {
        var v :| v in todo;
        var _ := Collect(g.byName[v]);
        todo := todo - {v};
      }
    }
  }

  // ---------------------------------------------------------------------------
  // What collection achieves

  lemma PathCons(g: Graph, n: nat, p: seq<nat>)
    requires IsPath(g, p) && n < |g.nodes| && Edge(g, n, p[0])
    ensures IsPath(g, [n] + p)
  {
    var q := [n] + p;
    forall i | 0 <= i < |q| - 1
      ensures Edge(g, q[i], q[i + 1])
    {
      if i > 0 {
        assert q[i] == p[i - 1] && q[i + 1] == p[i];
      }
    }
  }

  lemma PathTail(g: Graph, p: seq<nat>)
    requires IsPath(g, p) && |p| >= 2
    ensures IsPath(g, p[1..])
  {
    var q := p[1..];
    forall i | 0 <= i < |q| - 1
      ensures Edge(g, q[i], q[i + 1])
    {
      assert q[i] == p[i + 1] && q[i + 1] == p[i + 2];
    }
  }

  /** Every namespace is collected at most once: no two finished
    * namespaces share a resolve index. */
  lemma CollectedOnce(g: Graph, order: seq<nat>, includes: seq<map<string, Entry>>, idx: seq<int>, a: nat, b: nat)
    requires Collected(g, order, includes, idx)
    requires a in order && b in order && a != b
    ensures idx[a] != idx[b]
  {
    var i :| 0 <= i < |order| && order[i] == a;
    var j :| 0 <= j < |order| && order[j] == b;
  }

  /** Without include cycles, every found include of a collected namespace
    * has a lower resolve index than the namespace itself. */
  lemma IncludedFirst(g: Graph, order: seq<nat>, includes: seq<map<string, Entry>>, idx: seq<int>, n: nat, k: string)
    requires Collected(g, order, includes, idx) && Acyclic(g)
    requires n in order && FoundVia(g, n, k)
    ensures Target(g, n, k) in order && idx[Target(g, n, k)] < idx[n]
  {
    var t := Target(g, n, k);
    assert Edge(g, n, t);
    if !(t in order && idx[t] < idx[n]) {
      CycleBack(g, n, t);
      assert false;
    }
  }

  /** An include edge back to a namespace that reaches its source closes a
    * cycle. */
  lemma CycleBack(g: Graph, n: nat, t: nat)
    requires n < |g.nodes| && Edge(g, n, t) && Reaches(g, t, n)
    ensures Includes(g, n, n)
  {
    var p :| IsPath(g, p) && p[0] == t && p[|p| - 1] == n;
    PathCons(g, n, p);
    var q := [n] + p;
    assert q[|q| - 1] == n;
  }

  /** Without include cycles, a collected namespace holds the name of every
    * namespace it includes, directly or transitively. */
  lemma {:induction false} ClosureComplete(g: Graph, order: seq<nat>, includes: seq<map<string, Entry>>, idx: seq<int>, p: seq<nat>)
    requires Collected(g, order, includes, idx) && Acyclic(g)
    requires IsPath(g, p) && |p| >= 2 && p[0] in order
    ensures g.nodes[p[|p| - 1]].vname.name in includes[p[0]]
    decreases |p|
  {
    var n := p[0];
    assert Edge(g, p[0], p[1]);
    var k :| FoundVia(g, n, k) && Target(g, n, k) == p[1];
    IncludedFirst(g, order, includes, idx, n, k);
    if |p| == 2 {
      assert g.nodes[p[1]].vname == g.nodes[n].prefilled[k];
    } else {
      PathTail(g, p);
      ClosureComplete(g, order, includes, idx, p[1..]);
    }
  }

  /** A found include names the namespace it resolves to. */
  lemma DirectName(g: Graph, n: nat, key: string)
    requires WellFormed(g) && FoundVia(g, n, key)
    ensures IncludesName(g, n, key)
  {
    var t := Target(g, n, key);
    assert Edge(g, n, t);
    PathCons(g, n, [t]);
    assert g.nodes[t].vname == g.nodes[n].prefilled[key];
    assert ([n] + [t])[1] == t;
  }

  /** What a found include includes, its includer includes too. */
  lemma IndirectName(g: Graph, n: nat, k: string, key: string)
    requires WellFormed(g) && FoundVia(g, n, k) && IncludesName(g, Target(g, n, k), key)
    ensures IncludesName(g, n, key)
  {
    var t := Target(g, n, k);
    var q :| IsPath(g, q) && |q| >= 2 && q[0] == t && g.nodes[q[|q| - 1]].vname.name == key;
    assert Edge(g, n, t);
    PathCons(g, n, q);
    assert ([n] + q)[|q|] == q[|q| - 1];
  }

  lemma AllIncludedFirst(g: Graph, order: seq<nat>, includes: seq<map<string, Entry>>, idx: seq<int>, n: nat)
    requires Collected(g, order, includes, idx) && Acyclic(g)
    requires n < |g.nodes| && n in order
    ensures AllBefore(g, order, idx, n)
  {
    forall k | FoundVia(g, n, k)
      ensures Target(g, n, k) in order && idx[Target(g, n, k)] < idx[n]
    {
      IncludedFirst(g, order, includes, idx, n, k);
    }
  }

  /** Without include cycles, every name a collected namespace holds is the
    * name of a namespace it includes, directly or transitively. */
  lemma {:induction false} ClosureSound(g: Graph, order: seq<nat>, includes: seq<map<string, Entry>>, idx: seq<int>, n: nat, key: string)
    requires Collected(g, order, includes, idx) && Acyclic(g)
    requires n < |g.nodes| && n in order && key in includes[n]
    ensures IncludesName(g, n, key)
    decreases idx[n]
  {
    IndexBelow(g, order, idx, n);
    AllIncludedFirst(g, order, includes, idx, n);
    if FoundVia(g, n, key) {
      DirectName(g, n, key);
    } else {
      var k :| FoundVia(g, n, k) && key in includes[Target(g, n, k)];
      IncludedFirst(g, order, includes, idx, n, k);
      ClosureSound(g, order, includes, idx, Target(g, n, k), key);
      IndirectName(g, n, k, key);
    }
  }

  /** Without include cycles, the includes map of every collected namespace
    * holds exactly the names of the namespaces it includes, directly or
    * transitively. */
  lemma IncludesAreTransitiveClosure(g: Graph, order: seq<nat>, includes: seq<map<string, Entry>>, idx: seq<int>, n: nat)
    requires Collected(g, order, includes, idx) && Acyclic(g)
    requires n < |g.nodes| && n in order
    ensures forall key :: key in includes[n] <==> IncludesName(g, n, key)
  {
    forall key
      ensures key in includes[n] <==> IncludesName(g, n, key)
    {
      if key in includes[n] {
        ClosureSound(g, order, includes, idx, n, key);
      }
      if IncludesName(g, n, key) {
        var p :| IsPath(g, p) && |p| >= 2 && p[0] == n && g.nodes[p[|p| - 1]].vname.name == key;
        ClosureComplete(g, order, includes, idx, p);
      }
    }
  }

  // ---------------------------------------------------------------------------
  // Gathering the namespaces of all repositories

  /** repoWithIncludes: a repository file with its namespaces, named by their
    * positions among all namespaces. */
  datatype RepoWithIncludes = RepoWithIncludes(filename: string, repo: Gir.Repository, namespaces: seq<nat>)

  /** How many namespaces the repositories before position r hold. */
  function Offset(repos: GirRepositories.Repositories, r: nat): nat
    requires r <= |repos|
  {
    if r == 0 then 0 else Offset(repos, r - 1) + |repos[r - 1].1.namespaces|
  }

  function Range(lo: nat, n: nat): (r: seq<nat>)
    ensures |r| == n && forall i :: 0 <= i < n ==> r[i] == lo + i
  {
    seq(n, i requires 0 <= i < n => lo + i)
  }

  /** Repository r with the positions of its namespaces. */
  function RepoEntry(repos: GirRepositories.Repositories, r: nat): (e: RepoWithIncludes)
    requires r < |repos|
    ensures e.repo == repos[r].1 && |e.namespaces| == |repos[r].1.namespaces|
  {
    RepoWithIncludes(repos[r].0, repos[r].1, Range(Offset(repos, r), |repos[r].1.namespaces|))
  }

  /** The namespaces of the repositories in iteration order, each with its
    * repository's prefilled includes; namespacesByName maps each versioned
    * name to the last namespace that has it; every repository keeps the
    * range of positions of its own namespaces. */
  ghost predicate Gathered(repos: GirRepositories.Repositories, g: Graph, out: seq<RepoWithIncludes>) {
    && WellFormed(g)
    && |g.nodes| == Offset(repos, |repos|)
    && |out| == |repos|
    && (forall r :: 0 <= r < |repos| ==>
          out[r] == RepoEntry(repos, r))
    && (forall t :: 0 <= t < |g.nodes| ==>
          var r := g.nodes[t].repo;
          && r < |repos|
          && Offset(repos, r) <= t < Offset(repos, r) + |repos[r].1.namespaces|
          && var ns := repos[r].1.namespaces[t - Offset(repos, r)];
          && g.nodes[t].vname == VName(ns.name, ns.version)
          && PrefillOf(repos[r].1.includes, g.nodes[t].prefilled))
    && (forall t :: 0 <= t < |g.nodes| ==> g.nodes[t].vname in g.byName && t <= g.byName[g.nodes[t].vname])
  }

  /** The graph after the first r repositories and the first j namespaces
    * of repository r. */
  ghost predicate GraphUpTo(repos: GirRepositories.Repositories, r: nat, j: nat, g: Graph)
    requires r <= |repos|
  {
    && WellFormed(g)
    && |g.nodes| == Offset(repos, r) + j
    && (forall t :: 0 <= t < |g.nodes| ==>
          var q := g.nodes[t].repo;
          && q <= r && q < |repos|
          && Offset(repos, q) <= t < Offset(repos, q) + |repos[q].1.namespaces|
          && var ns := repos[q].1.namespaces[t - Offset(repos, q)];
          && g.nodes[t].vname == VName(ns.name, ns.version)
          && PrefillOf(repos[q].1.includes, g.nodes[t].prefilled))
    && (forall t :: 0 <= t < |g.nodes| ==> g.nodes[t].vname in g.byName && t <= g.byName[g.nodes[t].vname])
  }

  /** Appends the namespaces of repository r (the inner loop of the
    * gathering); the last namespace of a versioned name wins its entry. */
  method GatherRepo(repos: GirRepositories.Repositories, r: nat, g0: Graph) returns (g: Graph)
    requires r < |repos| && GraphUpTo(repos, r, 0, g0)
    ensures GraphUpTo(repos, r, |repos[r].1.namespaces|, g)
  {
    var repo := repos[r].1;
    var prefilled := PrefilledIncludes(repo.includes);
    g := g0;
    for j := 0 to |repo.namespaces|
      invariant GraphUpTo(repos, r, j, g)
    {
      var ns := repo.namespaces[j];
      var v := VName(ns.name, ns.version);
      AppendNode(repos, r, j, g, prefilled);
      g := Graph(g.nodes + [NsNode(v, r, prefilled)], g.byName[v := |g.nodes|]);
    }
  }

  /** One step of GatherRepo keeps GraphUpTo. */
  lemma AppendNode(repos: GirRepositories.Repositories, r: nat, j: nat, g: Graph, prefilled: map<string, VName>)
    requires r < |repos| && j < |repos[r].1.namespaces| && GraphUpTo(repos, r, j, g)
    requires PrefillOf(repos[r].1.includes, prefilled)
    requires forall k :: k in prefilled ==> prefilled[k].name == k
    ensures var ns := repos[r].1.namespaces[j];
            var v := VName(ns.name, ns.version);
            GraphUpTo(repos, r, j + 1, Graph(g.nodes + [NsNode(v, r, prefilled)], g.byName[v := |g.nodes|]))
  {
    var ns := repos[r].1.namespaces[j];
    var v := VName(ns.name, ns.version);
    var g' := Graph(g.nodes + [NsNode(v, r, prefilled)], g.byName[v := |g.nodes|]);
    assert |g.nodes| == Offset(repos, r) + j;
    assert Offset(repos, r) + |repos[r].1.namespaces| == Offset(repos, r + 1);
    forall t | 0 <= t < |g'.nodes|
      ensures g'.nodes[t].vname in g'.byName && t <= g'.byName[g'.nodes[t].vname]
    {
      if t < |g.nodes| {
        assert g'.nodes[t] == g.nodes[t];
      }
    }
  }

  lemma NextRepo(repos: GirRepositories.Repositories, r: nat, g: Graph)
    requires r < |repos| && GraphUpTo(repos, r, |repos[r].1.namespaces|, g)
    ensures GraphUpTo(repos, r + 1, 0, g)
  {
  }

  lemma AllRepos(repos: GirRepositories.Repositories, g: Graph, out: seq<RepoWithIncludes>)
    requires GraphUpTo(repos, |repos|, 0, g) && |out| == |repos| && RangesUpTo(repos, out)
    ensures Gathered(repos, g, out)
  {
  }

  /** Each of the first |out| repositories paired with the positions of its
    * namespaces. */
  ghost predicate RangesUpTo(repos: GirRepositories.Repositories, out: seq<RepoWithIncludes>) {
    && |out| <= |repos|
    && forall q :: 0 <= q < |out| ==>
         out[q] == RepoEntry(repos, q)
  }

  lemma NextRange(repos: GirRepositories.Repositories, out: seq<RepoWithIncludes>)
    requires RangesUpTo(repos, out) && |out| < |repos|
    ensures var r := |out|;
            RangesUpTo(repos, out + [RepoEntry(repos, r)])
  {
    var r := |out|;
    var out' := out + [RepoEntry(repos, r)];
    assert forall q :: 0 <= q < r ==> out'[q] == out[q];
  }

  /** The gathering loop of resolveNamespaceIncludes. */
  method Gather(repos: GirRepositories.Repositories) returns (g: Graph, out: seq<RepoWithIncludes>)
    ensures Gathered(repos, g, out)
  {
    g := Graph([], map[]);
    out := [];
    for r := 0 to |repos|
      invariant GraphUpTo(repos, r, 0, g) && |out| == r
      invariant RangesUpTo(repos, out)
    {
      g := GatherRepo(repos, r, g);
      NextRepo(repos, r, g);
      NextRange(repos, out);
      out := out + [RepoEntry(repos, r)];
    }
    AllRepos(repos, g, out);
  }

  // ---------------------------------------------------------------------------
  // Sorting the repositories

  /** Ordered by an integer key, as slices.SortFunc with cmp.Compare on that
    * key leaves a slice (equal keys in either order). */
  predicate SortedByIndex<T>(s: seq<T>, key: T -> int) {
    forall i, j :: 0 <= i < j < |s| ==> key(s[i]) <= key(s[j])
  }

  /** Inserts x after the elements whose keys are not above its own. */
  method InsertByIndex<T>(s: seq<T>, x: T, key: T -> int) returns (r: seq<T>)
    requires SortedByIndex(s, key)
    ensures SortedByIndex(r, key)
    ensures multiset(r) == multiset(s) + multiset{x}
  {
    var i := 0;
    while i < |s| && key(s[i]) <= key(x)
      invariant 0 <= i <= |s|
      invariant forall k :: 0 <= k < i ==> key(s[k]) <= key(x)
    {
      i := i + 1;
    }
    r := s[..i] + [x] + s[i..];
    assert s == s[..i] + s[i..];
    InsertedByIndex(s, i, x, key);
  }

  /** x placed between the keys not above its own and those above it keeps
    * the order. */
  lemma InsertedByIndex<T>(s: seq<T>, i: nat, x: T, key: T -> int)
    requires i <= |s| && SortedByIndex(s, key)
    requires forall k :: 0 <= k < i ==> key(s[k]) <= key(x)
    requires i < |s| ==> key(x) < key(s[i])
    ensures SortedByIndex(s[..i] + [x] + s[i..], key)
  {
    var r := s[..i] + [x] + s[i..];
    forall a, b | 0 <= a < b < |r|
      ensures key(r[a]) <= key(r[b])
    {
      var ra := if a < i then s[a] else if a == i then x else s[a - 1];
      var rb := if b < i then s[b] else if b == i then x else s[b - 1];
      assert r[a] == ra && r[b] == rb;
      if b > i {
        assert key(s[i]) <= key(s[b - 1]);
      }
    }
  }

  /** Sorts by an integer key; the result is a permutation of the input. */
  method SortByIndex<T>(s: seq<T>, key: T -> int) returns (r: seq<T>)
    ensures SortedByIndex(r, key)
    ensures multiset(r) == multiset(s)
  {
    r := [];
    for i := 0 to |s|
      invariant SortedByIndex(r, key)
      invariant multiset(r) == multiset(s[..i])
    {
      r := InsertByIndex(r, s[i], key);
      assert s[..i + 1] == s[..i] + [s[i]];
    }
    assert s[..|s|] == s;
  }

  /** The sort key of a repository: the resolve index of its one namespace
    * (the comparison panics before it reads any other). */
  function ResolveKey(idx: seq<int>): RepoWithIncludes -> int {
    (r: RepoWithIncludes) => if |r.namespaces| == 1 && r.namespaces[0] < |idx| then idx[r.namespaces[0]] else 0
  }

  /** Every repository has exactly one namespace. */
  predicate OneNamespaceEach(repos: GirRepositories.Repositories) {
    forall i :: 0 <= i < |repos| ==> |repos[i].1.namespaces| == 1
  }

  const SortPanic := "expected exactly one namespace per repository for sorting"

  /** resolveNamespaceIncludes: gathers the namespaces, collects the includes
    * of every registered one, then sorts the repositories by the resolve
    * index of their namespace. The comparison panics on a repository whose
    * namespace count is not one; a comparison sort of two or more elements
    * compares each of them, so that panic happens exactly when there are at
    * least two repositories and one of them is such. */
  method ResolveNamespaceIncludes(repos: GirRepositories.Repositories)
    returns (resolver: IncludeResolver, r: Result<seq<RepoWithIncludes>>, ghost gathered: seq<RepoWithIncludes>)
    ensures fresh(resolver)
    ensures Gathered(repos, resolver.g, gathered)
    ensures Collected(resolver.g, resolver.order, resolver.includes, resolver.resolveIndex)
    ensures r.Err? <==> |repos| >= 2 && !OneNamespaceEach(repos)
    ensures r.Err? ==> r == Err(SortPanic)
    ensures r.Ok? ==> multiset(r.value) == multiset(gathered)
    ensures r.Ok? ==> SortedByIndex(r.value, ResolveKey(resolver.resolveIndex))
  {
    var g, out := Gather(repos);
    gathered := out;
    resolver := new IncludeResolver(g);
    resolver.CollectAll();
    if |out| >= 2 && !OneNamespaceEach(repos) {
      r := Err(SortPanic);
    } else {
      var sorted := SortByIndex(out, ResolveKey(resolver.resolveIndex));
      r := Ok(sorted);
    }
  }

  /** Every include edge out of a collected namespace leads to one that
    * finished earlier. */
  ghost predicate EdgesDescend(g: Graph, order: seq<nat>, idx: seq<int>)
    requires |idx| == |g.nodes|
  {
    forall a, b :: a in order && Edge(g, a, b) ==> b in order && b < |idx| && a < |idx| && idx[b] < idx[a]
  }

  lemma AcyclicEdgesDescend(g: Graph, order: seq<nat>, includes: seq<map<string, Entry>>, idx: seq<int>)
    requires Collected(g, order, includes, idx) && Acyclic(g)
    ensures EdgesDescend(g, order, idx)
  {
    forall a, b | a in order && Edge(g, a, b)
      ensures b in order && b < |idx| && a < |idx| && idx[b] < idx[a]
    {
      var k :| FoundVia(g, a, k) && Target(g, a, k) == b;
      IncludedFirst(g, order, includes, idx, a, k);
      IndexBelow(g, order, idx, a);
    }
  }

  /** Along an include path from a collected namespace, resolve indices
    * strictly decrease. */
  lemma {:induction false} PathDescends(g: Graph, order: seq<nat>, idx: seq<int>, p: seq<nat>)
    requires |idx| == |g.nodes| && EdgesDescend(g, order, idx)
    requires IsPath(g, p) && |p| >= 2 && p[0] in order
    ensures p[|p| - 1] in order && p[|p| - 1] < |idx| && p[0] < |idx| && idx[p[|p| - 1]] < idx[p[0]]
    decreases |p|
  {
    assert Edge(g, p[0], p[1]);
    if |p| > 2 {
      PathTail(g, p);
      PathDescends(g, order, idx, p[1..]);
    }
  }

  /** Without include cycles, the sorted repositories put every namespace
    * after the namespaces it includes, directly or transitively (for a
    * namespace that was collected, that is, not shadowed by a later one of
    * the same versioned name). */
  lemma DependenciesFirst(g: Graph, order: seq<nat>, includes: seq<map<string, Entry>>, idx: seq<int>, sorted: seq<RepoWithIncludes>, i: nat, j: nat)
    requires Collected(g, order, includes, idx) && Acyclic(g)
    requires SortedByIndex(sorted, ResolveKey(idx))
    requires i < |sorted| && j < |sorted| && |sorted[i].namespaces| == 1 && |sorted[j].namespaces| == 1
    requires sorted[i].namespaces[0] in order && Includes(g, sorted[i].namespaces[0], sorted[j].namespaces[0])
    ensures j < i
  {
    var a, b := sorted[i].namespaces[0], sorted[j].namespaces[0];
    var p :| IsPath(g, p) && |p| >= 2 && p[0] == a && p[|p| - 1] == b;
    AcyclicEdgesDescend(g, order, includes, idx);
    PathDescends(g, order, idx, p);
    IndexBelow(g, order, idx, a);
    IndexBelow(g, order, idx, b);
    assert ResolveKey(idx)(sorted[j]) < ResolveKey(idx)(sorted[i]);
  }
}
