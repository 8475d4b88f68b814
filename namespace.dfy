/** Namespace.resolveAll: the declared classes, interfaces, callbacks and
  * aliases are resolved in passes until every list is empty or a pass
  * resolves and drops nothing. Whether an item resolves depends on what the
  * namespace has resolved so far, so the outcomes are parameters: a
  * function of the namespace's resolved lists and the item. */
module Namespaces {
  import opened TypeSystem

  datatype Kind = ClassKind | InterfaceKind | CallbackKind | AliasKind

  /** The resolved lists of a namespace. */
  datatype Resolved<T> = Resolved(classes: seq<T>, interfaces: seq<T>, callbacks: seq<T>, aliases: seq<T>)

  /** The worklists still to resolve, one per kind. */
  datatype Work<T> = Work(classes: seq<T>, interfaces: seq<T>, callbacks: seq<T>, aliases: seq<T>)

  function Get<T>(r: Resolved<T>, k: Kind): seq<T> {
    match k
    case ClassKind => r.classes
    case InterfaceKind => r.interfaces
    case CallbackKind => r.callbacks
    case AliasKind => r.aliases
  }

  /** Appends a resolved item to its kind's list. */
  function Add<T>(r: Resolved<T>, k: Kind, v: T): (r': Resolved<T>)
    ensures Get(r', k) == Get(r, k) + [v]
    ensures forall k' :: k' != k ==> Get(r', k') == Get(r, k')
  {
    match k
    case ClassKind => r.(classes := r.classes + [v])
    case InterfaceKind => r.(interfaces := r.interfaces + [v])
    case CallbackKind => r.(callbacks := r.callbacks + [v])
    case AliasKind => r.(aliases := r.aliases + [v])
  }

  function Size<T>(w: Work<T>): nat {
    |w.classes| + |w.interfaces| + |w.callbacks| + |w.aliases|
  }

  /** The outcome of resolving one item against the current lists: a class
    * that does not resolve is retried (Class.resolve returns a bool), the
    * other kinds report all three outcomes. */
  function StepOutcome<T>(r: Resolved<T>, k: Kind, v: T,
                          classResolves: (Resolved<T>, T) -> bool,
                          outcome: (Resolved<T>, Kind, T) -> Outcome): Outcome
  {
    if k == ClassKind then (if classResolves(r, v) then OkResolved else MaybeResolvable)
    else outcome(r, k, v)
  }

  /** One kind's loop of a pass: resolved items are appended as they
    * resolve (later items see them), maybe-resolvable ones are kept, the
    * rest are dropped. */
  function Fold<T>(r: Resolved<T>, k: Kind, still: seq<T>, work: seq<T>,
                   classResolves: (Resolved<T>, T) -> bool,
                   outcome: (Resolved<T>, Kind, T) -> Outcome): (res: (Resolved<T>, seq<T>))
    ensures |res.1| <= |still| + |work|
    decreases |work|
  {
    if work == [] then (r, still)
    else
      match StepOutcome(r, k, work[0], classResolves, outcome)
      case OkResolved => Fold(Add(r, k, work[0]), k, still, work[1..], classResolves, outcome)
      case MaybeResolvable => Fold(r, k, still + [work[0]], work[1..], classResolves, outcome)
      case NotResolvable => Fold(r, k, still, work[1..], classResolves, outcome)
  }

  /** `a` is `b` with some elements left out, the rest in order. */
  predicate Subseq<T(==)>(a: seq<T>, b: seq<T>)
    decreases |b|
  {
    a == [] || (b != [] && ((a[0] == b[0] && Subseq(a[1..], b[1..])) || Subseq(a, b[1..])))
  }

  /** `b` starts with `a`. */
  ghost predicate Extends<T>(a: seq<T>, b: seq<T>) {
    |a| <= |b| && b[..|a|] == a
  }

  /** What follows the first `n` elements of `a`. */
  function After<T>(a: seq<T>, n: nat): seq<T> {
    if n <= |a| then a[n..] else []
  }

  /** One kind's loop keeps what was resolved and retried before and
    * changes no other kind. */
  lemma {:induction false} FoldGrows<T>(r: Resolved<T>, k: Kind, still: seq<T>, work: seq<T>,
                                        classResolves: (Resolved<T>, T) -> bool,
                                        outcome: (Resolved<T>, Kind, T) -> Outcome)
    ensures var (r', still') := Fold(r, k, still, work, classResolves, outcome);
            && Extends(Get(r, k), Get(r', k)) && Extends(still, still')
            && (forall k' :: k' != k ==> Get(r', k') == Get(r, k'))
    decreases |work|
  {
    if work != [] {
      var v := work[0];
      match StepOutcome(r, k, v, classResolves, outcome)
      case OkResolved =>
        FoldGrows(Add(r, k, v), k, still, work[1..], classResolves, outcome);
      case MaybeResolvable =>
        FoldGrows(r, k, still + [v], work[1..], classResolves, outcome);
      case NotResolvable =>
        FoldGrows(r, k, still, work[1..], classResolves, outcome);
    }
  }

  /** Resolved items are appended, and retried ones kept, in worklist order. */
  lemma {:induction false} FoldOrder<T>(r: Resolved<T>, k: Kind, still: seq<T>, work: seq<T>,
                                        classResolves: (Resolved<T>, T) -> bool,
                                        outcome: (Resolved<T>, Kind, T) -> Outcome)
    ensures var (r', still') := Fold(r, k, still, work, classResolves, outcome);
            && Subseq(After(Get(r', k), |Get(r, k)|), work)
            && Subseq(After(still', |still|), work)
    decreases |work|
  {
    var (r', still') := Fold(r, k, still, work, classResolves, outcome);
    if work != [] {
      var v := work[0];
      match StepOutcome(r, k, v, classResolves, outcome)
      case OkResolved =>
        var r1 := Add(r, k, v);
        FoldOrder(r1, k, still, work[1..], classResolves, outcome);
        FoldGrows(r1, k, still, work[1..], classResolves, outcome);
        assert (r', still') == Fold(r1, k, still, work[1..], classResolves, outcome);
        AfterStep(Get(r', k), Get(r, k), v);
        SubseqSkip(After(still', |still|), work);
      case MaybeResolvable =>
        var s1 := still + [v];
        FoldOrder(r, k, s1, work[1..], classResolves, outcome);
        FoldGrows(r, k, s1, work[1..], classResolves, outcome);
        assert (r', still') == Fold(r, k, s1, work[1..], classResolves, outcome);
        AfterStep(still', still, v);
        SubseqSkip(After(Get(r', k), |Get(r, k)|), work);
      case NotResolvable =>
        FoldOrder(r, k, still, work[1..], classResolves, outcome);
        SubseqSkip(After(Get(r', k), |Get(r, k)|), work);
        SubseqSkip(After(still', |still|), work);
    }
  }

  /** The items a kind's loop appended to the resolved list or to the
    * retry list, starting from `r` and `still`. */
  ghost function Moved<T>(res: (Resolved<T>, seq<T>), r: Resolved<T>, k: Kind, still: seq<T>): multiset<T> {
    multiset(After(Get(res.0, k), |Get(r, k)|)) + multiset(After(res.1, |still|))
  }

  /** Every item is resolved, kept, or dropped, once; a class is never
    * dropped. */
  lemma {:induction false} FoldCounts<T>(r: Resolved<T>, k: Kind, still: seq<T>, work: seq<T>,
                                         classResolves: (Resolved<T>, T) -> bool,
                                         outcome: (Resolved<T>, Kind, T) -> Outcome)
    ensures Moved(Fold(r, k, still, work, classResolves, outcome), r, k, still) <= multiset(work)
    ensures k == ClassKind ==> Moved(Fold(r, k, still, work, classResolves, outcome), r, k, still) == multiset(work)
    decreases |work|
  {
    var res := Fold(r, k, still, work, classResolves, outcome);
    if work != [] {
      var v := work[0];
      assert multiset(work) == multiset{v} + multiset(work[1..]) by {
        assert work == [v] + work[1..];
      }
      match StepOutcome(r, k, v, classResolves, outcome)
      case OkResolved =>
        var r1 := Add(r, k, v);
        assert res == Fold(r1, k, still, work[1..], classResolves, outcome);
        FoldCounts(r1, k, still, work[1..], classResolves, outcome);
        FoldGrows(r1, k, still, work[1..], classResolves, outcome);
        MovedResolved(res, r, k, still, v);
      case MaybeResolvable =>
        var s1 := still + [v];
        assert res == Fold(r, k, s1, work[1..], classResolves, outcome);
        FoldCounts(r, k, s1, work[1..], classResolves, outcome);
        FoldGrows(r, k, s1, work[1..], classResolves, outcome);
        MovedRetried(res, r, k, still, v);
      case NotResolvable =>
        assert res == Fold(r, k, still, work[1..], classResolves, outcome);
        FoldCounts(r, k, still, work[1..], classResolves, outcome);
    }
  }

  /** A resolved item counts as moved. */
  lemma MovedResolved<T>(res: (Resolved<T>, seq<T>), r: Resolved<T>, k: Kind, still: seq<T>, v: T)
    requires Extends(Get(r, k) + [v], Get(res.0, k))
    ensures Moved(res, r, k, still) == multiset{v} + Moved(res, Add(r, k, v), k, still)
  {
    AfterStep(Get(res.0, k), Get(r, k), v);
  }

  /** A retried item counts as moved. */
  lemma MovedRetried<T>(res: (Resolved<T>, seq<T>), r: Resolved<T>, k: Kind, still: seq<T>, v: T)
    requires Extends(still + [v], res.1)
    ensures Moved(res, r, k, still) == multiset{v} + Moved(res, r, k, still + [v])
  {
    AfterStep(res.1, still, v);
  }

  lemma AfterStep<T>(a: seq<T>, p: seq<T>, v: T)
    requires Extends(p + [v], a)
    ensures After(a, |p|) == [v] + After(a, |p| + 1)
  {
    assert a[|p|] == a[..|p| + 1][|p|];
  }

  lemma SubseqSkip<T>(a: seq<T>, b: seq<T>)
    requires b != [] && Subseq(a, b[1..])
    ensures Subseq(a, b)
  {
  }

  /** One pass: classes, then interfaces, then callbacks, then aliases. */
  function Pass<T>(r: Resolved<T>, w: Work<T>,
                   classResolves: (Resolved<T>, T) -> bool,
                   outcome: (Resolved<T>, Kind, T) -> Outcome): (res: (Resolved<T>, Work<T>))
    ensures |res.1.classes| <= |w.classes| && |res.1.interfaces| <= |w.interfaces|
    ensures |res.1.callbacks| <= |w.callbacks| && |res.1.aliases| <= |w.aliases|
  {
    var (r1, c) := Fold(r, ClassKind, [], w.classes, classResolves, outcome);
    var (r2, i) := Fold(r1, InterfaceKind, [], w.interfaces, classResolves, outcome);
    var (r3, b) := Fold(r2, CallbackKind, [], w.callbacks, classResolves, outcome);
    var (r4, a) := Fold(r3, AliasKind, [], w.aliases, classResolves, outcome);
    (r4, Work(c, i, b, a))
  }

  predicate SameLengths<T>(a: Work<T>, b: Work<T>) {
    |a.classes| == |b.classes| && |a.interfaces| == |b.interfaces| &&
    |a.callbacks| == |b.callbacks| && |a.aliases| == |b.aliases|
  }

  /** resolveAll as a value: the resolved lists, what is left unresolved,
    * and the number of passes; it stops once nothing is left or a pass
    * changes no worklist's length. */
  function ResolveAllSpec<T>(r: Resolved<T>, w: Work<T>,
                             classResolves: (Resolved<T>, T) -> bool,
                             outcome: (Resolved<T>, Kind, T) -> Outcome): (res: (Resolved<T>, Work<T>, nat))
    ensures 1 <= res.2 <= Size(w) + 1
    decreases Size(w)
  {
    var (r', w') := Pass(r, w, classResolves, outcome);
    if Size(w') == 0 || SameLengths(w', w) then (r', w', 1)
    else
      var (r'', w'', n) := ResolveAllSpec(r', w', classResolves, outcome);
      (r'', w'', n + 1)
  }

  /** Across a pass, a class is either resolved or still waiting: none is
    * ever dropped. The other kinds only lose items. Resolved lists only
    * grow. */
  lemma PassSpec<T>(r: Resolved<T>, w: Work<T>,
                    classResolves: (Resolved<T>, T) -> bool,
                    outcome: (Resolved<T>, Kind, T) -> Outcome)
    ensures var (r', w') := Pass(r, w, classResolves, outcome);
            && (forall k :: Extends(Get(r, k), Get(r', k)))
            && multiset(After(r'.classes, |r.classes|)) + multiset(w'.classes) == multiset(w.classes)
            && multiset(After(r'.interfaces, |r.interfaces|)) + multiset(w'.interfaces) <= multiset(w.interfaces)
            && multiset(After(r'.callbacks, |r.callbacks|)) + multiset(w'.callbacks) <= multiset(w.callbacks)
            && multiset(After(r'.aliases, |r.aliases|)) + multiset(w'.aliases) <= multiset(w.aliases)
  {
    var (r1, c) := Fold(r, ClassKind, [], w.classes, classResolves, outcome);
    var (r2, i) := Fold(r1, InterfaceKind, [], w.interfaces, classResolves, outcome);
    var (r3, b) := Fold(r2, CallbackKind, [], w.callbacks, classResolves, outcome);
    var (r4, a) := Fold(r3, AliasKind, [], w.aliases, classResolves, outcome);
    FoldGrows(r, ClassKind, [], w.classes, classResolves, outcome);
    FoldGrows(r1, InterfaceKind, [], w.interfaces, classResolves, outcome);
    FoldGrows(r2, CallbackKind, [], w.callbacks, classResolves, outcome);
    FoldGrows(r3, AliasKind, [], w.aliases, classResolves, outcome);
    FoldCounts(r, ClassKind, [], w.classes, classResolves, outcome);
    FoldCounts(r1, InterfaceKind, [], w.interfaces, classResolves, outcome);
    FoldCounts(r2, CallbackKind, [], w.callbacks, classResolves, outcome);
    FoldCounts(r3, AliasKind, [], w.aliases, classResolves, outcome);
    assert After(c, 0) == c && After(i, 0) == i && After(b, 0) == b && After(a, 0) == a;
    forall k
      ensures Extends(Get(r, k), Get(r4, k))
    {
      match k
      case ClassKind =>
        assert Get(r4, k) == Get(r1, k);
      case InterfaceKind =>
        assert Get(r1, k) == Get(r, k) && Get(r4, k) == Get(r2, k);
      case CallbackKind =>
        assert Get(r2, k) == Get(r, k) && Get(r4, k) == Get(r3, k);
      case AliasKind =>
        assert Get(r3, k) == Get(r, k);
    }
    assert r4.classes == r1.classes;
    assert r4.interfaces == r2.interfaces && r1.interfaces == r.interfaces;
    assert r4.callbacks == r3.callbacks && r2.callbacks == r.callbacks;
    assert r3.aliases == r.aliases;
  }

  lemma AfterChain<T>(a: seq<T>, b: seq<T>, c: seq<T>)
    requires Extends(a, b) && Extends(b, c)
    ensures Extends(a, c) && After(c, |a|) == After(b, |a|) + After(c, |b|)
  {
    assert c[..|a|] == c[..|b|][..|a|];
  }

  /** Over the whole of resolveAll, every class ends up either resolved or
    * still unresolved: resolveAll never drops a class. */
  lemma {:induction false} ClassesNeverDropped<T>(r: Resolved<T>, w: Work<T>,
                                                  classResolves: (Resolved<T>, T) -> bool,
                                                  outcome: (Resolved<T>, Kind, T) -> Outcome)
    ensures Extends(r.classes, ResolveAllSpec(r, w, classResolves, outcome).0.classes)
    ensures multiset(After(ResolveAllSpec(r, w, classResolves, outcome).0.classes, |r.classes|))
          + multiset(ResolveAllSpec(r, w, classResolves, outcome).1.classes) == multiset(w.classes)
    decreases Size(w)
  {
    var p := Pass(r, w, classResolves, outcome);
    PassSpec(r, w, classResolves, outcome);
    assert Get(p.0, ClassKind) == p.0.classes && Get(r, ClassKind) == r.classes;
    if !(Size(p.1) == 0 || SameLengths(p.1, w)) {
      var res := ResolveAllSpec(p.0, p.1, classResolves, outcome);
      assert ResolveAllSpec(r, w, classResolves, outcome).0 == res.0;
      assert ResolveAllSpec(r, w, classResolves, outcome).1 == res.1;
      ClassesNeverDropped(p.0, p.1, classResolves, outcome);
      AfterChain(r.classes, p.0.classes, res.0.classes);
    }
  }

  /** A namespace's resolved lists, appended to while resolving. */
  class Namespace<T(==)> {
    var classes: seq<T>
    var interfaces: seq<T>
    var callbacks: seq<T>
    var aliases: seq<T>

    constructor ()
      ensures classes == [] && interfaces == [] && callbacks == [] && aliases == []
    {
      classes, interfaces, callbacks, aliases := [], [], [], [];
    }

    function Snapshot(): Resolved<T>
      reads this
    {
      Resolved(classes, interfaces, callbacks, aliases)
    }

    method Append(k: Kind, v: T)
      modifies this
      ensures Snapshot() == Add(old(Snapshot()), k, v)
    {
      match k
      case ClassKind => classes := classes + [v];
      case InterfaceKind => interfaces := interfaces + [v];
      case CallbackKind => callbacks := callbacks + [v];
      case AliasKind => aliases := aliases + [v];
    }

    /** One kind's loop of a pass; returns the items to retry. */
    method ResolveKind(k: Kind, work: seq<T>,
                       classResolves: (Resolved<T>, T) -> bool,
                       outcome: (Resolved<T>, Kind, T) -> Outcome) returns (still: seq<T>)
      modifies this
      ensures (Snapshot(), still) == Fold(old(Snapshot()), k, [], work, classResolves, outcome)
    {
      still := [];
      var i := 0;
      while i < |work|
        invariant 0 <= i <= |work|
        invariant Fold(Snapshot(), k, still, work[i..], classResolves, outcome)
               == Fold(old(Snapshot()), k, [], work, classResolves, outcome)
      {
        var v := work[i];
        assert work[i..][0] == v && work[i..][1..] == work[i + 1..];
        var o := StepOutcome(Snapshot(), k, v, classResolves, outcome);
        if o == OkResolved {
          Append(k, v);
        } else if o == MaybeResolvable {
          still := still + [v];
        }
        i := i + 1;
      }
      assert work[i..] == [];
    }

    /** resolveAll: passes until nothing is left or a pass leaves every
      * worklist as long as it was; `passes` counts them. */
    method ResolveAll(w: Work<T>,
                      classResolves: (Resolved<T>, T) -> bool,
                      outcome: (Resolved<T>, Kind, T) -> Outcome) returns (ghost passes: nat)
      modifies this
      ensures (Snapshot(), passes) == (ResolveAllSpec(old(Snapshot()), w, classResolves, outcome).0,
                                       ResolveAllSpec(old(Snapshot()), w, classResolves, outcome).2)
      ensures passes <= Size(w) + 1
    {
      var unresolved := w;
      ghost var done := 0;
      while true
        invariant ResolveAllSpec(Snapshot(), unresolved, classResolves, outcome).0
               == ResolveAllSpec(old(Snapshot()), w, classResolves, outcome).0
        invariant done + ResolveAllSpec(Snapshot(), unresolved, classResolves, outcome).2
               == ResolveAllSpec(old(Snapshot()), w, classResolves, outcome).2
        decreases Size(unresolved)
      {
        ghost var before := Snapshot();
        var c := ResolveKind(ClassKind, unresolved.classes, classResolves, outcome);
        var i := ResolveKind(InterfaceKind, unresolved.interfaces, classResolves, outcome);
        var b := ResolveKind(CallbackKind, unresolved.callbacks, classResolves, outcome);
        var a := ResolveKind(AliasKind, unresolved.aliases, classResolves, outcome);
        var still := Work(c, i, b, a);
        assert (Snapshot(), still) == Pass(before, unresolved, classResolves, outcome);
        if |c| == 0 && |i| == 0 && |b| == 0 && |a| == 0 {
          return done + 1;
        }
        if SameLengths(still, unresolved) {
          return done + 1;
        }
        unresolved := still;
        done := done + 1;
      }
    }
  }
}
