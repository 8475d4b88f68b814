/** The signature builder: a GIR callable's parameters, return value and
  * error become the C parameter list and the Go parameter and return
  * lists, or the callable is rejected. */
module Params {
  import opened Wrappers
  import opened TypeSystem
  import opened Primitives
  import opened Env
  import opened CTypes
  import CustomAttrs
  import StrCases
  import Gir

  /** Whether the Go side calls C (a function or method) or C calls the Go
    * side (a callback). */
  datatype Mode = CallableMode | CallbackMode

  // ---------------------------------------------------------------------------
  // Param.valid

  /** The transfer check of a convertible parameter: a callable's in
    * parameter goes to C and its out and return values come from C; a
    * callback's are the other way round. Other directions are not checked. */
  predicate TransferAllowed(b: BaseConversions, direction: string, transfer: string, mode: Mode) {
    if direction == "in" then
      (if mode == CallableMode then CanTransferToGlib(b, transfer) else CanTransferFromGlib(b, transfer))
    else if direction == "out" || direction == "return" then
      (if mode == CallableMode then CanTransferFromGlib(b, transfer) else CanTransferToGlib(b, transfer))
    else true
  }

  /** The untyped pointer types, never valid as a parameter. */
  predicate IsUnsafePointer(t: Ty) {
    t == Gpointer || t == Guintptr || t == Gconstpointer
  }

  /** The objects Param.valid reads: a record's conversions can change. */
  function ParamReads(p: Param): set<object> {
    if p.typ.t.RecordTy? then {p.typ.t.rec} else {}
  }

  /** Param.valid; an inout convertible parameter is a panic in the source. */
  function ParamValid(p: Param, mode: Mode): (r: Result<bool>)
    reads ParamReads(p)
    ensures p.implicit || p.skip ==> r == Ok(true)
    ensures r.Err? <==> !p.implicit && !p.skip && IsConvertible(p.typ.t) && p.direction == "inout"
    ensures !p.implicit && !p.skip && IsUnsafePointer(p.typ.t) ==> r == Ok(false)
    ensures r == Ok(true) && !p.implicit && !p.skip ==>
              && (IsConvertible(p.typ.t) ==> TransferAllowed(Conversions(p.typ.t), p.direction, p.transfer, mode))
              && !IsUnsafePointer(p.typ.t)
              && (IsCheckedParameterType(p.typ.t) ==> AllowedTypeForParam(p.typ.t, p))
              && (!IsCheckedParameterType(p.typ.t) ==> TypePointersAllowed(p.typ.t, p.cTypePointers))
  {
    if p.implicit || p.skip then Ok(true)
    else if IsConvertible(p.typ.t) && p.direction == "inout" then Err("should not be inout")
    else if IsConvertible(p.typ.t) && !TransferAllowed(Conversions(p.typ.t), p.direction, p.transfer, mode) then Ok(false)
    else if IsUnsafePointer(p.typ.t) then Ok(false)
    else if IsCheckedParameterType(p.typ.t) then Ok(AllowedTypeForParam(p.typ.t, p))
    else Ok(TypePointersAllowed(p.typ.t, p.cTypePointers))
  }

  /** A callback's in parameter is checked as a callable's out parameter is,
    * and the other way round. */
  lemma ModesSwapDirections(p: Param)
    requires p.direction == "in"
    ensures ParamValid(p, CallbackMode) == ParamValid(p.(direction := "out"), CallableMode)
    ensures ParamValid(p, CallableMode) == ParamValid(p.(direction := "out"), CallbackMode)
  {
  }

  // ---------------------------------------------------------------------------
  // Building one parameter

  /** The instance parameter: carg0, one pointer, owned by the caller. */
  function InstanceParamOf(ip: Gir.ParameterAttrs, t: Ty): Param
    requires ip.anyType.typ.Some?
  {
    var ct := CTypeFromAnytype(ip.anyType).value;
    Param("carg0", StrCases.ParamNameToGo(ip.name), Foreign(None, t), 1, ct, CtypeToCgoType(ct),
          false, TransferNone, false, "in", "call", false, false, false, false, None, None, false)
  }

  /** The instance parameter of a method: not an array, found, local, and
    * exactly one pointer; otherwise the callable is not resolvable (None). */
  function BuildInstanceParam(e: Env, ip: Gir.ParameterAttrs): (r: Result<Option<Param>>)
    ensures r.Ok? && r.value.Some? ==>
              && ip.anyType.typ.Some?
              && CountCTypePointers(ip.anyType.typ.value.ctype) == 1
              && FindType(e, ip.anyType.typ.value) == Ok(Found(None, Some(r.value.value.typ.t)))
              && r.value.value.typ.ns.None? && r.value.value.cTypePointers == 1
              && r.value.value.cName == "carg0" && r.value.value.direction == "in"
              && r.value.value.transfer == TransferNone
    ensures r.Ok? && r.value.None? <==>
              || ip.anyType.typ.None?
              || (FindType(e, ip.anyType.typ.value).Ok?
                  && (FindType(e, ip.anyType.typ.value).value.t.None?
                      || FindType(e, ip.anyType.typ.value).value.ns.Some?
                      || CountCTypePointers(ip.anyType.typ.value.ctype) != 1))
  {
    if ip.anyType.typ.None? then Ok(None)
    else match FindType(e, ip.anyType.typ.value)
      case Err(m) => Err(m)
      case Ok(f) =>
        if f.t.None? || f.ns.Some? || CountCTypePointers(ip.anyType.typ.value.ctype) != 1 then Ok(None)
        else Ok(Some(InstanceParamOf(ip, f.t.value)))
  }

  /** The default direction is in. */
  function Direction(given: string): (r: string)
    ensures r != ""
    ensures given != "" ==> r == given
  {
    if given == "" then "in" else given
  }

  /** The default transfer: full for in, none for a caller-allocated out or
    * inout, otherwise none given. */
  function DefaultTransfer(given: string, direction: string, callerAllocates: bool): (r: string)
    ensures given != "" ==> r == given
    ensures given == "" && direction == "in" ==> r == TransferFull
    ensures given == "" && direction in {"out", "inout"} ==> r == (if callerAllocates then TransferNone else "")
  {
    if given != "" then given
    else if direction == "in" then TransferFull
    else if (direction == "out" || direction == "inout") && callerAllocates then TransferNone
    else ""
  }

  /** An optional or nullable out parameter that becomes a plain value (no
    * pointer left, not an untyped pointer) cannot be nil. */
  function OutNullable(p: Gir.ParameterAttrs, pointers: nat, t: Ty): (r: bool)
    ensures r ==> p.nullable
    ensures p.direction != "out" ==> r == p.nullable
    ensures p.direction == "out" && pointers == 0 && !IsPointer(t) ==> !r
  {
    if p.direction == "out" && (p.optional || p.nullable) && pointers == 0 && !IsPointer(t) then false
    else p.nullable
  }

  /** GIR parameter i (C name carg<i+1>) as found; links are set later. */
  function GirParamOf(i: nat, p: Gir.ParameterAttrs, pt: Gir.AnyType, pointers: nat, f: Found): Param
    requires f.t.Some? && (pt.typ.Some? || pt.arr.Some?)
  {
    var ct := CTypeFromAnytype(pt).value;
    var direction := Direction(p.direction);
    Param("carg" + CustomAttrs.FormatInt(i + 1), StrCases.ParamNameToGo(p.name), Foreign(f.ns, f.t.value),
          pointers, ct, CtypeToCgoType(ct), p.skip,
          DefaultTransfer(p.transferOwnership, direction, p.callerAllocates),
          OutNullable(p, pointers, f.t.value), direction, if p.scope == "" then "call" else p.scope,
          p.callerAllocates, false, false, false, None, None, p.optional)
  }

  /** One GIR parameter: inout is not supported; an out parameter loses a
    * pointer (and is not resolvable without one); an unknown type may be
    * declared later. An AnyType with neither a type nor an array is an
    * error, as is a failing lookup. */
  function BuildParam(e: Env, i: nat, p: Gir.ParameterAttrs): (r: Result<(Outcome, Option<Param>)>)
    ensures r.Ok? ==> (r.value.0 == OkResolved <==> r.value.1.Some?)
    ensures p.direction == "inout" ==> r == Ok((NotResolvable, None))
    ensures p.direction != "inout" && p.anyType.typ.None? && p.anyType.arr.None? ==> r.Err?
    ensures r.Ok? && r.value.0 == MaybeResolvable <==>
              && p.direction != "inout" && CTypeFromAnytype(p.anyType).Ok?
              && (p.direction == "out" ==> DecreaseAnyTypePointers(p.anyType).1)
              && var pt := if p.direction == "out" then DecreaseAnyTypePointers(p.anyType).0 else p.anyType;
                 FindAnyType(e, pt).Ok? && FindAnyType(e, pt).value.t.None?
    ensures r.Ok? && r.value.1.Some? ==>
              && p.direction != "inout"
              && r.value.1.value.cTypePointers
                   == CountCTypePointers(CTypeFromAnytype(p.anyType).value) - (if p.direction == "out" then 1 else 0)
              && r.value.1.value.direction == Direction(p.direction)
              && r.value.1.value.skip == p.skip
              && !r.value.1.value.implicit && r.value.1.value.closure.None? && r.value.1.value.destroy.None?
  {
    if p.direction == "inout" then Ok((NotResolvable, None))
    else match CTypeFromAnytype(p.anyType)
      case Err(m) => Err(m)
      case Ok(ct) =>
        var n: int := CountCTypePointers(ct) - (if p.direction == "out" then 1 else 0);
        var dec := DecreaseAnyTypePointers(p.anyType);
        if p.direction == "out" && !dec.1 then Ok((NotResolvable, None))
        else
          var pt := if p.direction == "out" then dec.0 else p.anyType;
          if n < 0 then Ok((NotResolvable, None))
          else match FindAnyType(e, pt)
            case Err(m) => Err(m)
            case Ok(f) =>
              if f.t.None? then Ok((MaybeResolvable, None))
              else Ok((OkResolved, Some(GirParamOf(i, p, pt, n, f))))
  }

  /** An out parameter that has a pointer to lose never ends up with a
    * negative count: the second check of the source cannot fire. */
  lemma OutPointerCountNonNegative(p: Gir.ParameterAttrs)
    requires p.direction == "out" && (p.anyType.typ.Some? || p.anyType.arr.Some?)
    requires DecreaseAnyTypePointers(p.anyType).1
    ensures CountCTypePointers(CTypeFromAnytype(p.anyType).value) >= 1
  {
  }

  // ---------------------------------------------------------------------------
  // The GIR parameter loop

  /** What building one parameter gives: a parameter exactly when it
    * resolved. */
  type Built = r: Result<(Outcome, Option<Param>)> | r.Ok? ==> (r.value.0 == OkResolved <==> r.value.1.Some?)
    witness Err("")

  /** Building parameter i, as the loop sees it. */
  type ParamBuilder = (nat, Gir.ParameterAttrs) -> Built

  function Builder(e: Env): ParamBuilder {
    (i, p) => BuildParam(e, i, p)
  }

  /** The GIR parameters from `from` on, or the outcome of the first one
    * that does not resolve (with no parameters). */
  function BuildParams(build: ParamBuilder, ps: seq<Gir.ParameterAttrs>, from: nat): (r: Result<(Outcome, seq<Param>)>)
    ensures r.Ok? && r.value.0 != OkResolved ==> r.value.1 == []
    decreases |ps| - from
  {
    if from >= |ps| then Ok((OkResolved, []))
    else match build(from, ps[from])
      case Err(m) => Err(m)
      case Ok(b) =>
        if b.0 != OkResolved then Ok((b.0, []))
        else match BuildParams(build, ps, from + 1)
          case Err(m) => Err(m)
          case Ok(rest) => if rest.0 == OkResolved then Ok((OkResolved, [b.1.value] + rest.1)) else Ok(rest)
  }

  /** On success there is one parameter per GIR parameter, each built on
    * its own; otherwise the outcome is that of some parameter, every one
    * before it having resolved. */
  lemma {:induction false} BuildParamsSpec(build: ParamBuilder, ps: seq<Gir.ParameterAttrs>, from: nat)
    requires from <= |ps|
    ensures var r := BuildParams(build, ps, from);
            r.Ok? && r.value.0 == OkResolved ==>
              && |r.value.1| == |ps| - from
              && forall k :: 0 <= k < |r.value.1| ==> build(from + k, ps[from + k]) == Ok((OkResolved, Some(r.value.1[k])))
    ensures var r := BuildParams(build, ps, from);
            r.Ok? && r.value.0 != OkResolved ==>
              exists j :: from <= j < |ps| && build(j, ps[j]) == Ok((r.value.0, None))
    decreases |ps| - from
  {
    if from < |ps| {
      BuildParamsSpec(build, ps, from + 1);
      var r := BuildParams(build, ps, from);
      var b := build(from, ps[from]);
      if b.Ok? && b.value.0 == OkResolved && r.Ok? && r.value.0 == OkResolved {
        var rest := BuildParams(build, ps, from + 1);
        assert r.value.1 == [b.value.1.value] + rest.value.1;
        forall k | 0 <= k < |r.value.1|
          ensures build(from + k, ps[from + k]) == Ok((OkResolved, Some(r.value.1[k])))
        {
          if k > 0 {
            assert r.value.1[k] == rest.value.1[k - 1];
          }
        }
      }
    }
  }

  /** Whether a parameter goes to the Go parameters (false) or the Go
    * returns (true): skipped ones go to neither, out ones are returns. */
  predicate Selected(p: Gir.ParameterAttrs, returns_: bool) {
    !p.skip && (p.direction == "out") == returns_
  }

  /** The indices of the first n GIR parameters that go to the Go
    * parameters or to the Go returns, in order. */
  function GoIndices(ps: seq<Gir.ParameterAttrs>, n: nat, returns_: bool): (r: seq<nat>)
    requires n <= |ps|
    ensures forall k :: 0 <= k < |r| ==> r[k] < n && Selected(ps[r[k]], returns_)
    ensures forall i :: 0 <= i < n && Selected(ps[i], returns_) ==> i in r
    ensures forall a, b :: 0 <= a < b < |r| ==> r[a] < r[b]
  {
    if n == 0 then []
    else
      var prev := GoIndices(ps, n - 1, returns_);
      if Selected(ps[n - 1], returns_) then
        var r := prev + [n - 1];
        assert forall k :: 0 <= k < |prev| ==> r[k] == prev[k];
        assert r[|prev|] == n - 1;
        r
      else prev
  }

  /** Accumulated parameters in front of the rest of the loop's result. */
  function PrependParams(acc: seq<Param>, r: Result<(Outcome, seq<Param>)>): Result<(Outcome, seq<Param>)> {
    match r
    case Err(m) => Err(m)
    case Ok(b) => if b.0 == OkResolved then Ok((OkResolved, acc + b.1)) else Ok((b.0, []))
  }

  /** The GIR parameter loop of NewGenericParameters: the parameters in
    * order, and the indices of those that become Go parameters and Go
    * returns. */
  method BuildGirParams(build: ParamBuilder, ps: seq<Gir.ParameterAttrs>)
    returns (r: Result<(Outcome, seq<Param>)>, goParams: seq<nat>, goReturns: seq<nat>)
    ensures r == BuildParams(build, ps, 0)
    ensures r.Ok? && r.value.0 == OkResolved ==>
              goParams == GoIndices(ps, |ps|, false) && goReturns == GoIndices(ps, |ps|, true)
  {
    var gps: seq<Param> := [];
    goParams, goReturns := [], [];
    var i := 0;
    assert PrependParams(gps, BuildParams(build, ps, i)) == BuildParams(build, ps, 0) by {
      var r0 := BuildParams(build, ps, 0);
      if r0.Ok? && r0.value.0 == OkResolved {
        assert [] + r0.value.1 == r0.value.1;
      }
    }
    while i < |ps|
      invariant 0 <= i <= |ps|
      invariant PrependParams(gps, BuildParams(build, ps, i)) == BuildParams(build, ps, 0)
      invariant goParams == GoIndices(ps, i, false) && goReturns == GoIndices(ps, i, true)
    {
      var b := build(i, ps[i]);
      if b.Err? {
        return Err(b.msg), goParams, goReturns;
      }
      if b.value.0 != OkResolved {
        return Ok((b.value.0, [])), goParams, goReturns;
      }
      var p := b.value.1.value;
      ghost var rest := BuildParams(build, ps, i + 1);
      assert PrependParams(gps + [p], rest) == PrependParams(gps, BuildParams(build, ps, i)) by {
        if rest.Ok? && rest.value.0 == OkResolved {
          assert gps + [p] + rest.value.1 == gps + ([p] + rest.value.1);
        }
      }
      gps := gps + [p];
      // the built parameter's skip flag is the GIR parameter's
      if !ps[i].skip {
        if ps[i].direction == "out" {
          goReturns := goReturns + [i];
        } else {
          goParams := goParams + [i];
        }
      }
      i := i + 1;
    }
    assert gps + [] == gps;
    r := Ok((OkResolved, gps));
  }

  // ---------------------------------------------------------------------------
  // Linking closure, destroy and array-length parameters

  /** The array-length index a GIR parameter declares, if any. */
  function LengthOf(a: Gir.ParameterAttrs): Option<int> {
    if a.anyType.arr.Some? then a.anyType.arr.value.length else None
  }

  /** GIR parameter `a` refers to parameter j: as its closure (user data),
    * its destroy notify or its array length. */
  predicate Marks(a: Gir.ParameterAttrs, j: nat) {
    a.closure == Some(j as int) || a.destroy == Some(j as int) || LengthOf(a) == Some(j as int)
  }

  predicate InRange(x: int, n: nat) {
    0 <= x < n
  }

  /** GIR parameter i's links are a panic in the source: an index outside
    * the list, or an array length on a parameter whose type is not an
    * array. */
  predicate BadLink(a: Gir.ParameterAttrs, i: nat, n: nat, p: Param) {
    || (a.closure.Some? && a.closure.value != i && !InRange(a.closure.value, n))
    || (a.destroy.Some? && !InRange(a.destroy.value, n))
    || (LengthOf(a).Some? && (!p.typ.t.ArrayTy? || !InRange(LengthOf(a).value, n)))
  }

  /** The closure link: a parameter whose closure is another parameter
    * points at it; one whose closure is itself carries the user data, under
    * the Go name "_". */
  function ClosureStep(a: Gir.ParameterAttrs, i: nat, p: Param): Param
    requires a.closure.Some? && a.closure.value != i ==> a.closure.value >= 0
  {
    if a.closure.Some? && a.closure.value != i then p.(closure := Some(a.closure.value as nat))
    else if a.closure == Some(i as int) then p.(isUserData := true, goName := "_")
    else p
  }

  function DestroyStep(a: Gir.ParameterAttrs, p: Param): Param
    requires a.destroy.Some? ==> a.destroy.value >= 0
  {
    if a.destroy.Some? then p.(destroy := Some(a.destroy.value as nat)) else p
  }

  function LengthStep(a: Gir.ParameterAttrs, p: Param): Param
    requires LengthOf(a).Some? ==> LengthOf(a).value >= 0 && p.typ.t.ArrayTy?
  {
    if LengthOf(a).Some? then p.(typ := p.typ.(t := ArrayTy(p.typ.t.arr.(length := Some(LengthOf(a).value as nat)))))
    else p
  }

  /** What linking writes to parameter i itself: the closure and destroy
    * links, the user-data marking of a self-closure, the array length. */
  function OwnLinked(a: Gir.ParameterAttrs, i: nat, n: nat, p: Param): (r: Param)
    requires !BadLink(a, i, n, p)
  {
    LengthStep(a, DestroyStep(a, ClosureStep(a, i, p)))
  }

  /** Some of the first `upto` GIR parameters refers to parameter j. */
  predicate MarkedBefore(ps: seq<Gir.ParameterAttrs>, upto: nat, j: nat)
    requires upto <= |ps|
  {
    exists k :: 0 <= k < upto && Marks(ps[k], j)
  }

  lemma MarkedBeforeStep(ps: seq<Gir.ParameterAttrs>, i: nat, j: nat)
    requires i < |ps|
    ensures MarkedBefore(ps, i + 1, j) <==> MarkedBefore(ps, i, j) || Marks(ps[i], j)
  {
    if MarkedBefore(ps, i + 1, j) && !Marks(ps[i], j) {
      var k :| 0 <= k < i + 1 && Marks(ps[k], j);
      assert k < i;
    }
  }

  /** Parameter j once linked: its own links set, and implicit exactly when
    * it was or some parameter refers to it. */
  function Linked(ps: seq<Gir.ParameterAttrs>, gps: seq<Param>, j: nat): (r: Param)
    requires |ps| == |gps| && j < |ps|
    requires forall k :: 0 <= k < |ps| ==> !BadLink(ps[k], k, |ps|, gps[k])
  {
    OwnLinked(ps[j], j, |ps|, gps[j]).(implicit := gps[j].implicit || MarkedBefore(ps, |ps|, j))
  }

  /** The closure part of an iteration: parameter i's own fields, and the
    * parameter that becomes implicit. */
  method LinkClosure(a: Gir.ParameterAttrs, i: nat, cur: seq<Param>) returns (r: Result<seq<Param>>, target: Option<nat>)
    requires i < |cur|
    ensures r.Err? <==> a.closure.Some? && a.closure.value != i && !InRange(a.closure.value, |cur|)
    ensures r.Ok? ==>
              && r.value == cur[i := ClosureStep(a, i, cur[i])]
              && (target.Some? <==> a.closure.Some?)
              && (target.Some? ==> target.value as int == a.closure.value && target.value < |cur|)
  {
    target := None;
    if a.closure.Some? && a.closure.value != i {
      if !InRange(a.closure.value, |cur|) {
        return Err("index out of range"), None;
      }
      r := Ok(cur[i := cur[i].(closure := Some(a.closure.value as nat))]);
      target := Some(a.closure.value as nat);
    } else if a.closure == Some(i as int) {
      r := Ok(cur[i := cur[i].(isUserData := true, goName := "_")]);
      target := Some(i);
    } else {
      r := Ok(cur);
    }
  }

  /** The destroy part of an iteration. */
  method LinkDestroy(a: Gir.ParameterAttrs, i: nat, cur: seq<Param>) returns (r: Result<seq<Param>>, target: Option<nat>)
    requires i < |cur|
    ensures r.Err? <==> a.destroy.Some? && !InRange(a.destroy.value, |cur|)
    ensures r.Ok? ==>
              && r.value == cur[i := DestroyStep(a, cur[i])]
              && (target.Some? <==> a.destroy.Some?)
              && (target.Some? ==> target.value as int == a.destroy.value && target.value < |cur|)
  {
    target := None;
    r := Ok(cur);
    if a.destroy.Some? {
      if !InRange(a.destroy.value, |cur|) {
        return Err("index out of range"), None;
      }
      r := Ok(cur[i := cur[i].(destroy := Some(a.destroy.value as nat))]);
      target := Some(a.destroy.value as nat);
    }
  }

  /** The array-length part of an iteration. */
  method LinkLength(a: Gir.ParameterAttrs, i: nat, cur: seq<Param>) returns (r: Result<seq<Param>>, target: Option<nat>)
    requires i < |cur|
    ensures r.Err? <==> LengthOf(a).Some? && (!cur[i].typ.t.ArrayTy? || !InRange(LengthOf(a).value, |cur|))
    ensures r.Ok? ==>
              && r.value == cur[i := LengthStep(a, cur[i])]
              && (target.Some? <==> LengthOf(a).Some?)
              && (target.Some? ==> target.value as int == LengthOf(a).value && target.value < |cur|)
  {
    target := None;
    r := Ok(cur);
    if LengthOf(a).Some? {
      if !cur[i].typ.t.ArrayTy? {
        return Err("interface conversion: the parameter's type is not an array"), None;
      }
      if !InRange(LengthOf(a).value, |cur|) {
        return Err("index out of range"), None;
      }
      r := Ok(cur[i := LengthStep(a, cur[i])]);
      target := Some(LengthOf(a).value as nat);
    }
  }

  /** Sets the implicit mark of the parameter a link points at. */
  function Mark(marks: seq<bool>, target: Option<nat>): (r: seq<bool>)
    requires target.Some? ==> target.value < |marks|
    ensures |r| == |marks|
    ensures forall k :: 0 <= k < |r| ==> r[k] == (marks[k] || target == Some(k))
  {
    if target.Some? then marks[target.value := true] else marks
  }

  /** One iteration of the linking loop, for GIR parameter i. */
  method LinkOne(a: Gir.ParameterAttrs, i: nat, cur: seq<Param>, marks: seq<bool>)
    returns (r: Result<seq<Param>>, marks': seq<bool>)
    requires i < |cur| == |marks|
    ensures r.Err? <==> BadLink(a, i, |cur|, cur[i])
    ensures r.Ok? ==>
              && r.value == cur[i := OwnLinked(a, i, |cur|, cur[i])]
              && |marks'| == |marks|
              && forall k :: 0 <= k < |marks| ==> marks'[k] == (marks[k] || Marks(a, k))
  {
    marks' := marks;
    var c, ct := LinkClosure(a, i, cur);
    if c.Err? {
      return Err(c.msg), marks';
    }
    var d, dt := LinkDestroy(a, i, c.value);
    if d.Err? {
      return Err(d.msg), marks';
    }
    var l, lt := LinkLength(a, i, d.value);
    if l.Err? {
      return Err(l.msg), marks';
    }
    marks' := Mark(Mark(Mark(marks, ct), dt), lt);
    return l, marks';
  }

  /** The linking loop of NewGenericParameters. A parameter's implicit flag
    * is only written by the loop, never read, so the flags are collected
    * beside the parameters and written when the loop is done. */
  method LinkParams(ps: seq<Gir.ParameterAttrs>, gps: seq<Param>) returns (r: Result<seq<Param>>)
    requires |ps| == |gps|
    ensures r.Err? <==> exists k :: 0 <= k < |ps| && BadLink(ps[k], k, |ps|, gps[k])
    ensures r.Ok? ==>
              && |r.value| == |gps|
              && (forall k :: 0 <= k < |ps| ==> !BadLink(ps[k], k, |ps|, gps[k]))
              && forall j :: 0 <= j < |ps| ==> r.value[j] == Linked(ps, gps, j)
  {
    var cur := gps;
    var marks := seq(|gps|, j requires 0 <= j < |gps| => gps[j].implicit);
    var i := 0;
    while i < |ps|
      invariant 0 <= i <= |ps| && |cur| == |ps| == |marks|
      invariant forall k :: 0 <= k < i ==> !BadLink(ps[k], k, |ps|, gps[k])
      invariant forall j :: 0 <= j < |ps| ==> cur[j] == if j < i then OwnLinked(ps[j], j, |ps|, gps[j]) else gps[j]
      invariant forall j :: 0 <= j < |ps| ==> marks[j] == (gps[j].implicit || MarkedBefore(ps, i, j))
    {
      var step, marks' := LinkOne(ps[i], i, cur, marks);
      if step.Err? {
        return Err(step.msg);
      }
      forall j | 0 <= j < |ps|
        ensures marks'[j] == (gps[j].implicit || MarkedBefore(ps, i + 1, j))
      {
        MarkedBeforeStep(ps, i, j);
      }
      cur, marks := step.value, marks';
      i := i + 1;
    }
    return Ok(seq(|cur|, j requires 0 <= j < |cur| => cur[j].(implicit := marks[j])));
  }

  // ---------------------------------------------------------------------------
  // Return value and error

  /** The C return value as a parameter: cret in C, goret in Go. */
  function ReturnParamOf(rv: Gir.ReturnValue, f: Found, transfer: string, ct: string): Param
    requires f.t.Some?
  {
    Param("cret", "goret", Foreign(f.ns, f.t.value), CountCTypePointers(ct), ct, CtypeToCgoType(ct),
          false, transfer, rv.nullable, "return", "", false, false, false, transfer == TransferBorrow,
          None, None, false)
  }

  /** The return value: an unknown type may appear later; the transfer
    * defaults to full; a borrowed return needs an instance to borrow from. */
  function BuildReturn(e: Env, rv: Gir.ReturnValue, hasInstance: bool): (r: Result<(Outcome, Option<Param>)>)
    ensures r.Ok? ==> (r.value.0 == OkResolved <==> r.value.1.Some?)
    ensures r.Ok? && r.value.1.Some? ==>
              && r.value.1.value.direction == "return" && r.value.1.value.cName == "cret"
              && r.value.1.value.transfer == (if rv.transferOwnership == "" then TransferFull else rv.transferOwnership)
              && (r.value.1.value.borrowsFromInstance <==> r.value.1.value.transfer == TransferBorrow)
              && (r.value.1.value.borrowsFromInstance ==> hasInstance)
              && FindAnyType(e, rv.anyType) == Ok(Found(r.value.1.value.typ.ns, Some(r.value.1.value.typ.t)))
    ensures r.Err? <==> FindAnyType(e, rv.anyType).Err?
    ensures r.Ok? && r.value.0 == MaybeResolvable <==> FindAnyType(e, rv.anyType).Ok? && FindAnyType(e, rv.anyType).value.t.None?
    ensures r.Ok? && r.value.0 == NotResolvable <==>
              && FindAnyType(e, rv.anyType).Ok? && FindAnyType(e, rv.anyType).value.t.Some?
              && rv.transferOwnership == TransferBorrow && !hasInstance
  {
    match FindAnyType(e, rv.anyType)
    case Err(m) => Err(m)
    case Ok(found) =>
      if found.t.None? then Ok((MaybeResolvable, None))
      else
        // a found type means the annotation names a type or an array, so it
        // has a C type
        var ct := CTypeFromAnytype(rv.anyType);
        var transfer := if rv.transferOwnership == "" then TransferFull else rv.transferOwnership;
        if transfer == TransferBorrow && !hasInstance then Ok((NotResolvable, None))
        else Ok((OkResolved, Some(ReturnParamOf(rv, found, transfer, ct.value))))
  }

  /** The GError** a throwing callable takes last: a nullable, optional out
    * parameter, owned by the caller. */
  function ThrowParam(f: Found): (p: Param)
    requires f.t.Some?
    ensures p.direction == "out" && p.nullable && p.optional && p.transfer == TransferFull
    ensures p.cName == "_cerr" && p.cTypePointers == 1 && !p.skip && !p.implicit
  {
    Param("_cerr", "_goerr", Foreign(f.ns, f.t.value), 1, "", "", false, TransferFull, true, "out", "",
          false, false, false, false, None, None, true)
  }

  /** The error parameter, or None (not resolvable) without GLib.Error. */
  function BuildThrows(e: Env): (r: Result<Option<Param>>)
    ensures r.Err? <==> FindTypeByGIRName(e, "GLib.Error").Err?
    ensures r.Ok? ==> (r.value.None? <==> FindTypeByGIRName(e, "GLib.Error").value.t.None?)
    ensures r.Ok? && r.value.Some? ==> r.value.value == ThrowParam(FindTypeByGIRName(e, "GLib.Error").value)
  {
    match FindTypeByGIRName(e, "GLib.Error")
    case Err(m) => Err(m)
    case Ok(found) => if found.t.None? then Ok(None) else Ok(Some(ThrowParam(found)))
  }

  // ---------------------------------------------------------------------------
  // Validity and order

  /** What the validity loop answers: the first parameter, then the
    * return, that is not valid (its verdict, a panic included), or true. */
  function ValidCheck(cps: seq<Param>, cret: Option<Param>, mode: Mode): (r: Result<bool>)
    reads set k, o | 0 <= k < |cps| && o in ParamReads(cps[k]) :: o
    reads if cret.Some? then ParamReads(cret.value) else {}
    ensures r == Ok(true) <==> AllValid(cps, cret, mode)
    decreases |cps|
  {
    if cps == [] then (if cret.Some? then ParamValid(cret.value, mode) else Ok(true))
    else if ParamValid(cps[0], mode) != Ok(true) then ParamValid(cps[0], mode)
    else
      var r := ValidCheck(cps[1..], cret, mode);
      assert AllValid(cps, cret, mode) <==> AllValid(cps[1..], cret, mode) by {
        if AllValid(cps[1..], cret, mode) {
          forall k | 0 <= k < |cps| ensures ParamValid(cps[k], mode) == Ok(true) {
            if k > 0 {
              assert cps[k] == cps[1..][k - 1];
            }
          }
        }
        if AllValid(cps, cret, mode) {
          forall k | 0 <= k < |cps| - 1 ensures ParamValid(cps[1..][k], mode) == Ok(true) {
            assert cps[1..][k] == cps[k + 1];
          }
        }
      }
      r
  }

  /** The validity loop: every C parameter, then the C return. */
  method CheckValid(cps: seq<Param>, cret: Option<Param>, mode: Mode) returns (r: Result<bool>)
    ensures r == ValidCheck(cps, cret, mode)
    ensures r == Ok(true) <==>
              (forall k :: 0 <= k < |cps| ==> ParamValid(cps[k], mode) == Ok(true))
              && (cret.Some? ==> ParamValid(cret.value, mode) == Ok(true))
    ensures r.Err? ==>
              (exists k :: 0 <= k < |cps| && ParamValid(cps[k], mode).Err?)
              || (cret.Some? && ParamValid(cret.value, mode).Err?)
  {
    var i := 0;
    while i < |cps|
      invariant 0 <= i <= |cps|
      invariant forall k :: 0 <= k < i ==> ParamValid(cps[k], mode) == Ok(true)
      invariant ValidCheck(cps[i..], cret, mode) == ValidCheck(cps, cret, mode)
    {
      var v := ParamValid(cps[i], mode);
      if v != Ok(true) {
        return v;
      }
      assert cps[i..][1..] == cps[i + 1..];
      i := i + 1;
    }
    if cret.Some? {
      return ParamValid(cret.value, mode);
    }
    return Ok(true);
  }

  /** Where GIR parameter k goes among the Go parameters. */
  function ParamPlace(gps: seq<Param>, k: nat): Place {
    if k < |gps| then Rank(gps[k], false) else 1
  }

  /** Where a Go return goes among the Go returns. */
  function ReturnPlace(gps: seq<Param>, cret: Option<Param>, ref: ParamRef): Place {
    match ref
    case GirParam(k) => if k < |gps| then Rank(gps[k], true) else 1
    case CReturnParam => if cret.Some? then Rank(cret.value, true) else 1
  }

  /** Sorts a list by place, through an array. */
  method SortedByPlace<T(==)>(s: seq<T>, placeOf: T -> Place) returns (r: seq<T>)
    ensures multiset(r) == multiset(s)
    ensures forall a, b :: 0 <= a < b < |r| ==> placeOf(r[a]) <= placeOf(r[b])
  {
    var arr := new T[|s|](k requires 0 <= k < |s| => s[k]);
    assert arr[..] == s;
    SortByPlace(arr, placeOf);
    r := arr[..];
  }

  // ---------------------------------------------------------------------------
  // NewGenericParameters

  /** The Go parameter indices of a callable without GIR parameters are none. */
  function GoParamIndices(v: Gir.CallableAttrs, returns_: bool): seq<nat> {
    if v.parameters.Some? then GoIndices(v.parameters.value.parameters, |v.parameters.value.parameters|, returns_)
    else []
  }

  function GirParamCount(v: Gir.CallableAttrs): nat {
    if v.parameters.Some? then |v.parameters.value.parameters| else 0
  }

  /** The GIR parameters of a callable; none when it has no parameter list. */
  function GirParamsOf(v: Gir.CallableAttrs): seq<Gir.ParameterAttrs> {
    if v.parameters.Some? then v.parameters.value.parameters else []
  }

  /** The first |ps| entries of gps are the parameters of ps, each built on
    * its own by `build` and then linked. */
  ghost predicate LinkedFrom(build: ParamBuilder, ps: seq<Gir.ParameterAttrs>, gps: seq<Param>) {
    var b := BuildParams(build, ps, 0);
    && b.Ok? && b.value.0 == OkResolved && |b.value.1| == |ps| && |ps| <= |gps|
    && (forall k :: 0 <= k < |ps| ==> !BadLink(ps[k], k, |ps|, b.value.1[k]))
    && forall j :: 0 <= j < |ps| ==> gps[j] == Linked(ps, b.value.1, j)
  }

  /** A longer list that starts with the linked parameters still holds
    * them. */
  lemma LinkedFromPrefix(build: ParamBuilder, ps: seq<Gir.ParameterAttrs>, gps: seq<Param>, longer: seq<Param>)
    requires LinkedFrom(build, ps, gps)
    requires |gps| <= |longer| && longer[..|gps|] == gps
    ensures LinkedFrom(build, ps, longer)
  {
    var b := BuildParams(build, ps, 0);
    forall j | 0 <= j < |ps| ensures longer[j] == Linked(ps, b.value.1, j) {
      assert longer[j] == longer[..|gps|][j];
    }
  }

  /** The parameters while they are being built: GoParameters and GoReturns
    * hold indices into the GIR parameters. */
  datatype Draft = Draft(instance: Option<Param>, gps: seq<Param>, goParams: seq<nat>, goRets: seq<ParamRef>, cret: Option<Param>)

  /** Every Go parameter index points at a GIR parameter. */
  predicate IndicesInRange(d: Draft) {
    && (forall k :: 0 <= k < |d.goParams| ==> d.goParams[k] < |d.gps|)
    && (forall k :: 0 <= k < |d.goRets| ==> d.goRets[k].GirParam? ==> d.goRets[k].index < |d.gps|)
  }

  /** Every GIR parameter once linked. */
  function LinkedAll(ps: seq<Gir.ParameterAttrs>, gps: seq<Param>): (r: seq<Param>)
    requires |ps| == |gps|
    requires forall k :: 0 <= k < |ps| ==> !BadLink(ps[k], k, |ps|, gps[k])
  {
    seq(|ps|, j requires 0 <= j < |ps| => Linked(ps, gps, j))
  }

  /** Go returns that are GIR parameters, by index. */
  function GoRetRefs(indices: seq<nat>): seq<ParamRef> {
    seq(|indices|, k requires 0 <= k < |indices| => GirParam(indices[k]))
  }

  /** What a stage gives, None standing for a panic. */
  function Got<T>(r: Result<(Outcome, Option<T>)>): Option<(Outcome, Option<T>)> {
    if r.Ok? then Some(r.value) else None
  }

  /** The GIR stage: a panic when building panics or a link is bad; the
    * outcome of the first parameter that does not resolve; otherwise the
    * linked parameters with their Go parameter and return indices. */
  ghost function GirSpec(build: ParamBuilder, ps: seq<Gir.ParameterAttrs>): Option<(Outcome, Option<Draft>)> {
    var b := BuildParams(build, ps, 0);
    if b.Err? then None
    else if b.value.0 != OkResolved then Some((b.value.0, None))
    else
      BuildParamsSpec(build, ps, 0);
      if exists k :: 0 <= k < |ps| && BadLink(ps[k], k, |ps|, b.value.1[k]) then None
      else Some((OkResolved, Some(Draft(None, LinkedAll(ps, b.value.1), GoIndices(ps, |ps|, false),
                                        GoRetRefs(GoIndices(ps, |ps|, true)), None))))
  }

  /** The parameter stage: a callable without parameter list has none; an
    * instance parameter that is not resolvable stops the callable; then the
    * GIR stage, with the instance parameter put in. */
  ghost function ParamsSpec(buildInstance: InstanceBuilder, build: ParamBuilder, v: Gir.CallableAttrs): Option<(Outcome, Option<Draft>)> {
    if v.parameters.None? then Some((OkResolved, Some(Draft(None, [], [], [], None))))
    else
      var ip := v.parameters.value.instanceParameter;
      var inst := if ip.Some? then buildInstance(ip.value) else Ok(None);
      if inst.Err? then None
      else if ip.Some? && inst.value.None? then Some((NotResolvable, None))
      else match GirSpec(build, v.parameters.value.parameters)
        case Some((OkResolved, Some(d))) => Some((OkResolved, Some(d.(instance := inst.value))))
        case g => g
  }

  /** The Go return a C return adds: none for a return of type none. */
  function ReturnRefs(ret: Param): seq<ParamRef> {
    if GIRName(ret.typ.t) != "none" then [CReturnParam] else []
  }

  /** The return stage: BuildReturn's outcome, and on success its C return
    * and, unless its type is none, a Go return for it. */
  ghost function ReturnSpec(e: Env, v: Gir.CallableAttrs, d: Draft): Option<(Outcome, Option<Draft>)> {
    if v.returnValue.None? then Some((OkResolved, Some(d)))
    else match BuildReturn(e, v.returnValue.value, d.instance.Some?)
      case Err(_) => None
      case Ok((o, ret)) =>
        if ret.None? then Some((o, None))
        else Some((OkResolved, Some(d.(goRets := d.goRets + ReturnRefs(ret.value), cret := ret))))
  }

  /** The error stage: a throwing callable gets BuildThrows' parameter as its
    * last GIR parameter and last Go return, and is not resolvable without
    * GLib.Error. */
  ghost function ThrowsSpec(e: Env, v: Gir.CallableAttrs, d: Draft): Option<(Outcome, Option<Draft>)> {
    if !v.throws then Some((OkResolved, Some(d)))
    else match BuildThrows(e)
      case Err(_) => None
      case Ok(None) => Some((NotResolvable, None))
      case Ok(Some(p)) => Some((OkResolved, Some(d.(gps := d.gps + [p], goRets := d.goRets + [GirParam(|d.gps|)]))))
  }

  /** A draft as parameters, before the Go side is ordered. */
  function Unsorted(d: Draft): Parameters {
    Parameters(d.cret, d.gps, d.instance, d.goRets, d.goParams)
  }

  /** The final check: the draft resolves when every C parameter and the C
    * return are valid, is not resolvable when one is not, and panics when
    * the first that is not valid panics. */
  ghost function FinishSpec(d: Draft, mode: Mode): Option<(Outcome, Option<Draft>)>
    reads *
  {
    match ValidCheck(CParameters(Unsorted(d)), d.cret, mode)
    case Err(_) => None
    case Ok(valid) => if valid then Some((OkResolved, Some(d))) else Some((NotResolvable, None))
  }

  /** The stages after the parameters, each run only when the one before
    * resolved. */
  ghost function LaterSpec(e: Env, v: Gir.CallableAttrs, d: Draft, mode: Mode): Option<(Outcome, Option<Draft>)>
    reads *
  {
    match ReturnSpec(e, v, d)
    case Some((OkResolved, Some(d1))) => AfterReturnSpec(e, v, d1, mode)
    case b => b
  }

  /** The error stage, then the final check. */
  ghost function AfterReturnSpec(e: Env, v: Gir.CallableAttrs, d: Draft, mode: Mode): Option<(Outcome, Option<Draft>)>
    reads *
  {
    match ThrowsSpec(e, v, d)
    case Some((OkResolved, Some(d2))) => FinishSpec(d2, mode)
    case t => t
  }

  /** NewGenericParameters as a whole: the outcome of the first stage that
    * does not resolve, or the draft every stage resolved. */
  ghost function SignatureSpec(e: Env, buildInstance: InstanceBuilder, build: ParamBuilder, v: Gir.CallableAttrs, mode: Mode): Option<(Outcome, Option<Draft>)>
    reads *
  {
    match ParamsSpec(buildInstance, build, v)
    case Some((OkResolved, Some(d))) => LaterSpec(e, v, d, mode)
    case a => a
  }

  /** Parameters that hold a draft, the Go side rearranged. */
  predicate Arranges(P: Parameters, d: Draft) {
    && P.instanceParam == d.instance && P.girParameters == d.gps && P.cReturn == d.cret
    && multiset(P.goParameters) == multiset(d.goParams) && multiset(P.goReturns) == multiset(d.goRets)
  }

  /** A result agrees with a specification: a panic exactly when it has
    * one, otherwise its outcome, and on success its draft. */
  ghost predicate Agrees(r: Result<(Outcome, Option<Parameters>)>, s: Option<(Outcome, Option<Draft>)>) {
    && (r.Err? <==> s.None?)
    && (r.Ok? ==> r.value.0 == s.value.0 && (r.value.1.Some? <==> s.value.1.Some?))
    && (r.Ok? && r.value.1.Some? ==> Arranges(r.value.1.value, s.value.1.value))
  }

  /** The GIR parameters, built one by one and then linked; the Go
    * parameters and returns are their indices. */
  method GirStage(build: ParamBuilder, ps: seq<Gir.ParameterAttrs>) returns (r: Result<(Outcome, Option<Draft>)>)
    ensures Got(r) == GirSpec(build, ps)
    ensures var b := BuildParams(build, ps, 0);
            b.Ok? && b.value.0 != OkResolved ==> r == Ok((b.value.0, None))
    ensures var b := BuildParams(build, ps, 0);
            b.Ok? && b.value.0 == OkResolved && (forall k :: 0 <= k < |ps| && k < |b.value.1| ==> !BadLink(ps[k], k, |ps|, b.value.1[k]))
            ==> r.Ok? && r.value.1.Some?
    ensures r.Ok? ==> (r.value.0 == OkResolved <==> r.value.1.Some?)
    ensures r.Ok? && r.value.1.Some? ==>
              var d := r.value.1.value;
              && d.instance.None? && d.cret.None? && IndicesInRange(d)
              && |d.gps| == |ps|
              && d.goParams == GoIndices(ps, |ps|, false)
              && |d.goRets| == |GoIndices(ps, |ps|, true)|
              && (forall k :: 0 <= k < |d.goRets| ==> d.goRets[k] == GirParam(GoIndices(ps, |ps|, true)[k]))
              && LinkedFrom(build, ps, d.gps)
  {
    var built, gp, gr := BuildGirParams(build, ps);
    if built.Err? {
      return Err(built.msg);
    }
    if built.value.0 != OkResolved {
      return Ok((built.value.0, None));
    }
    BuildParamsSpec(build, ps, 0);
    var linked := LinkParams(ps, built.value.1);
    if linked.Err? {
      return Err(linked.msg);
    }
    assert linked.value == LinkedAll(ps, built.value.1);
    var goRets := GoRetRefs(gr);
    return Ok((OkResolved, Some(Draft(None, linked.value, gp, goRets, None))));
  }

  /** Building the instance parameter, as the parameter stage sees it. */
  type InstanceBuilder = Gir.ParameterAttrs -> Result<Option<Param>>

  function InstanceBuilderOf(e: Env): InstanceBuilder {
    ip => BuildInstanceParam(e, ip)
  }

  /** The instance parameter and the GIR parameters. */
  method ParamsStage(buildInstance: InstanceBuilder, build: ParamBuilder, v: Gir.CallableAttrs) returns (r: Result<(Outcome, Option<Draft>)>)
    ensures Got(r) == ParamsSpec(buildInstance, build, v)
    ensures r.Ok? ==> (r.value.0 == OkResolved <==> r.value.1.Some?)
    ensures r.Ok? && r.value.1.Some? ==>
              var d := r.value.1.value;
              && d.cret.None? && IndicesInRange(d)
              && |d.gps| == GirParamCount(v)
              && d.goParams == GoParamIndices(v, false)
              && d.goRets == GoRetRefs(GoParamIndices(v, true))
              && LinkedFrom(build, GirParamsOf(v), d.gps)
              && (d.instance.Some? <==> v.parameters.Some? && v.parameters.value.instanceParameter.Some?)
              && (d.instance.Some? ==> buildInstance(v.parameters.value.instanceParameter.value) == Ok(d.instance))
  {
    if v.parameters.None? {
      return Ok((OkResolved, Some(Draft(None, [], [], [], None))));
    }
    var instance: Option<Param> := None;
    if v.parameters.value.instanceParameter.Some? {
      var ip := buildInstance(v.parameters.value.instanceParameter.value);
      if ip.Err? {
        return Err(ip.msg);
      }
      if ip.value.None? {
        return Ok((NotResolvable, None));
      }
      instance := ip.value;
    }
    var g := GirStage(build, v.parameters.value.parameters);
    if g.Err? {
      return Err(g.msg);
    }
    if g.value.0 != OkResolved {
      return Ok((g.value.0, None));
    }
    assert g.value.1.value.goRets == GoRetRefs(GoParamIndices(v, true));
    return Ok((OkResolved, Some(g.value.1.value.(instance := instance))));
  }

  /** The return value: a Go return unless its type is none. */
  method ReturnStage(e: Env, v: Gir.CallableAttrs, d: Draft) returns (r: Result<(Outcome, Option<Draft>)>)
    requires IndicesInRange(d) && d.cret.None?
    ensures Got(r) == ReturnSpec(e, v, d)
    ensures r.Ok? ==> (r.value.0 == OkResolved <==> r.value.1.Some?)
    ensures r.Ok? && r.value.1.Some? ==>
              var d' := r.value.1.value;
              && IndicesInRange(d') && d'.instance == d.instance && d'.goParams == d.goParams && d'.gps == d.gps
              && |d'.goRets| >= |d.goRets| && d'.goRets[..|d.goRets|] == d.goRets
              && (d'.cret.Some? <==> v.returnValue.Some?)
              && (d'.cret.Some? && d'.cret.value.borrowsFromInstance ==> d.instance.Some?)
              && (d'.cret.Some? ==> d'.cret.value.cName == "cret")
              && (v.returnValue.None? ==> d' == d)
              && (v.returnValue.Some? ==>
                    && BuildReturn(e, v.returnValue.value, d.instance.Some?) == Ok((OkResolved, d'.cret))
                    && d'.goRets == d.goRets + ReturnRefs(d'.cret.value))
  {
    if v.returnValue.None? {
      return Ok((OkResolved, Some(d)));
    }
    var rb := BuildReturn(e, v.returnValue.value, d.instance.Some?);
    if rb.Err? {
      return Err(rb.msg);
    }
    if rb.value.0 != OkResolved {
      return Ok((rb.value.0, None));
    }
    var goRets := d.goRets;
    if GIRName(rb.value.1.value.typ.t) != "none" {
      goRets := goRets + [CReturnParam];
    }
    assert goRets == d.goRets + ReturnRefs(rb.value.1.value);
    return Ok((OkResolved, Some(d.(goRets := goRets, cret := rb.value.1))));
  }

  /** The error parameter of a throwing callable: a last GIR parameter
    * that is the last Go return; a callable that does not throw keeps its
    * draft. */
  method ThrowsStage(e: Env, v: Gir.CallableAttrs, d: Draft) returns (r: Result<(Outcome, Option<Draft>)>)
    ensures Got(r) == ThrowsSpec(e, v, d)
    ensures !v.throws ==> r == Ok((OkResolved, Some(d)))
    ensures r.Ok? ==> (r.value.0 == OkResolved <==> r.value.1.Some?)
    ensures r.Ok? && r.value.1.Some? ==>
              var d' := r.value.1.value;
              && d'.instance == d.instance && d'.goParams == d.goParams && d'.cret == d.cret
              && |d'.gps| == |d.gps| + (if v.throws then 1 else 0)
              && d'.gps[..|d.gps|] == d.gps
              && (v.throws ==> d'.gps[|d'.gps| - 1].cName == "_cerr"
                                 && d'.goRets == d.goRets + [GirParam(|d'.gps| - 1)]
                                 && BuildThrows(e) == Ok(Some(d'.gps[|d'.gps| - 1])))
  {
    if !v.throws {
      return Ok((OkResolved, Some(d)));
    }
    var tb := BuildThrows(e);
    if tb.Err? {
      return Err(tb.msg);
    }
    if tb.value.None? {
      return Ok((NotResolvable, None));
    }
    var gps := d.gps + [tb.value.value];
    var goRets := d.goRets + [GirParam(|d.gps|)];
    return Ok((OkResolved, Some(Draft(d.instance, gps, d.goParams, goRets, d.cret))));
  }

  /** Reordering the Go side leaves the C parameters as they were. */
  lemma CParametersIgnoreGoSide(P: Parameters, goReturns: seq<ParamRef>, goParameters: seq<nat>)
    ensures CParameters(P.(goReturns := goReturns, goParameters := goParameters)) == CParameters(P)
  {
  }

  /** Every C parameter and the C return pass the validity check. */
  predicate CSideValid(P: Parameters, mode: Mode)
    reads set k, o | 0 <= k < |CParameters(P)| && o in ParamReads(CParameters(P)[k]) :: o
    reads if P.cReturn.Some? then ParamReads(P.cReturn.value) else {}
  {
    AllValid(CParameters(P), P.cReturn, mode)
  }

  /** Every parameter of cps and the return, if any, pass the validity
    * check. */
  predicate AllValid(cps: seq<Param>, cret: Option<Param>, mode: Mode)
    reads set k, o | 0 <= k < |cps| && o in ParamReads(cps[k]) :: o
    reads if cret.Some? then ParamReads(cret.value) else {}
  {
    && (forall k :: 0 <= k < |cps| ==> ParamValid(cps[k], mode) == Ok(true))
    && (cret.Some? ==> ParamValid(cret.value, mode) == Ok(true))
  }

  /** The Go parameters and the Go returns are in place order. */
  predicate GoSideOrdered(P: Parameters) {
    && (forall a, b :: 0 <= a < b < |P.goParameters| ==>
          ParamPlace(P.girParameters, P.goParameters[a]) <= ParamPlace(P.girParameters, P.goParameters[b]))
    && (forall a, b :: 0 <= a < b < |P.goReturns| ==>
          ReturnPlace(P.girParameters, P.cReturn, P.goReturns[a]) <= ReturnPlace(P.girParameters, P.cReturn, P.goReturns[b]))
  }

  /** Validates the C side of a draft, then orders the Go side by place. */
  method Finish(d: Draft, mode: Mode) returns (r: Result<(Outcome, Option<Parameters>)>)
    ensures Agrees(r, FinishSpec(d, mode))
    ensures r.Ok? ==> (r.value.0 == OkResolved <==> r.value.1.Some?)
    ensures r.Ok? ==> (r.value.1.Some? <==> AllValid(CParameters(Unsorted(d)), d.cret, mode))
    ensures r.Ok? && r.value.1.Some? ==>
              var P := r.value.1.value;
              && P.girParameters == d.gps && P.cReturn == d.cret && P.instanceParam == d.instance
              && CSideValid(P, mode)
              && multiset(P.goParameters) == multiset(d.goParams)
              && multiset(P.goReturns) == multiset(d.goRets)
              && GoSideOrdered(P)
  {
    var unsorted := Unsorted(d);
    // The sorting allocates and changes nothing the check reads, so it is
    // done first here; the source sorts after a successful check.
    var sortedParams := SortedByPlace(d.goParams, k => ParamPlace(d.gps, k));
    var sortedRets := SortedByPlace(d.goRets, ref => ReturnPlace(d.gps, d.cret, ref));
    var P := unsorted.(goReturns := sortedRets, goParameters := sortedParams);
    CParametersIgnoreGoSide(unsorted, sortedRets, sortedParams);
    var valid := CheckValid(CParameters(P), d.cret, mode);
    if valid.Err? {
      return Err(valid.msg);
    }
    if !valid.value {
      return Ok((NotResolvable, None));
    }
    return Ok((OkResolved, Some(P)));
  }

  /** The parameters of a callable or callback, or the outcome that keeps
    * it from resolving; lookups that panic in the source are errors. The
    * result is the one the stages specify: the first stage that does not
    * resolve decides the outcome. A resolved result's C parameters and C
    * return are all valid, GoParameters are the non-skipped, non-out GIR
    * parameters with context.Context first and error last, GoReturns have
    * error last. */
  method NewGenericParameters(e: Env, buildInstance: InstanceBuilder, build: ParamBuilder, v: Gir.CallableAttrs, mode: Mode) returns (r: Result<(Outcome, Option<Parameters>)>)
    ensures Agrees(r, SignatureSpec(e, buildInstance, build, v, mode))
    ensures r.Ok? ==> (r.value.0 == OkResolved <==> r.value.1.Some?)
    ensures r.Ok? && r.value.1.Some? ==>
              var P := r.value.1.value;
              && CSideValid(P, mode)
              && (P.cReturn.Some? && P.cReturn.value.borrowsFromInstance ==> P.instanceParam.Some?)
              && |P.girParameters| == GirParamCount(v) + (if v.throws then 1 else 0)
              && (v.throws ==> P.girParameters[|P.girParameters| - 1].cName == "_cerr"
                                 && GirParam(|P.girParameters| - 1) in multiset(P.goReturns))
              && multiset(P.goParameters) == multiset(GoParamIndices(v, false))
              && GoSideOrdered(P)
              && LinkedFrom(build, GirParamsOf(v), P.girParameters)
  {
    var a := ParamsStage(buildInstance, build, v);
    if a.Err? {
      return Err(a.msg);
    }
    if a.value.0 != OkResolved {
      return Ok((a.value.0, None));
    }
    var d := a.value.1.value;
    r := LaterStages(e, v, d, mode);
    if r.Ok? && r.value.1.Some? {
      LinkedFromPrefix(build, GirParamsOf(v), d.gps, r.value.1.value.girParameters);
    }
  }

  /** The stages after the GIR parameters: the return value, the error
    * parameter, then the validity check and the ordering of the Go side. */
  method LaterStages(e: Env, v: Gir.CallableAttrs, d: Draft, mode: Mode) returns (r: Result<(Outcome, Option<Parameters>)>)
    requires IndicesInRange(d) && d.cret.None?
    ensures Agrees(r, LaterSpec(e, v, d, mode))
    ensures r.Ok? ==> (r.value.0 == OkResolved <==> r.value.1.Some?)
    ensures r.Ok? && r.value.1.Some? ==>
              var P := r.value.1.value;
              && CSideValid(P, mode)
              && P.instanceParam == d.instance
              && (P.cReturn.Some? <==> v.returnValue.Some?)
              && (P.cReturn.Some? && P.cReturn.value.borrowsFromInstance ==> P.instanceParam.Some?)
              && |P.girParameters| == |d.gps| + (if v.throws then 1 else 0)
              && P.girParameters[..|d.gps|] == d.gps
              && (v.throws ==> P.girParameters[|P.girParameters| - 1].cName == "_cerr"
                                 && GirParam(|P.girParameters| - 1) in multiset(P.goReturns))
              && multiset(P.goParameters) == multiset(d.goParams)
              && GoSideOrdered(P)
  {
    var b := ReturnStage(e, v, d);
    if b.Err? {
      return Err(b.msg);
    }
    if b.value.0 != OkResolved {
      return Ok((b.value.0, None));
    }
    var d1 := b.value.1.value;
    r := AfterReturn(e, v, d1, mode);
    assert LaterSpec(e, v, d, mode) == AfterReturnSpec(e, v, d1, mode);
    if r.Ok? && r.value.1.Some? {
      LaterDraft(e, v, d, mode);
    }
  }

  /** The draft of the stages after the parameters: the return stage's C
    * return, then the error stage's parameter. */
  lemma LaterDraft(e: Env, v: Gir.CallableAttrs, d: Draft, mode: Mode)
    requires d.cret.None?
    ensures var L := LaterSpec(e, v, d, mode);
            L.Some? && L.value.1.Some? ==>
              var D := L.value.1.value;
              && L.value.0 == OkResolved
              && D.instance == d.instance && D.goParams == d.goParams
              && (D.cret.Some? <==> v.returnValue.Some?)
              && (D.cret.Some? && D.cret.value.borrowsFromInstance ==> D.instance.Some?)
              && |D.gps| == |d.gps| + (if v.throws then 1 else 0)
              && D.gps[..|d.gps|] == d.gps
              && (v.throws ==> D.gps[|D.gps| - 1].cName == "_cerr" && GirParam(|D.gps| - 1) in multiset(D.goRets))
  {
    var L := LaterSpec(e, v, d, mode);
    if L.Some? && L.value.1.Some? {
      var d1 := ReturnLayer(e, v, d, mode);
      AfterReturnDraft(e, v, d1, mode);
      var D := L.value.1.value;
      if v.throws {
        assert D.goRets == d1.goRets + [GirParam(|d1.gps|)];
      }
    }
  }

  /** The error parameter, then the validity check and the ordering of the
    * Go side. */
  method AfterReturn(e: Env, v: Gir.CallableAttrs, d: Draft, mode: Mode) returns (r: Result<(Outcome, Option<Parameters>)>)
    ensures Agrees(r, AfterReturnSpec(e, v, d, mode))
    ensures r.Ok? ==> (r.value.0 == OkResolved <==> r.value.1.Some?)
    ensures r.Ok? && r.value.1.Some? ==> CSideValid(r.value.1.value, mode) && GoSideOrdered(r.value.1.value)
  {
    var t := ThrowsStage(e, v, d);
    if t.Err? {
      assert AfterReturnSpec(e, v, d, mode).None?;
      return Err(t.msg);
    }
    if t.value.0 != OkResolved {
      assert AfterReturnSpec(e, v, d, mode) == Some((t.value.0, None));
      return Ok((t.value.0, None));
    }
    var d2 := t.value.1.value;
    r := Finish(d2, mode);
    assert AfterReturnSpec(e, v, d, mode) == FinishSpec(d2, mode);
  }

  /** The draft of the error stage and the final check: the error stage's,
    * with a valid C side. */
  lemma AfterReturnDraft(e: Env, v: Gir.CallableAttrs, d: Draft, mode: Mode)
    ensures var A := AfterReturnSpec(e, v, d, mode);
            A.Some? && A.value.1.Some? ==>
              && A.value.0 == OkResolved
              && ThrowsShape(e, v, d, A.value.1.value)
              && (v.throws ==> A.value.1.value.gps[|d.gps|].cName == "_cerr")
  {
    var A := AfterReturnSpec(e, v, d, mode);
    if A.Some? && A.value.1.Some? {
      var d2 := ThrowsLayer(e, v, d, mode);
      FinishDraft(d2, mode);
    }
  }

  /** The parameter loop stops at the first parameter that does not
    * resolve, and its outcome is the loop's. */
  lemma {:induction false} FirstFailingParam(build: ParamBuilder, ps: seq<Gir.ParameterAttrs>, from: nat, j: nat)
    requires from <= j < |ps|
    requires forall k :: from <= k < j ==> build(k, ps[k]).Ok? && build(k, ps[k]).value.0 == OkResolved
    requires build(j, ps[j]).Ok? && build(j, ps[j]).value.0 != OkResolved
    ensures BuildParams(build, ps, from) == Ok((build(j, ps[j]).value.0, []))
    decreases j - from
  {
    if from < j {
      FirstFailingParam(build, ps, from + 1, j);
    }
  }

  /** The instance parameter, if any, is resolvable. */
  predicate InstanceResolves(buildInstance: InstanceBuilder, v: Gir.CallableAttrs) {
    && v.parameters.Some?
    && (v.parameters.value.instanceParameter.Some? ==>
          var ib := buildInstance(v.parameters.value.instanceParameter.value);
          ib.Ok? && ib.value.Some?)
  }

  /** Once the instance parameter resolves, the first GIR parameter that
    * does not resolve decides the callable's outcome: later stages do not
    * run. */
  lemma FirstFailureDecides(e: Env, buildInstance: InstanceBuilder, build: ParamBuilder, v: Gir.CallableAttrs, mode: Mode, j: nat)
    requires InstanceResolves(buildInstance, v)
    requires j < |GirParamsOf(v)|
    requires forall k :: 0 <= k < j ==> build(k, GirParamsOf(v)[k]).Ok? && build(k, GirParamsOf(v)[k]).value.0 == OkResolved
    requires build(j, GirParamsOf(v)[j]).Ok? && build(j, GirParamsOf(v)[j]).value.0 != OkResolved
    ensures SignatureSpec(e, buildInstance, build, v, mode) == Some((build(j, GirParamsOf(v)[j]).value.0, None))
  {
    FirstFailingParam(build, GirParamsOf(v), 0, j);
  }

  /** An inout parameter whose predecessors resolve makes the callable not
    * resolvable. */
  lemma InoutNotResolvable(e: Env, buildInstance: InstanceBuilder, v: Gir.CallableAttrs, mode: Mode, j: nat)
    requires InstanceResolves(buildInstance, v)
    requires j < |GirParamsOf(v)| && GirParamsOf(v)[j].direction == "inout"
    requires forall k :: 0 <= k < j ==> BuildParam(e, k, GirParamsOf(v)[k]).Ok? && BuildParam(e, k, GirParamsOf(v)[k]).value.0 == OkResolved
    ensures SignatureSpec(e, buildInstance, Builder(e), v, mode) == Some((NotResolvable, None))
  {
    FirstFailureDecides(e, buildInstance, Builder(e), v, mode, j);
  }

  /** A parameter whose type is not found, after predecessors that
    * resolve, makes the callable maybe resolvable: it is retried later. */
  lemma UnknownTypeMaybeResolvable(e: Env, buildInstance: InstanceBuilder, v: Gir.CallableAttrs, mode: Mode, j: nat)
    requires InstanceResolves(buildInstance, v)
    requires j < |GirParamsOf(v)|
    requires forall k :: 0 <= k < j ==> BuildParam(e, k, GirParamsOf(v)[k]).Ok? && BuildParam(e, k, GirParamsOf(v)[k]).value.0 == OkResolved
    requires var p := GirParamsOf(v)[j];
             && p.direction == "in" && CTypeFromAnytype(p.anyType).Ok?
             && FindAnyType(e, p.anyType).Ok? && FindAnyType(e, p.anyType).value.t.None?
    ensures SignatureSpec(e, buildInstance, Builder(e), v, mode) == Some((MaybeResolvable, None))
  {
    FirstFailureDecides(e, buildInstance, Builder(e), v, mode, j);
  }

  /** A callable resolves when every stage does and its C side is valid;
    * the draft is then the one the stages built. */
  lemma StagesResolve(e: Env, buildInstance: InstanceBuilder, build: ParamBuilder, v: Gir.CallableAttrs, mode: Mode,
                      d: Draft, d1: Draft, d2: Draft)
    requires ParamsSpec(buildInstance, build, v) == Some((OkResolved, Some(d)))
    requires ReturnSpec(e, v, d) == Some((OkResolved, Some(d1)))
    requires ThrowsSpec(e, v, d1) == Some((OkResolved, Some(d2)))
    requires AllValid(CParameters(Unsorted(d2)), d2.cret, mode)
    ensures SignatureSpec(e, buildInstance, build, v, mode) == Some((OkResolved, Some(d2)))
  {
    assert FinishSpec(d2, mode) == Some((OkResolved, Some(d2)));
    assert AfterReturnSpec(e, v, d1, mode) == FinishSpec(d2, mode);
    assert LaterSpec(e, v, d, mode) == AfterReturnSpec(e, v, d1, mode);
  }

  /** The draft of a resolved callable: the instance parameter as built;
    * the GIR parameters built and linked, then the error parameter of a
    * throwing callable; BuildReturn's C return; Go parameters and returns
    * by index, the C return (unless of type none) and then the error last
    * among the returns; and a valid C side. */
  lemma SignatureDraft(e: Env, buildInstance: InstanceBuilder, build: ParamBuilder, v: Gir.CallableAttrs, mode: Mode)
    ensures var S := SignatureSpec(e, buildInstance, build, v, mode);
            S.Some? && S.value.1.Some? ==>
              var D := S.value.1.value;
              && S.value.0 == OkResolved
              && (D.instance.Some? <==> v.parameters.Some? && v.parameters.value.instanceParameter.Some?)
              && (D.instance.Some? ==> buildInstance(v.parameters.value.instanceParameter.value) == Ok(D.instance))
              && |D.gps| == GirParamCount(v) + (if v.throws then 1 else 0)
              && LinkedFrom(build, GirParamsOf(v), D.gps)
              && (v.throws ==> BuildThrows(e) == Ok(Some(D.gps[|D.gps| - 1])))
              && (D.cret.Some? <==> v.returnValue.Some?)
              && (D.cret.Some? ==> BuildReturn(e, v.returnValue.value, D.instance.Some?) == Ok((OkResolved, D.cret)))
              && D.goParams == GoParamIndices(v, false)
              && D.goRets == GoRetRefs(GoParamIndices(v, true))
                             + (if D.cret.Some? then ReturnRefs(D.cret.value) else [])
                             + (if v.throws then [GirParam(GirParamCount(v))] else [])
              && AllValid(CParameters(Unsorted(D)), D.cret, mode)
  {
    var S := SignatureSpec(e, buildInstance, build, v, mode);
    if S.Some? && S.value.1.Some? {
      var d, d1, d2 := SignatureStages(e, buildInstance, build, v, mode);
      StagesGirSide(e, buildInstance, build, v, d, d1, d2);
      StagesReturns(e, buildInstance, build, v, d, d1, d2);
    }
  }

  /** The drafts the stages of a resolved callable build, one after the
    * other; the last one passes the final check. */
  lemma SignatureStages(e: Env, buildInstance: InstanceBuilder, build: ParamBuilder, v: Gir.CallableAttrs, mode: Mode)
    returns (d: Draft, d1: Draft, d2: Draft)
    requires var S := SignatureSpec(e, buildInstance, build, v, mode); S.Some? && S.value.1.Some?
    ensures ParamsSpec(buildInstance, build, v) == Some((OkResolved, Some(d)))
    ensures ReturnSpec(e, v, d) == Some((OkResolved, Some(d1)))
    ensures ThrowsSpec(e, v, d1) == Some((OkResolved, Some(d2)))
    ensures SignatureSpec(e, buildInstance, build, v, mode) == Some((OkResolved, Some(d2)))
    ensures AllValid(CParameters(Unsorted(d2)), d2.cret, mode)
    ensures ParamsShape(buildInstance, build, v, d) && ReturnShape(e, v, d, d1) && ThrowsShape(e, v, d1, d2)
  {
    d := ParamsLayer(e, buildInstance, build, v, mode);
    d1 := ReturnLayer(e, v, d, mode);
    d2 := ThrowsLayer(e, v, d1, mode);
    FinishDraft(d2, mode);
  }

  /** A resolved callable resolved its parameter stage first. */
  lemma ParamsLayer(e: Env, buildInstance: InstanceBuilder, build: ParamBuilder, v: Gir.CallableAttrs, mode: Mode)
    returns (d: Draft)
    requires var S := SignatureSpec(e, buildInstance, build, v, mode); S.Some? && S.value.1.Some?
    ensures ParamsSpec(buildInstance, build, v) == Some((OkResolved, Some(d)))
    ensures SignatureSpec(e, buildInstance, build, v, mode) == LaterSpec(e, v, d, mode)
    ensures ParamsShape(buildInstance, build, v, d)
  {
    ParamsDraft(buildInstance, build, v);
    var P := ParamsSpec(buildInstance, build, v);
    assert P.Some? && P.value.0 == OkResolved && P.value.1.Some?;
    d := P.value.1.value;
  }

  /** Resolved later stages resolved the return stage first. */
  lemma ReturnLayer(e: Env, v: Gir.CallableAttrs, d: Draft, mode: Mode) returns (d1: Draft)
    requires var L := LaterSpec(e, v, d, mode); L.Some? && L.value.1.Some?
    ensures ReturnSpec(e, v, d) == Some((OkResolved, Some(d1)))
    ensures LaterSpec(e, v, d, mode) == AfterReturnSpec(e, v, d1, mode)
    ensures ReturnShape(e, v, d, d1)
  {
    ReturnDraft(e, v, d);
    var R := ReturnSpec(e, v, d);
    assert R.Some? && R.value.0 == OkResolved && R.value.1.Some?;
    d1 := R.value.1.value;
  }

  /** A resolved error stage and final check resolved the error stage
    * first. */
  lemma ThrowsLayer(e: Env, v: Gir.CallableAttrs, d: Draft, mode: Mode) returns (d2: Draft)
    requires var A := AfterReturnSpec(e, v, d, mode); A.Some? && A.value.1.Some?
    ensures ThrowsSpec(e, v, d) == Some((OkResolved, Some(d2)))
    ensures AfterReturnSpec(e, v, d, mode) == FinishSpec(d2, mode)
    ensures ThrowsShape(e, v, d, d2)
  {
    ThrowsDraft(e, v, d);
    var T := ThrowsSpec(e, v, d);
    assert T.Some? && T.value.0 == OkResolved && T.value.1.Some?;
    d2 := T.value.1.value;
  }

  /** The GIR side of the draft three resolved stages build: the instance
    * parameter as built, the GIR parameters linked, then the error
    * parameter of a throwing callable. */
  lemma StagesGirSide(e: Env, buildInstance: InstanceBuilder, build: ParamBuilder, v: Gir.CallableAttrs, d: Draft, d1: Draft, d2: Draft)
    requires ParamsShape(buildInstance, build, v, d) && ReturnShape(e, v, d, d1) && ThrowsShape(e, v, d1, d2)
    ensures d2.instance.Some? <==> v.parameters.Some? && v.parameters.value.instanceParameter.Some?
    ensures d2.instance.Some? ==> buildInstance(v.parameters.value.instanceParameter.value) == Ok(d2.instance)
    ensures |d2.gps| == GirParamCount(v) + (if v.throws then 1 else 0)
    ensures LinkedFrom(build, GirParamsOf(v), d2.gps)
    ensures v.throws ==> BuildThrows(e) == Ok(Some(d2.gps[|d2.gps| - 1]))
  {
    if v.throws {
      LinkedFromPrefix(build, GirParamsOf(v), d.gps, d2.gps);
    }
  }

  /** The returns of the draft three resolved stages build: BuildReturn's
    * C return, and the Go returns in GIR order, then the return value,
    * then the error. */
  lemma StagesReturns(e: Env, buildInstance: InstanceBuilder, build: ParamBuilder, v: Gir.CallableAttrs, d: Draft, d1: Draft, d2: Draft)
    requires ParamsShape(buildInstance, build, v, d) && ReturnShape(e, v, d, d1) && ThrowsShape(e, v, d1, d2)
    ensures d2.cret.Some? <==> v.returnValue.Some?
    ensures d2.cret.Some? ==> BuildReturn(e, v.returnValue.value, d2.instance.Some?) == Ok((OkResolved, d2.cret))
    ensures d2.goParams == GoParamIndices(v, false)
    ensures d2.goRets == GoRetRefs(GoParamIndices(v, true))
                         + (if d2.cret.Some? then ReturnRefs(d2.cret.value) else [])
                         + (if v.throws then [GirParam(GirParamCount(v))] else [])
  {
    var rets := if d2.cret.Some? then ReturnRefs(d2.cret.value) else [];
    var errs := if v.throws then [GirParam(GirParamCount(v))] else [];
    assert d1.goRets == d.goRets + rets by {
      if v.returnValue.None? {
        assert d.goRets + [] == d.goRets;
      }
    }
    assert d2.goRets == d1.goRets + errs by {
      if !v.throws {
        assert d1.goRets + [] == d1.goRets;
      }
    }
  }

  /** The draft of the parameter stage: the instance parameter as built,
    * the GIR parameters linked, and the Go side in GIR order. */
  ghost predicate ParamsShape(buildInstance: InstanceBuilder, build: ParamBuilder, v: Gir.CallableAttrs, d: Draft) {
    && d.cret.None?
    && (d.instance.Some? <==> v.parameters.Some? && v.parameters.value.instanceParameter.Some?)
    && (d.instance.Some? ==> buildInstance(v.parameters.value.instanceParameter.value) == Ok(d.instance))
    && |d.gps| == GirParamCount(v)
    && LinkedFrom(build, GirParamsOf(v), d.gps)
    && d.goParams == GoParamIndices(v, false)
    && d.goRets == GoRetRefs(GoParamIndices(v, true))
  }

  /** The return stage turns d into d1: BuildReturn's C return and its Go
    * return after the earlier ones; nothing else changes. */
  ghost predicate ReturnShape(e: Env, v: Gir.CallableAttrs, d: Draft, d1: Draft) {
    && d1.instance == d.instance && d1.gps == d.gps && d1.goParams == d.goParams
    && (v.returnValue.None? ==> d1 == d)
    && (v.returnValue.Some? ==>
          && d1.cret.Some?
          && BuildReturn(e, v.returnValue.value, d.instance.Some?) == Ok((OkResolved, d1.cret))
          && d1.goRets == d.goRets + ReturnRefs(d1.cret.value))
  }

  /** The error stage turns d1 into d2: BuildThrows' parameter last among
    * the GIR parameters and the Go returns of a throwing callable; nothing
    * else changes. */
  ghost predicate ThrowsShape(e: Env, v: Gir.CallableAttrs, d1: Draft, d2: Draft) {
    && d2.instance == d1.instance && d2.cret == d1.cret && d2.goParams == d1.goParams
    && (!v.throws ==> d2 == d1)
    && (v.throws ==>
          && |d2.gps| == |d1.gps| + 1 && d2.gps[..|d1.gps|] == d1.gps
          && BuildThrows(e) == Ok(Some(d2.gps[|d1.gps|]))
          && d2.goRets == d1.goRets + [GirParam(|d1.gps|)])
  }

  /** The draft of the return stage: BuildReturn's C return and its Go
    * return after the earlier ones; nothing else changes. */
  lemma ReturnDraft(e: Env, v: Gir.CallableAttrs, d: Draft)
    ensures var R := ReturnSpec(e, v, d);
            R.Some? && R.value.1.Some? ==>
              R.value.0 == OkResolved && ReturnShape(e, v, d, R.value.1.value)
  {
  }

  /** The draft of the error stage: BuildThrows' parameter last among the
    * GIR parameters and the Go returns of a throwing callable; nothing
    * else changes. */
  lemma ThrowsDraft(e: Env, v: Gir.CallableAttrs, d: Draft)
    ensures var T := ThrowsSpec(e, v, d);
            T.Some? && T.value.1.Some? ==>
              T.value.0 == OkResolved && ThrowsShape(e, v, d, T.value.1.value)
  {
    var T := ThrowsSpec(e, v, d);
    if T.Some? && T.value.1.Some? && v.throws {
      var p := BuildThrows(e).value.value;
      assert T.value.1.value.gps == d.gps + [p];
    }
  }

  /** The final check keeps the draft, which then has a valid C side. */
  lemma FinishDraft(d: Draft, mode: Mode)
    ensures var F := FinishSpec(d, mode);
            F.Some? && F.value.1.Some? ==>
              F.value == (OkResolved, Some(d)) && AllValid(CParameters(Unsorted(d)), d.cret, mode)
  {
  }

  /** The draft of the parameter stage. */
  lemma ParamsDraft(buildInstance: InstanceBuilder, build: ParamBuilder, v: Gir.CallableAttrs)
    ensures var P := ParamsSpec(buildInstance, build, v);
            P.Some? && P.value.1.Some? ==>
              P.value.0 == OkResolved && ParamsShape(buildInstance, build, v, P.value.1.value)
  {
    var P := ParamsSpec(buildInstance, build, v);
    if P.Some? && P.value.1.Some? && v.parameters.Some? {
      GirDraft(build, v.parameters.value.parameters);
    }
  }

  /** The draft of the GIR stage: the parameters linked, no instance
    * parameter or C return yet, and the Go side in GIR order. */
  lemma GirDraft(build: ParamBuilder, ps: seq<Gir.ParameterAttrs>)
    ensures var G := GirSpec(build, ps);
            G.Some? && G.value.1.Some? ==>
              var d := G.value.1.value;
              && G.value.0 == OkResolved && d.instance.None? && d.cret.None?
              && |d.gps| == |ps| && LinkedFrom(build, ps, d.gps)
              && d.goParams == GoIndices(ps, |ps|, false)
              && d.goRets == GoRetRefs(GoIndices(ps, |ps|, true))
  {
    var G := GirSpec(build, ps);
    if G.Some? && G.value.1.Some? {
      BuildParamsSpec(build, ps, 0);
      var b := BuildParams(build, ps, 0);
      forall j | 0 <= j < |ps| ensures G.value.1.value.gps[j] == Linked(ps, b.value.1, j) {
      }
    }
  }

  // ---------------------------------------------------------------------------
  // ParamList: the lists a generated signature is printed from

  /** A parameter the Go side sees: neither skipped nor implicit. */
  predicate GoVisible(p: Param) {
    !p.skip && !p.implicit
  }

  /** The parameters GoDeclarations, GoIdentifiers and GoTypes print, in
    * list order. */
  function GoVisibleParams(pl: seq<Param>): seq<Param>
    decreases |pl|
  {
    if pl == [] then []
    else GoVisibleParams(pl[..|pl| - 1]) + (if GoVisible(pl[|pl| - 1]) then [pl[|pl| - 1]] else [])
  }

  /** ParamList.GoIdentifiers before the join: the Go name of every
    * parameter the Go side sees, in order. */
  method GoIdentifiers(pl: seq<Param>) returns (names: seq<string>)
    ensures |names| == |GoVisibleParams(pl)|
    ensures forall k :: 0 <= k < |names| ==> names[k] == GoVisibleParams(pl)[k].goName
  {
    names := [];
    var i := 0;
    while i < |pl|
      invariant 0 <= i <= |pl|
      invariant |names| == |GoVisibleParams(pl[..i])|
      invariant forall k :: 0 <= k < |names| ==> names[k] == GoVisibleParams(pl[..i])[k].goName
    {
      assert pl[..i + 1][..i] == pl[..i];
      if GoVisible(pl[i]) {
        names := names + [pl[i].goName];
      }
      i := i + 1;
    }
    assert pl[..|pl|] == pl;
  }

  /** ParamList.CIdentifiers before the join: the C name of every
    * parameter, skipped and implicit ones included. */
  method CIdentifiers(pl: seq<Param>) returns (names: seq<string>)
    ensures |names| == |pl|
    ensures forall k :: 0 <= k < |pl| ==> names[k] == pl[k].cName
  {
    names := [];
    var i := 0;
    while i < |pl|
      invariant 0 <= i <= |pl|
      invariant |names| == i
      invariant forall k :: 0 <= k < i ==> names[k] == pl[k].cName
    {
      names := names + [pl[i].cName];
      i := i + 1;
    }
  }

  /** The Go side sees exactly the listed parameters that are neither
    * skipped nor implicit, each at most once per occurrence, in order. */
  lemma {:induction false} GoVisibleParamsExactly(pl: seq<Param>)
    ensures |GoVisibleParams(pl)| <= |pl|
    ensures forall p :: p in GoVisibleParams(pl) <==> p in pl && GoVisible(p)
    decreases |pl|
  {
    if pl != [] {
      var init := pl[..|pl| - 1];
      GoVisibleParamsExactly(init);
      assert pl == init + [pl[|pl| - 1]];
    }
  }

  /** Splitting the list splits what the Go side sees. */
  lemma {:induction false} GoVisibleParamsAppend(pl: seq<Param>, ql: seq<Param>)
    ensures GoVisibleParams(pl + ql) == GoVisibleParams(pl) + GoVisibleParams(ql)
    decreases |ql|
  {
    if ql == [] {
      assert pl + ql == pl;
    } else {
      var init := ql[..|ql| - 1];
      assert (pl + ql)[..|pl + ql| - 1] == pl + init;
      assert (pl + ql)[|pl + ql| - 1] == ql[|ql| - 1];
      GoVisibleParamsAppend(pl, init);
    }
  }
}
