/** The registry of Go callbacks behind GClosures (closure/registry.go),
  * keyed by the closure's C address. The call-stack profile it updates is
  * not part of this model. */
module ClosureRegistry {
  import opened Wrappers

  const AlreadyRegistered := "closure already registered"
  const NotRegistered := "closure not registered"

  type Closures<F> = map<nat, F>

  /** Register: a panic for an address registered already. */
  function Registered<F>(m: Closures<F>, gclosure: nat, callback: F): (r: Result<Closures<F>>)
    ensures r.Err? <==> gclosure in m
    ensures r.Ok? ==> gclosure in r.value && r.value[gclosure] == callback && r.value - {gclosure} == m
  {
    if gclosure in m then Err(AlreadyRegistered) else Ok(m[gclosure := callback])
  }

  /** Load: nil for an unknown address. */
  function Loaded<F>(m: Closures<F>, gclosure: nat): (r: Option<F>)
    ensures r.Some? <==> gclosure in m
    ensures r.Some? ==> r.value == m[gclosure]
  {
    if gclosure in m then Some(m[gclosure]) else None
  }

  /** Delete: a panic for an unknown address. */
  function Deleted<F>(m: Closures<F>, gclosure: nat): (r: Result<Closures<F>>)
    ensures r.Err? <==> gclosure !in m
    ensures r.Ok? ==> gclosure !in r.value && r.value == m - {gclosure}
  {
    if gclosure !in m then Err(NotRegistered) else Ok(m - {gclosure})
  }

  /** After Register then Delete, Load finds nothing, the registry is as
    * before, and a second Delete panics. */
  lemma RegisterThenDelete<F>(m: Closures<F>, gclosure: nat, callback: F)
    requires gclosure !in m
    ensures var r := Registered(m, gclosure, callback);
            r.Ok? && Loaded(r.value, gclosure) == Some(callback)
            && Deleted(r.value, gclosure).Ok?
            && Loaded(Deleted(r.value, gclosure).value, gclosure) == None
            && Deleted(r.value, gclosure).value == m
            && Deleted(Deleted(r.value, gclosure).value, gclosure).Err?
  {
    var m' := Registered(m, gclosure, callback).value;
    assert m' - {gclosure} == m;
  }

  /** Registering an address twice panics the second time. */
  lemma RegisterTwicePanics<F>(m: Closures<F>, gclosure: nat, callback: F, callback': F)
    requires gclosure !in m
    ensures Registered(Registered(m, gclosure, callback).value, gclosure, callback').Err?
  {
  }

  /** Registering or deleting one address leaves what others load
    * unchanged. */
  lemma OthersUnchanged<F>(m: Closures<F>, gclosure: nat, callback: F, other: nat)
    requires other != gclosure
    ensures Registered(m, gclosure, callback).Ok? ==> Loaded(Registered(m, gclosure, callback).value, other) == Loaded(m, other)
    ensures Deleted(m, gclosure).Ok? ==> Loaded(Deleted(m, gclosure).value, other) == Loaded(m, other)
  {
  }

  // ---------------------------------------------------------------------------
  // The registry as an object

  /** closureRegistry (a sync.Map). */
  class Registry<F> {
    var closures: Closures<F>

    constructor ()
      ensures closures == map[]
    {
      closures := map[];
    }

    method Register(gclosure: nat, callback: F) returns (r: Result<()>)
      modifies this
      ensures r.Err? <==> Registered(old(closures), gclosure, callback).Err?
      ensures r.Ok? ==> closures == Registered(old(closures), gclosure, callback).value
      ensures r.Err? ==> closures == old(closures)
    {
      if gclosure in closures {
        return Err(AlreadyRegistered);
      }
      closures := closures[gclosure := callback];
      r := Ok(());
    }

    method Load(gclosure: nat) returns (r: Option<F>)
      ensures r == Loaded(closures, gclosure)
    {
      if gclosure !in closures {
        return None;
      }
      r := Some(closures[gclosure]);
    }

    method Delete(gclosure: nat) returns (r: Result<()>)
      modifies this
      ensures r.Err? <==> Deleted(old(closures), gclosure).Err?
      ensures r.Ok? ==> closures == Deleted(old(closures), gclosure).value
      ensures r.Err? ==> closures == old(closures)
    {
      if gclosure !in closures {
        return Err(NotRegistered);
      }
      closures := closures - {gclosure};
      r := Ok(());
    }
  }
}
