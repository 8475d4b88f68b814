/** Data attached to an object instance under a key
  * (instancedata/instancedata.go). The handle register gives back points
  * at a copy of the (instance, key) pair; here the handle is that pair. */
module InstanceData {
  import opened Wrappers

  const AlreadyRegistered := "given pointer is already registered"
  const NotRegistered := "given pointer is not registered as instance data"

  /** instanceDataKey: two C addresses. */
  datatype InstanceKey = InstanceKey(instance: nat, key: nat)

  /** instanceDataEntry; a once-entry is deleted by the first Load. */
  datatype Entry<D> = Entry(data: D, once: bool)

  type Entries<D> = map<InstanceKey, Entry<D>>

  /** register: a panic when the pair is registered already; otherwise the
    * entry is stored and the pair is the handle. */
  function Registered<D>(m: Entries<D>, instance: nat, key: nat, data: D, once: bool): (r: Result<(InstanceKey, Entries<D>)>)
    ensures r.Err? <==> InstanceKey(instance, key) in m
    ensures r.Ok? ==> var (k, m') := r.value;
              k == InstanceKey(instance, key) && k in m' && m'[k] == Entry(data, once) && m' - {k} == m
  {
    var k := InstanceKey(instance, key);
    if k in m then Err(AlreadyRegistered) else Ok((k, m[k := Entry(data, once)]))
  }

  /** Load: a panic for an unknown handle; a once-entry is deleted. */
  function Loaded<D>(m: Entries<D>, k: InstanceKey): (r: Result<(D, Entries<D>)>)
    ensures r.Err? <==> k !in m
    ensures r.Ok? ==> r.value.0 == m[k].data
    ensures r.Ok? ==> r.value.1 == if m[k].once then m - {k} else m
  {
    if k !in m then Err(NotRegistered)
    else
      var e := m[k];
      Ok((e.data, if e.once then m - {k} else m))
  }

  /** Delete: removes the entry if there is one, never panics. */
  function Deleted<D>(m: Entries<D>, k: InstanceKey): (r: Entries<D>)
    ensures k !in r && forall k' :: k' != k ==> (k' in r <==> k' in m)
    ensures forall k' :: k' in r ==> r[k'] == m[k']
  {
    m - {k}
  }

  /** Deleting twice is deleting once; deleting an unknown handle changes
    * nothing. */
  lemma DeleteIdempotent<D>(m: Entries<D>, k: InstanceKey)
    ensures Deleted(Deleted(m, k), k) == Deleted(m, k)
    ensures k !in m ==> Deleted(m, k) == m
  {
  }

  /** A handle from RegisterOnce loads its data once; the next Load
    * panics. */
  lemma OnceLoadsOnce<D>(m: Entries<D>, instance: nat, key: nat, data: D)
    requires InstanceKey(instance, key) !in m
    ensures var r := Registered(m, instance, key, data, true);
            r.Ok? && Loaded(r.value.1, r.value.0) == Ok((data, m))
            && Loaded(m, r.value.0).Err?
  {
  }

  /** A handle from Register loads its data as often as asked. */
  lemma PlainLoadKeeps<D>(m: Entries<D>, instance: nat, key: nat, data: D)
    requires InstanceKey(instance, key) !in m
    ensures var r := Registered(m, instance, key, data, false);
            r.Ok? && Loaded(r.value.1, r.value.0) == Ok((data, r.value.1))
  {
  }

  /** Register then Delete restores the registry, and the pair may be
    * registered again. */
  lemma RegisterThenDelete<D>(m: Entries<D>, instance: nat, key: nat, data: D, once: bool)
    requires InstanceKey(instance, key) !in m
    ensures var r := Registered(m, instance, key, data, once);
            r.Ok? && Deleted(r.value.1, r.value.0) == m
            && Registered(Deleted(r.value.1, r.value.0), instance, key, data, once).Ok?
  {
    var r := Registered(m, instance, key, data, once);
    assert r.value.1 - {r.value.0} == m;
  }

  /** Entries for different pairs do not interfere: registering one pair
    * leaves what every other handle loads unchanged. */
  lemma RegisterKeepsOthers<D>(m: Entries<D>, instance: nat, key: nat, data: D, once: bool, k: InstanceKey)
    requires InstanceKey(instance, key) !in m && k != InstanceKey(instance, key)
    ensures var m' := Registered(m, instance, key, data, once).value.1;
            Loaded(m', k).Err? == Loaded(m, k).Err?
            && (Loaded(m, k).Ok? ==> Loaded(m', k).value.0 == Loaded(m, k).value.0)
  {
  }

  // ---------------------------------------------------------------------------
  // The registry as an object

  /** instanceDataRegistry. */
  class InstanceRegistry<D> {
    var entries: Entries<D>

    constructor ()
      ensures entries == map[]
    {
      entries := map[];
    }

    method Register(instance: nat, key: nat, data: D, once: bool) returns (r: Result<InstanceKey>)
      modifies this
      ensures r.Err? <==> Registered(old(entries), instance, key, data, once).Err?
      ensures r.Ok? ==> (r.value, entries) == Registered(old(entries), instance, key, data, once).value
      ensures r.Err? ==> entries == old(entries)
    {
      var k := InstanceKey(instance, key);
      if k in entries {
        return Err(AlreadyRegistered);
      }
      entries := entries[k := Entry(data, once)];
      r := Ok(k);
    }

    method Load(k: InstanceKey) returns (r: Result<D>)
      modifies this
      ensures r.Err? <==> Loaded(old(entries), k).Err?
      ensures r.Ok? ==> (r.value, entries) == Loaded(old(entries), k).value
      ensures r.Err? ==> entries == old(entries)
    {
      if k !in entries {
        return Err(NotRegistered);
      }
      var e := entries[k];
      if e.once {
        entries := entries - {k};
      }
      r := Ok(e.data);
    }

    method Delete(k: InstanceKey)
      modifies this
      ensures entries == Deleted(old(entries), k)
    {
      entries := entries - {k};
    }
  }
}
