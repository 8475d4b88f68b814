/** The free list of C pointers (userdata/heap.go): malloc'ed one-byte
  * addresses handed out to stand for Go values passed through C. malloc is
  * modelled as a bump allocator whose next block starts at `brk`; address
  * 0 stands for the nil pointer and is never handed out. */
module PointerHeap {
  const ChunkSize: nat := 1024

  /** The free list and the allocator's next address. */
  datatype Pool = Pool(unused: seq<nat>, brk: nat)

  /** The pointers of one malloc'ed block, in address order. */
  function Chunk(block: nat): (c: seq<nat>)
    ensures |c| == ChunkSize
    ensures forall i :: 0 <= i < ChunkSize ==> c[i] == block + i
  {
    seq(ChunkSize, i => block + i)
  }

  /** Every free pointer is a distinct, allocated, non-nil address. */
  ghost predicate Valid(p: Pool) {
    && p.brk >= 1
    && (forall i :: 0 <= i < |p.unused| ==> 1 <= p.unused[i] < p.brk)
    && (forall i, j :: 0 <= i < j < |p.unused| ==> p.unused[i] != p.unused[j])
  }

  /** getPointer: a new chunk when the list is empty, then the last free
    * pointer is popped. */
  function Get(p: Pool): (r: (nat, Pool))
    ensures r.1.unused + [r.0] == (if |p.unused| == 0 then Chunk(p.brk) else p.unused)
    ensures r.1.brk == (if |p.unused| == 0 then p.brk + ChunkSize else p.brk)
  {
    var q := if |p.unused| == 0 then Pool(p.unused + Chunk(p.brk), p.brk + ChunkSize) else p;
    var n := |q.unused|;
    assert q.unused[..n - 1] + [q.unused[n - 1]] == q.unused;
    (q.unused[n - 1], Pool(q.unused[..n - 1], q.brk))
  }

  /** returnPointer: the C pointer goes on top of the list. */
  function Return(p: Pool, ptr: nat): (r: Pool)
    ensures |r.unused| == |p.unused| + 1 && r.unused[|p.unused|] == ptr
    ensures r.unused[..|p.unused|] == p.unused && r.brk == p.brk
  {
    Pool(p.unused + [ptr], p.brk)
  }

  /** A chunk is a valid free list on its own. */
  lemma ChunkValid(block: nat)
    requires block >= 1
    ensures Valid(Pool(Chunk(block), block + ChunkSize))
  {
  }

  /** getPointer keeps the list valid and hands out a non-nil pointer that
    * is no longer in the list. */
  lemma GetFresh(p: Pool)
    requires Valid(p)
    ensures var (ptr, p') := Get(p);
            Valid(p') && 1 <= ptr < p'.brk && ptr !in p'.unused && p.brk <= p'.brk
  {
    var (ptr, p') := Get(p);
    var avail := if |p.unused| == 0 then Chunk(p.brk) else p.unused;
    if |p.unused| == 0 {
      ChunkValid(p.brk);
    }
    assert Valid(Pool(avail, p'.brk));
    assert p'.unused == avail[..|avail| - 1] && ptr == avail[|avail| - 1] by {
      assert p'.unused + [ptr] == avail;
    }
    forall i | 0 <= i < |p'.unused| ensures p'.unused[i] != ptr {
      assert p'.unused[i] == avail[i];
    }
  }

  /** heap_test.go TestGetPointer: from an empty list a pointer comes out
    * and 1023 stay free. */
  lemma GetFromEmpty(p: Pool)
    requires Valid(p) && p.unused == []
    ensures Get(p).0 != 0 && |Get(p).1.unused| == ChunkSize - 1
  {
    GetFresh(p);
  }

  /** heap_test.go TestReturnPointer: returning the C pointer just taken
    * restores the list's size, with that pointer on top. */
  lemma GetThenReturn(p: Pool)
    ensures var (ptr, p') := Get(p);
            var r := Return(p', ptr);
            |r.unused| == (if |p.unused| == 0 then ChunkSize else |p.unused|) && r.unused[|r.unused| - 1] == ptr
    ensures |p.unused| > 0 ==> Return(Get(p).1, Get(p).0) == p
  {
    var (ptr, p') := Get(p);
    assert Return(p', ptr).unused == p'.unused + [ptr];
  }

  /** Returning a pointer that is allocated, non-nil and not free keeps the
    * list valid. */
  lemma ReturnKeepsValid(p: Pool, ptr: nat)
    requires Valid(p) && 1 <= ptr < p.brk && ptr !in p.unused
    ensures Valid(Return(p, ptr))
  {
    var r := Return(p, ptr).unused;
    forall i, j | 0 <= i < j < |r| ensures r[i] != r[j] {
      if j == |p.unused| {
        assert r[i] == p.unused[i];
      } else {
        assert r[i] == p.unused[i] && r[j] == p.unused[j];
      }
    }
  }

  // ---------------------------------------------------------------------------
  // The free list as an object

  /** The package's free list (`unused`) and the C heap it draws from. */
  class PointerPool {
    var unused: seq<nat>
    var brk: nat

    function State(): Pool
      reads this
    {
      Pool(unused, brk)
    }

    /** An empty (nil) list over a heap with nothing allocated yet. */
    constructor ()
      ensures State() == Pool([], 1) && Valid(State())
    {
      unused := [];
      brk := 1;
    }

    /** allocateChunk: one malloc of chunkSize bytes, each byte's address
      * appended to the free list. */
    method AllocateChunk()
      modifies this
      ensures unused == old(unused) + Chunk(old(brk))
      ensures brk == old(brk) + ChunkSize
    {
      var block := brk;
      brk := brk + ChunkSize;
      for i := 0 to ChunkSize
        invariant unused == old(unused) + Chunk(block)[..i]
        invariant brk == block + ChunkSize
      {
        unused := unused + [block + i];
        assert Chunk(block)[..i + 1] == Chunk(block)[..i] + [block + i];
      }
      assert Chunk(block)[..ChunkSize] == Chunk(block);
    }

    method GetPointer() returns (ptr: nat)
      modifies this
      ensures (ptr, State()) == Get(old(State()))
    {
      if |unused| == 0 {
        AllocateChunk();
      }
      ptr := unused[|unused| - 1];
      unused := unused[..|unused| - 1];
    }

    method ReturnPointer(ptr: nat)
      modifies this
      ensures State() == Return(old(State()), ptr)
    {
      unused := unused + [ptr];
    }
  }
}

/** The userdata registry (userdata/registry.go): Go values registered
  * under a pointer taken from the free list, so that C code can hand the
  * pointer back and Go can find the value again. */
module Userdata {
  import opened Wrappers
  import opened PointerHeap

  const AlreadyRegistered := "given pointer is already registered"
  const NoUserdata := "no userdata for given pointer"

  /** userdataEntry; a once-entry is deleted by the first Load. */
  datatype Entry<D> = Entry(data: D, once: bool)

  /** The registry map together with the free list. */
  datatype Registry<D> = Registry(entries: map<nat, Entry<D>>, pool: Pool)

  /** The registered pointers came from the free list and are not in it
    * any more. */
  ghost predicate RegistryValid<D>(s: Registry<D>) {
    && Valid(s.pool)
    && forall k :: k in s.entries ==> 1 <= k < s.pool.brk && k !in s.pool.unused
  }

  /** register: a panic when the C pointer is registered already. */
  function RegisterAt<D>(entries: map<nat, Entry<D>>, ptr: nat, data: D, once: bool): (r: Result<map<nat, Entry<D>>>)
    ensures r.Err? <==> ptr in entries
    ensures r.Ok? ==> ptr in r.value && r.value[ptr] == Entry(data, once) && r.value - {ptr} == entries
  {
    if ptr in entries then Err(AlreadyRegistered) else Ok(entries[ptr := Entry(data, once)])
  }

  /** Register (once false) and RegisterOnce (once true): a pointer from
    * the free list, then register; the C pointer is returned. On a panic
    * the C pointer has been taken from the list all the same. */
  function RegisterData<D>(s: Registry<D>, data: D, once: bool): (r: (Result<nat>, Registry<D>))
    ensures r.1.pool == Get(s.pool).1
    ensures r.0.Ok? ==> r.0.value == Get(s.pool).0
  {
    var (ptr, pool) := Get(s.pool);
    match RegisterAt(s.entries, ptr, data, once)
    case Err(m) => (Err(m), Registry(s.entries, pool))
    case Ok(entries) => (Ok(ptr), Registry(entries, pool))
  }

  /** deleteUnlocked: a panic for an unknown pointer; otherwise the entry
    * goes and its pointer returns to the free list. */
  function DeleteEntry<D>(s: Registry<D>, ptr: nat): (r: Result<Registry<D>>)
    ensures r.Err? <==> ptr !in s.entries
    ensures r.Ok? ==> r.value.entries == s.entries - {ptr} && r.value.pool == Return(s.pool, ptr)
  {
    if ptr !in s.entries then Err(NoUserdata)
    else Ok(Registry(s.entries - {ptr}, Return(s.pool, ptr)))
  }

  /** Load: nil for an unknown pointer; a once-entry is deleted. */
  function LoadData<D>(s: Registry<D>, ptr: nat): (r: (Option<D>, Registry<D>))
    ensures r.0.Some? <==> ptr in s.entries
    ensures r.0.Some? ==> r.0.value == s.entries[ptr].data
    ensures ptr !in s.entries || !s.entries[ptr].once ==> r.1 == s
    ensures ptr in s.entries && s.entries[ptr].once ==> r.1 == DeleteEntry(s, ptr).value
  {
    if ptr !in s.entries then (None, s)
    else
      var e := s.entries[ptr];
      if e.once then (Some(e.data), DeleteEntry(s, ptr).value) else (Some(e.data), s)
  }

  /** In a valid registry Register never panics: the C pointer it takes is
    * not registered; afterwards it maps to the value, nothing else
    * changed and the registry is still valid. */
  lemma RegisterSucceeds<D>(s: Registry<D>, data: D, once: bool)
    requires RegistryValid(s)
    ensures var (r, s') := RegisterData(s, data, once);
            && r.Ok? && r.value !in s.entries && r.value != 0
            && r.value in s'.entries && s'.entries[r.value] == Entry(data, once)
            && s'.entries - {r.value} == s.entries
            && RegistryValid(s')
  {
    GetFresh(s.pool);
    var (ptr, pool) := Get(s.pool);
    var avail := if |s.pool.unused| == 0 then Chunk(s.pool.brk) else s.pool.unused;
    assert pool.unused + [ptr] == avail;
    assert ptr in avail;
    var s' := RegisterData(s, data, once).1;
    forall k | k in s'.entries ensures 1 <= k < pool.brk && k !in pool.unused {
      if k != ptr {
        assert k in s.entries;
        assert k !in avail;
      }
    }
  }

  /** Deleting a registered pointer keeps the registry valid. */
  lemma DeleteKeepsValid<D>(s: Registry<D>, ptr: nat)
    requires RegistryValid(s) && ptr in s.entries
    ensures RegistryValid(DeleteEntry(s, ptr).value)
  {
    ReturnKeepsValid(s.pool, ptr);
    var s' := DeleteEntry(s, ptr).value;
    forall k | k in s'.entries ensures k !in s'.pool.unused {
      assert s'.pool.unused == s.pool.unused + [ptr];
    }
  }

  /** Loading keeps the registry valid. */
  lemma LoadKeepsValid<D>(s: Registry<D>, ptr: nat)
    requires RegistryValid(s)
    ensures RegistryValid(LoadData(s, ptr).1)
  {
    if ptr in s.entries && s.entries[ptr].once {
      DeleteKeepsValid(s, ptr);
    }
  }

  /** A value registered with RegisterOnce is loaded once; the second Load
    * finds nothing. */
  lemma OnceLoadsOnce<D>(s: Registry<D>, data: D)
    requires RegistryValid(s)
    ensures var (r, s1) := RegisterData(s, data, true);
            r.Ok? && LoadData(s1, r.value).0 == Some(data)
            && LoadData(LoadData(s1, r.value).1, r.value).0 == None
  {
    RegisterSucceeds(s, data, true);
  }

  /** A value registered with Register stays until it is deleted. */
  lemma PlainLoadKeeps<D>(s: Registry<D>, data: D)
    requires RegistryValid(s)
    ensures var (r, s1) := RegisterData(s, data, false);
            r.Ok? && LoadData(s1, r.value) == (Some(data), s1)
  {
    RegisterSucceeds(s, data, false);
  }

  /** Register then Delete leaves the registered entries as they were and
    * puts the C pointer back on top of the free list; a second Delete of it
    * panics. */
  lemma RegisterThenDelete<D>(s: Registry<D>, data: D, once: bool)
    requires RegistryValid(s)
    ensures var (r, s1) := RegisterData(s, data, once);
            r.Ok? && DeleteEntry(s1, r.value).Ok?
            && DeleteEntry(s1, r.value).value.entries == s.entries
            && DeleteEntry(s1, r.value).value.pool == Return(Get(s.pool).1, Get(s.pool).0)
            && DeleteEntry(DeleteEntry(s1, r.value).value, r.value).Err?
  {
    RegisterSucceeds(s, data, once);
    var (r, s1) := RegisterData(s, data, once);
    assert s1.entries - {r.value} == s.entries;
  }

  // ---------------------------------------------------------------------------
  // The registry as an object

  /** userdataRegistry together with the package's free list. */
  class UserdataRegistry<D> {
    var entries: map<nat, Entry<D>>
    const pool: PointerPool

    function State(): Registry<D>
      reads this, pool
    {
      Registry(entries, pool.State())
    }

    constructor (pool: PointerPool)
      ensures this.pool == pool && entries == map[]
    {
      this.pool := pool;
      entries := map[];
    }

    /** register: panics (Err) when the C pointer is taken already. */
    method RegisterPointer(ptr: nat, data: D, once: bool) returns (r: Result<()>)
      modifies this
      ensures r.Err? <==> ptr in old(entries)
      ensures r.Ok? ==> RegisterAt(old(entries), ptr, data, once) == Ok(entries)
      ensures r.Err? ==> r == Err(AlreadyRegistered) && entries == old(entries)
    {
      if ptr in entries {
        return Err(AlreadyRegistered);
      }
      entries := entries[ptr := Entry(data, once)];
      r := Ok(());
    }

    method Register(data: D) returns (r: Result<nat>)
      modifies this, pool
      ensures (r, State()) == RegisterData(old(State()), data, false)
    {
      var ptr := pool.GetPointer();
      var res := RegisterPointer(ptr, data, false);
      if res.Err? {
        return Err(res.msg);
      }
      r := Ok(ptr);
    }

    method RegisterOnce(data: D) returns (r: Result<nat>)
      modifies this, pool
      ensures (r, State()) == RegisterData(old(State()), data, true)
    {
      var ptr := pool.GetPointer();
      var res := RegisterPointer(ptr, data, true);
      if res.Err? {
        return Err(res.msg);
      }
      r := Ok(ptr);
    }

    /** deleteUnlocked: a panic leaves everything as it was. */
    method DeleteUnlocked(ptr: nat) returns (r: Result<()>)
      modifies this, pool
      ensures r.Err? <==> DeleteEntry(old(State()), ptr).Err?
      ensures r.Ok? ==> State() == DeleteEntry(old(State()), ptr).value
      ensures r.Err? ==> State() == old(State())
    {
      if ptr !in entries {
        return Err(NoUserdata);
      }
      entries := entries - {ptr};
      pool.ReturnPointer(ptr);
      r := Ok(());
    }

    method Load(ptr: nat) returns (v: Option<D>)
      modifies this, pool
      ensures (v, State()) == LoadData(old(State()), ptr)
    {
      if ptr !in entries {
        return None;
      }
      var e := entries[ptr];
      if e.once {
        var _ := DeleteUnlocked(ptr);
      }
      v := Some(e.data);
    }

    method Delete(ptr: nat) returns (r: Result<()>)
      modifies this, pool
      ensures r.Err? <==> DeleteEntry(old(State()), ptr).Err?
      ensures r.Ok? ==> State() == DeleteEntry(old(State()), ptr).value
      ensures r.Err? ==> State() == old(State())
    {
      r := DeleteUnlocked(ptr);
    }
  }
}
