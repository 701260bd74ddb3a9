/**
 A policy or route table as the driver keeps it: an intrusive circular doubly linked list around
 a sentinel, with a separate entry counter, over entries from the kernel pool.
 */
module LinkedTable {
  import opened Base
  import opened OrderedTable

  /** A LIST_ENTRY with the record that surrounds it; the sentinel's record is never read. */
  class ListEntry<V(0)> {
    var flink: ListEntry?<V>
    var blink: ListEntry?<V>
    var record: Record<V>

    constructor Zeroed()
      ensures flink == null && blink == null
    {
      flink, blink := null, null;
    }
  }

  /** Dropping one place of a repetition-free sequence drops exactly the value that stood there. */
  lemma DropAt<T>(s: seq<T>, k: nat)
    requires k < |s| && forall i, j :: 0 <= i < j < |s| ==> s[i] != s[j]
    ensures forall x :: x in s[..k] + s[k + 1..] <==> x in s && x != s[k]
  {
    var d := s[..k] + s[k + 1..];
    assert forall i :: 0 <= i < |s| && i != k ==> s[i] == d[if i < k then i else i - 1];
  }

  class Table<V(0)> {
    const head: ListEntry<V>
    var count: nat
    ghost var nodes: seq<ListEntry<V>>    // the linked entries in list order
    ghost var pool: set<ListEntry<V>>     // the entries allocated and not yet freed
    ghost var contents: seq<Record<V>>    // the abstract value: the records in list order

    /** flink and blink walk `nodes` forwards and backwards and close at the sentinel. */
    ghost predicate Ring()
      reads this`nodes, head`flink, head`blink, nodes`flink, nodes`blink
    {
      && head !in nodes
      && (forall i, j :: 0 <= i < j < |nodes| ==> nodes[i] != nodes[j])
      && head.flink == (if nodes == [] then head else nodes[0])
      && head.blink == (if nodes == [] then head else nodes[|nodes| - 1])
      && (forall i {:trigger nodes[i].flink} :: 0 <= i < |nodes| ==>
            nodes[i].flink == if i + 1 == |nodes| then head else nodes[i + 1])
      && (forall i {:trigger nodes[i].blink} :: 0 <= i < |nodes| ==>
            nodes[i].blink == if i == 0 then head else nodes[i - 1])
    }

    /** The linked entries hold exactly `contents`. */
    ghost predicate Holds()
      reads this`nodes, this`contents, nodes`record
    {
      |nodes| == |contents| && forall i :: 0 <= i < |nodes| ==> nodes[i].record == contents[i]
    }

    /** Every entry a walk can reach is live. */
    ghost predicate Live()
      reads this`nodes, this`pool
    {
      forall e :: e in nodes ==> e in pool
    }

    /** Nothing is live but what is linked. */
    ghost predicate NoLeak()
      reads this`nodes, this`pool
    {
      forall e :: e in pool ==> e in nodes
    }

    /** Between calls: nothing is live but the linked entries, the counter is exact, keys are distinct. */
    ghost predicate Valid()
      reads this, head, nodes
    {
      Ring() && Holds() && Live() && NoLeak() && count == |contents| <= MAX_ENTRIES && Distinct(contents)
    }

    /** Links are inverse all the way round, the sentinel included. */
    lemma LinksInverse(e: ListEntry<V>)
      requires Ring() && (e == head || e in nodes)
      ensures e.flink != null && e.flink.blink == e
      ensures e.blink != null && e.blink.flink == e
    {
      if e in nodes {
        var i :| 0 <= i < |nodes| && nodes[i] == e;
        if i + 1 < |nodes| { assert nodes[i + 1].blink == nodes[i]; }
        if 0 < i { assert nodes[i - 1].flink == nodes[i]; }
      } else if nodes != [] {
        assert nodes[0].blink == head && nodes[|nodes| - 1].flink == head;
      }
    }

    constructor ()
      ensures Valid() && contents == [] && nodes == [] && fresh(head)
    {
      var sentinel := new ListEntry<V>.Zeroed();
      head := sentinel;
      count := 0;
      nodes, pool, contents := [], {}, [];
      new;
      head.flink, head.blink := head, head;
    }

    /** InitializeListHead and a zero counter; whatever was linked is forgotten, not freed. */
    method Initialize()
      modifies this`count, this`nodes, this`contents, head
      ensures Ring() && Holds() && nodes == [] && count == 0
    {
      head.flink, head.blink := head, head;
      count := 0;
      nodes, contents := [], [];
    }

    method Allocate(ok: bool) returns (e: ListEntry?<V>)
      modifies this`pool
      ensures e == null <==> !ok
      ensures e != null ==> fresh(e) && pool == old(pool) + {e}
      ensures e == null ==> pool == old(pool)
    {
      e := null;
      if ok {
        e := new ListEntry<V>.Zeroed();
        pool := pool + {e};
      }
    }

    /** Only a live entry can be given back, so an entry cannot be freed twice. */
    method Free(e: ListEntry<V>)
      requires e in pool
      modifies this`pool
      ensures pool == old(pool) - {e}
    {
      pool := pool - {e};
    }

    method InsertTail(e: ListEntry<V>)
      requires Ring() && Live() && e in pool && e != head && e !in nodes
      modifies this`nodes, head`flink, head`blink, pool`flink, pool`blink
      ensures Ring() && nodes == old(nodes) + [e]
    {
      var tail := head.blink;
      e.flink := head;
      e.blink := tail;
      tail.flink := e;
      head.blink := e;
      nodes := nodes + [e];
    }

    method RemoveEntry(e: ListEntry<V>, ghost k: nat)
      requires Ring() && Live() && k < |nodes| && nodes[k] == e
      modifies this`nodes, head`flink, head`blink, pool`flink, pool`blink
      ensures Ring() && nodes == old(nodes)[..k] + old(nodes)[k + 1..]
    {
      var next, prev := e.flink, e.blink;
      assert next == if k + 1 == |nodes| then head else nodes[k + 1];
      assert prev == if k == 0 then head else nodes[k - 1];
      prev.flink := next;
      next.blink := prev;
      ghost var was := nodes;
      nodes := nodes[..k] + nodes[k + 1..];
      assert forall i :: 0 <= i < |nodes| ==> nodes[i] == was[if i < k then i else i + 1];
    }

    /** Takes an entry out of the list and gives it back to the pool. */
    method Discard(e: ListEntry<V>, ghost k: nat)
      requires Ring() && Live() && NoLeak() && k < |nodes| && nodes[k] == e
      modifies this`nodes, this`pool, head`flink, head`blink, pool`flink, pool`blink
      ensures Ring() && Live() && NoLeak()
      ensures nodes == old(nodes)[..k] + old(nodes)[k + 1..]
      ensures pool == old(pool) - {e}
    {
      DropAt(nodes, k);
      RemoveEntry(e, k);
      Free(e);
    }

    /** The entry of a key, found by walking flink; null exactly when no record has the key. */
    method Find(key: AppId) returns (e: ListEntry?<V>, ghost k: nat)
      requires Ring() && Holds() && Live()
      ensures k == IndexOf(contents, key)
      ensures e == null <==> !Contains(contents, key)
      ensures e != null ==> k < |nodes| && e == nodes[k] && e.record.key == key
    {
      var entry := head.flink;
      k := 0;
      while entry != head
        invariant k <= |nodes|
        invariant entry == if k == |nodes| then head else nodes[k]
        invariant forall j :: 0 <= j < k ==> contents[j].key != key
        decreases |nodes| - k
      {
        assert nodes[k] in nodes;
        assert entry in pool;
        if entry.record.key == key {
          return entry, k;
        }
        entry := entry.flink;
        k := k + 1;
      }
      e := null;
    }

    /** The locked region of Set: what it does with the privately held entry, and the status. */
    method Install(entry: ListEntry<V>) returns (linked: bool, status: NtStatus)
      requires Ring() && Holds() && Live() && count == |contents| <= MAX_ENTRIES
      requires entry in pool && entry != head && entry !in nodes
      requires entry.record.version == RECORD_VERSION
      modifies this`count, this`nodes, this`contents, head, pool
      ensures Ring() && Holds() && count == |contents| <= MAX_ENTRIES
      ensures nodes == if linked then old(nodes) + [entry] else old(nodes)
      ensures contents == SetResult(old(contents), Some(old(entry.record)), true).0
      ensures status == SetResult(old(contents), Some(old(entry.record)), true).1
    {
      var r := entry.record;
      var existing, k := Find(r.key);
      if existing != null {
        existing.record := r;
        contents := contents[k := r];
        return false, Success;
      }
      if count >= MAX_ENTRIES {
        return false, InsufficientResources;
      }
      InsertTail(entry);
      contents := contents + [r];
      count := count + 1;
      return true, Success;
    }

    /** Set from the lock on: the entry is linked, or given back. */
    method SetEntry(entry: ListEntry<V>) returns (status: NtStatus)
      requires Ring() && Holds() && Live() && count == |contents| <= MAX_ENTRIES && Distinct(contents)
      requires entry in pool && entry != head && entry !in nodes && forall e :: e in pool ==> e == entry || e in nodes
      requires entry.record.version == RECORD_VERSION
      modifies this, head, pool
      ensures Valid() && pool <= old(pool)
      ensures contents == SetResult(old(contents), Some(old(entry.record)), true).0
      ensures status == SetResult(old(contents), Some(old(entry.record)), true).1
    {
      UpsertLaws(contents, entry.record);
      var linked;
      linked, status := Install(entry);
      if !linked {
        Free(entry);
      }
    }

    /** Upsert; the new entry is allocated first and given back unless it is linked. */
    method Set(arg: Option<Record<V>>, alloc: bool) returns (status: NtStatus)
      requires Valid()
      modifies this, head, pool
      ensures Valid()
      ensures contents == SetResult(old(contents), arg, alloc).0
      ensures status == SetResult(old(contents), arg, alloc).1
      ensures fresh(pool - old(pool))
    {
      if arg.None? || arg.value.version != RECORD_VERSION {
        return InvalidParameter;
      }
      var entry := Allocate(alloc);
      if entry == null {
        return InsufficientResources;
      }
      entry.record := arg.value;
      status := SetEntry(entry);
    }

    /** The locked region of Remove and the free that follows it, for an entry that was found. */
    method RemoveFound(e: ListEntry<V>, ghost k: nat)
      requires Ring() && Holds() && Live() && NoLeak() && count == |contents| && k < |nodes| && nodes[k] == e
      modifies this, head`flink, head`blink, pool`flink, pool`blink
      ensures Ring() && Holds() && Live() && NoLeak() && count == |contents|
      ensures contents == old(contents)[..k] + old(contents)[k + 1..] && pool <= old(pool)
    {
      Discard(e, k);
      contents := contents[..k] + contents[k + 1..];
      count := count - 1;
    }

    method Remove(key: AppId) returns (status: NtStatus)
      requires Valid()
      modifies this, head, pool
      ensures Valid()
      ensures contents == RemoveResult(old(contents), key).0
      ensures status == RemoveResult(old(contents), key).1
      ensures pool <= old(pool)
    {
      DeleteLaws(contents, key);
      var existing, k := Find(key);
      if existing == null {
        return NotFound;
      }
      RemoveFound(existing, k);
      return Success;
    }

    /** Unlinks from the head and frees until the list is empty: no entry stays live. */
    method Shutdown()
      requires Valid()
      modifies this, head, pool
      ensures Valid() && nodes == [] && contents == [] && pool == {}
    {
      while head.flink != head
        invariant Ring() && Live() && NoLeak()
        invariant pool <= old(pool)
        decreases |nodes|
      {
        var entry := head.flink;
        Discard(entry, 0);
      }
      count := 0;
      contents := [];
    }

    /** Rebuilds the table from a payload, one Set per record, stopping at the first failure. */
    method Sync(arg: Option<seq<Record<V>>>, limit: nat, alloc: nat -> bool) returns (status: NtStatus)
      requires Valid()
      modifies this, head, pool
      ensures Valid()
      ensures contents == SyncResult(old(contents), arg, limit, alloc).0
      ensures status == SyncResult(old(contents), arg, limit, alloc).1
      ensures fresh(pool - old(pool))
    {
      if arg.None? || |arg.value| > limit {
        return InvalidParameter;
      }
      Shutdown();
      Initialize();
      var rs := arg.value;
      var i := 0;
      while i < |rs|
        invariant i <= |rs| && Valid()
        invariant fresh(pool)
        invariant SyncFrom(contents, rs, i, alloc) == SyncFrom([], rs, 0, alloc)
      {
        status := Set(Some(rs[i]), alloc(i));
        if !status.Ok() {
          return status;
        }
        i := i + 1;
      }
      status := Success;
    }

    /** Keyed lookup: a copy of the record, or none. */
    method LookupByKey(key: AppId) returns (r: Option<Record<V>>)
      requires Valid()
      ensures r == Lookup(contents, key)
    {
      var existing, k := Find(key);
      r := if existing != null then Some(existing.record) else None;
    }
  }
}
