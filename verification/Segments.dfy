/** MemTable, SSTables and the store that layers one over the other. */
module Segments {
  import opened Wrappers
  import opened Records

  /** An SSTable is the list of its lines, in file order. */
  type Table = seq<Record>

  ghost predicate DistinctIds(t: Table) {
    forall i, j :: 0 <= i < j < |t| ==> t[i].id != t[j].id
  }

  /** A dict keyed by record id. */
  ghost predicate Keyed(m: map<string, Record>) {
    forall id :: id in m ==> m[id].id == id
  }

  /** The dict a table's lines leave behind: a later line for an id replaces an earlier one. */
  ghost function TableMap(t: Table): map<string, Record> {
    if t == [] then map[] else TableMap(t[..|t| - 1])[t[|t| - 1].id := t[|t| - 1]]
  }

  /** The durable records by id: a later table replaces an earlier one. */
  ghost function Durable(tables: seq<Table>): map<string, Record> {
    if tables == [] then map[] else Durable(tables[..|tables| - 1]) + TableMap(tables[|tables| - 1])
  }

  /** The value a read serves: the MemTable, else the newest table that has the id. */
  ghost function StoreGet(mem: map<string, Record>, tables: seq<Table>, id: string): Option<Record> {
    if id in mem then Some(mem[id]) else Find(Durable(tables), id)
  }

  ghost predicate IsSnapshot(mem: map<string, Record>, snap: Table) {
    DistinctIds(snap) && TableMap(snap) == mem
  }

  lemma {:induction false} TableMapAt(t: Table, i: nat)
    requires DistinctIds(t) && i < |t|
    ensures t[i].id in TableMap(t) && TableMap(t)[t[i].id] == t[i]
  {
    if i < |t| - 1 {
      TableMapAt(t[..|t| - 1], i);
    }
  }

  lemma {:induction false} TableMapFrom(t: Table, id: string)
    ensures id in TableMap(t) ==> TableMap(t)[id] in t && TableMap(t)[id].id == id
    ensures (exists r :: r in t && r.id == id) ==> id in TableMap(t)
    ensures Keyed(TableMap(t))
  {
    forall k ensures k in TableMap(t) ==> TableMap(t)[k] in t && TableMap(t)[k].id == k {
      TableMapFromAt(t, k);
    }
    if r :| r in t && r.id == id {
      var i :| 0 <= i < |t| && t[i] == r;
      TableMapHas(t, i);
    }
  }

  lemma {:induction false} TableMapFromAt(t: Table, id: string)
    ensures id in TableMap(t) ==> TableMap(t)[id] in t && TableMap(t)[id].id == id
  {
    if t != [] {
      TableMapFromAt(t[..|t| - 1], id);
    }
  }

  lemma {:induction false} TableMapHas(t: Table, i: nat)
    requires i < |t|
    ensures t[i].id in TableMap(t)
  {
    if i < |t| - 1 {
      TableMapHas(t[..|t| - 1], i);
    }
  }

  lemma {:induction false} DurableKeyed(tables: seq<Table>)
    ensures Keyed(Durable(tables))
  {
    if tables != [] {
      DurableKeyed(tables[..|tables| - 1]);
      TableMapFrom(tables[|tables| - 1], "");
    }
  }

  lemma DurableAppend(tables: seq<Table>, t: Table)
    ensures Durable(tables + [t]) == Durable(tables) + TableMap(t)
  {
    var all := tables + [t];
    assert all[..|all| - 1] == tables;
  }

  lemma TableMapAppend(t: Table, r: Record)
    ensures TableMap(t + [r]) == TableMap(t)[r.id := r]
  {
    assert (t + [r])[..|t|] == t;
  }

  lemma EmptySnapshot()
    ensures IsSnapshot(map[], [])
  {
  }

  /** Listing one more value of a dict extends a snapshot of the values listed so far. */
  lemma SnapshotExtend(m: map<string, Record>, rest: set<string>, snap: Table, id: string)
    requires Keyed(m) && id in m && id in rest && IsSnapshot(m - rest, snap)
    ensures IsSnapshot(m - (rest - {id}), snap + [m[id]])
  {
    forall i | 0 <= i < |snap| ensures snap[i].id != id {
      TableMapAt(snap, i);
    }
    TableMapAppend(snap, m[id]);
    assert m - (rest - {id}) == (m - rest)[id := m[id]];
  }

  lemma {:induction false} SnapshotSize(m: map<string, Record>, snap: Table)
    requires IsSnapshot(m, snap)
    ensures |snap| == |m|
  {
    if snap != [] {
      var last := snap[|snap| - 1];
      var init := snap[..|snap| - 1];
      if last.id in TableMap(init) {
        TableMapFrom(init, last.id);
      }
      SnapshotSize(TableMap(init), init);
      assert m.Keys == TableMap(init).Keys + {last.id};
    }
  }

  class MemTable {
    const flushThreshold: nat
    var data: map<string, Record>

    ghost predicate Valid() reads this { Keyed(data) }

    constructor (flushThreshold: nat)
      ensures Valid() && data == map[] && this.flushThreshold == flushThreshold
    {
      this.flushThreshold := flushThreshold;
      data := map[];
    }

    method Put(r: Record)
      requires Valid()
      modifies this
      ensures Valid() && data == old(data)[r.id := r]
    {
      data := data[r.id := r];
    }

    method Get(id: string) returns (r: Option<Record>)
      requires Valid()
      ensures r == Find(data, id)
    {
      r := Find(data, id);
    }

    method Delete(id: string)
      requires Valid()
      modifies this
      ensures Valid() && data == old(data) - {id}
    {
      data := data - {id};
    }

    method ShouldFlush() returns (b: bool)
      ensures b <==> |data| >= flushThreshold
    {
      b := |data| >= flushThreshold;
    }

    /** The values in some order, and an empty table behind them. */
    method SnapshotAndClear() returns (snap: Table)
      requires Valid()
      modifies this
      ensures Valid() && data == map[]
      ensures IsSnapshot(old(data), snap)
    {
      snap := [];
      var rest := data.Keys;
      while rest != {}
        invariant rest <= data.Keys && data == old(data)
        invariant IsSnapshot(data - rest, snap)
        decreases |rest|
      {
        var id :| id in rest;
        SnapshotExtend(data, rest, snap, id);
        snap, rest := snap + [data[id]], rest - {id};
      }
      assert data - {} == data;
      data := map[];
    }
  }

  class SegmentStore {
    const memtable: MemTable
    var sstables: seq<Table>

    ghost predicate Valid()
      reads this, memtable
    {
      memtable.Valid() && forall t :: t in sstables ==> DistinctIds(t)
    }

    /** A fresh process over the tables found on disk. */
    constructor (onDisk: seq<Table>, threshold: nat)
      requires forall t :: t in onDisk ==> DistinctIds(t)
      ensures Valid() && fresh(memtable)
      ensures sstables == onDisk && memtable.data == map[] && memtable.flushThreshold == threshold
    {
      memtable := new MemTable(threshold);
      sstables := onDisk;
    }

    method Flush()
      requires Valid()
      modifies this, memtable
      ensures Valid() && memtable.data == map[]
      ensures old(memtable.data) == map[] ==> sstables == old(sstables)
      ensures old(memtable.data) != map[] ==>
                |sstables| == |old(sstables)| + 1 && sstables[..|old(sstables)|] == old(sstables)
                && IsSnapshot(old(memtable.data), sstables[|old(sstables)|])
    {
      if |memtable.data| == 0 {
        return;
      }
      var snap := memtable.SnapshotAndClear();
      sstables := sstables + [snap];
    }

    method Put(r: Record)
      requires Valid()
      modifies this, memtable
      ensures Valid()
      ensures |old(memtable.data)[r.id := r]| < memtable.flushThreshold ==>
                memtable.data == old(memtable.data)[r.id := r] && sstables == old(sstables)
      ensures |old(memtable.data)[r.id := r]| >= memtable.flushThreshold ==>
                memtable.data == map[] && |sstables| == |old(sstables)| + 1
                && sstables[..|old(sstables)|] == old(sstables)
                && IsSnapshot(old(memtable.data)[r.id := r], sstables[|old(sstables)|])
    {
      memtable.Put(r);
      var full := memtable.ShouldFlush();
      if full {
        assert r.id in memtable.data;
        Flush();
      }
    }

    /** MemTable first, then the tables newest first, each scanned from the top. */
    method Get(id: string) returns (r: Option<Record>)
      requires Valid()
      ensures r == StoreGet(memtable.data, sstables, id)
    {
      r := memtable.Get(id);
      if r.Some? {
        return;
      }
      assert sstables[..|sstables|] == sstables;
      var k := |sstables|;
      while k > 0
        invariant 0 <= k <= |sstables|
        invariant Find(Durable(sstables), id) == Find(Durable(sstables[..k]), id)
      {
        k := k - 1;
        var t := sstables[k];
        assert sstables[..k + 1][..k] == sstables[..k];
        var i := 0;
        while i < |t|
          invariant 0 <= i <= |t|
          invariant forall j :: 0 <= j < i ==> t[j].id != id
        {
          if t[i].id == id {
            TableMapAt(t, i);
            return Some(t[i]);
          }
          i := i + 1;
        }
        TableMapFrom(t, id);
      }
      r := None;
    }

    method DurableRecordsById() returns (latest: map<string, Record>)
      ensures latest == Durable(sstables)
    {
      latest := map[];
      var k := 0;
      while k < |sstables|
        invariant 0 <= k <= |sstables|
        invariant latest == Durable(sstables[..k])
      {
        var t := sstables[k];
        ghost var before := latest;
        var i := 0;
        while i < |t|
          invariant 0 <= i <= |t|
          invariant latest == before + TableMap(t[..i])
        {
          assert t[..i + 1][..i] == t[..i];
          latest := latest[t[i].id := t[i]];
          i := i + 1;
        }
        assert t[..|t|] == t;
        assert sstables[..k + 1][..k] == sstables[..k];
        k := k + 1;
      }
      assert sstables[..|sstables|] == sstables;
    }
  }
}
