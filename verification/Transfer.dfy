/** Moving a shard between storage roots: export, import, verify by digest, discard. */
module Transfer {
  import opened Wrappers
  import opened Records
  import opened Segments
  import opened Recovery
  import opened Ordering

  /** A node's storage for one shard: the WAL payloads and the SSTables. */
  datatype Root = Root(log: seq<Payload>, tables: seq<Table>) {
    ghost predicate Valid() {
      forall t :: t in tables ==> DistinctIds(t) && forall r :: r in t ==> r.Valid()
    }
  }

  const EmptyRoot: Root := Root([], [])

  /** What a process over this root would recover. */
  ghost function LogicalOf(root: Root): Logical {
    Replay(Durable(root.tables), root.log)
  }

  /** The canonical payload that is hashed. SHA-256 is taken to be collision-free, so the
      digest is the payload. */
  datatype Digest = Digest(records: seq<Record>, deleted: seq<string>)

  function IdOf(r: Record): string { r.id }

  function ComputeDigest(records: seq<Record>, deleted: seq<string>): Digest {
    Digest(SortBy(IdOf, records), SortBy(Self, deleted))
  }

  ghost function SortedIds(ids: set<string>): seq<string> {
    if ids == {} then [] else
      var id :| id in ids;
      InsertBy(Self, id, SortedIds(ids - {id}))
  }

  ghost function Pick(m: map<string, Record>, ids: seq<string>): seq<Record>
    requires forall id :: id in ids ==> id in m
  {
    if ids == [] then [] else [m[ids[0]]] + Pick(m, ids[1..])
  }

  lemma {:induction false} SortedIdsCorrect(ids: set<string>)
    ensures AscendingBy(Self, SortedIds(ids))
    ensures forall id :: id in SortedIds(ids) <==> id in ids
  {
    if ids != {} {
      var id :| id in ids && SortedIds(ids) == InsertBy(Self, id, SortedIds(ids - {id}));
      hide InsertBy, SortedIds, AscendingBy;
      SortedIdsCorrect(ids - {id});
      InsertByMembers(Self, id, SortedIds(ids - {id}));
    }
  }

  /** The digest of a logical state. */
  ghost function DigestOf(l: Logical): Digest {
    SortedIdsCorrect(l.records.Keys);
    Digest(Pick(l.records, SortedIds(l.records.Keys)), SortedIds(l.deleted))
  }

  lemma {:induction false} PickCorrect(m: map<string, Record>, ids: seq<string>)
    requires Keyed(m) && AscendingBy(Self, ids) && forall id :: id in ids ==> id in m
    ensures |Pick(m, ids)| == |ids| && forall i :: 0 <= i < |ids| ==> Pick(m, ids)[i] == m[ids[i]]
    ensures AscendingBy(IdOf, Pick(m, ids))
  {
    if ids != [] {
      PickCorrect(m, ids[1..]);
    }
  }

  lemma AscendingIsDistinct(s: seq<Record>)
    requires AscendingBy(IdOf, s)
    ensures DistinctIds(s)
  {
    forall i, j | 0 <= i < j < |s| ensures s[i].id != s[j].id {
      LessTotal(IdOf(s[i]), IdOf(s[j]));
    }
  }

  lemma PickIsSnapshot(m: map<string, Record>)
    requires Keyed(m)
    ensures forall id :: id in SortedIds(m.Keys) ==> id in m
    ensures IsSnapshot(m, Pick(m, SortedIds(m.Keys)))
  {
    hide TableMap, SortedIds, Pick, AscendingBy;
    var ids := SortedIds(m.Keys);
    SortedIdsCorrect(m.Keys);
    PickCorrect(m, ids);
    var s := Pick(m, ids);
    AscendingIsDistinct(s);
    forall id | id in m ensures m[id] in s {
      var i :| 0 <= i < |ids| && ids[i] == id;
      assert s[i] == m[id];
    }
    MapOfRows(m, s);
  }

  /** A table whose rows are exactly the values of a dict leaves that dict behind. */
  lemma MapOfRows(m: map<string, Record>, s: seq<Record>)
    requires DistinctIds(s) && Keyed(m)
    requires forall r :: r in s ==> r.id in m && m[r.id] == r
    requires forall id :: id in m ==> m[id] in s
    ensures TableMap(s) == m
  {
    hide TableMap;
    forall id ensures id in TableMap(s) <==> id in m
      ensures id in m ==> TableMap(s)[id] == m[id]
    {
      TableMapFrom(s, id);
      if id in m {
        var i :| 0 <= i < |s| && s[i] == m[id];
        TableMapAt(s, i);
      }
    }
  }

  /** Equal digests mean equal content. */
  lemma DigestInjective(l: Logical, l': Logical)
    requires Keyed(l.records) && Keyed(l'.records) && DigestOf(l) == DigestOf(l')
    ensures l == l'
  {
    PickIsSnapshot(l.records);
    PickIsSnapshot(l'.records);
    SortedIdsCorrect(l.deleted);
    SortedIdsCorrect(l'.deleted);
  }

  /** The digest depends on the content alone, not on the order the lists came in. */
  lemma ComputeDigestCorrect(records: seq<Record>, deleted: seq<string>)
    requires DistinctIds(records) && DistinctBy(Self, deleted)
    ensures ComputeDigest(records, deleted) == DigestOf(Logical(TableMap(records), set id | id in deleted))
  {
    var m, ids := TableMap(records), set id | id in deleted;
    hide TableMap, SortBy, Pick, SortedIds;
    TableMapFrom(records, "");
    SortedIdsCorrect(m.Keys);
    SortedIdsCorrect(ids);
    PickCorrect(m, SortedIds(m.Keys));
    forall r ensures r in records <==> r in Pick(m, SortedIds(m.Keys)) {
      PickedIsListed(records, r);
    }
    SortByUnique(IdOf, records, Pick(m, SortedIds(m.Keys)));
    SortByUnique(Self, deleted, SortedIds(ids));
  }

  lemma PickedIsListed(records: seq<Record>, r: Record)
    requires DistinctIds(records)
    ensures Keyed(TableMap(records))
    ensures forall id :: id in SortedIds(TableMap(records).Keys) ==> id in TableMap(records)
    ensures r in records <==> r in Pick(TableMap(records), SortedIds(TableMap(records).Keys))
  {
    var m := TableMap(records);
    TableMapFrom(records, r.id);
    var ids := SortedIds(m.Keys);
    SortedIdsCorrect(m.Keys);
    PickCorrect(m, ids);
    if r in records {
      var i :| 0 <= i < |records| && records[i] == r;
      TableMapAt(records, i);
      assert r.id in ids;
      var j :| 0 <= j < |ids| && ids[j] == r.id;
      assert Pick(m, ids)[j] == r;
    }
    if r in Pick(m, ids) {
      var j :| 0 <= j < |ids| && Pick(m, ids)[j] == r;
      TableMapFrom(records, ids[j]);
    }
  }

  /** The payloads an import writes: envelopes for the records, then tombstones. */
  ghost function Envelopes(records: seq<Record>): seq<Payload> {
    if records == [] then [] else Envelopes(records[..|records| - 1]) + [EnvelopeUpsert(records[|records| - 1])]
  }

  ghost function Tombstones(deleted: seq<string>): seq<Payload> {
    if deleted == [] then [] else Tombstones(deleted[..|deleted| - 1]) + [Tombstone(deleted[|deleted| - 1])]
  }

  lemma ReplayUpsertAppend(start: map<string, Record>, log: seq<Payload>, r: Record)
    requires r.Valid()
    ensures Replay(start, log + [EnvelopeUpsert(r)]) == Apply(Replay(start, log), Upsert(r))
  {
    hide EnvelopeUpsert, ParsePayload, Replay;
    ReplayAppend(start, log, EnvelopeUpsert(r));
    PayloadRoundTrip(r, "");
  }

  lemma UpdateRight(m: map<string, Record>, m': map<string, Record>, r: Record)
    ensures (m + m')[r.id := r] == m + m'[r.id := r]
  {
  }

  lemma {:induction false} ReplayEnvelopes(start: map<string, Record>, records: seq<Record>)
    requires forall r :: r in records ==> r.Valid()
    ensures Replay(start, Envelopes(records)) == Logical(start + TableMap(records), {})
  {
    assert Replay(start, []) == Logical(start, {}) && TableMap([]) == map[];
    if records == [] {
      assert start + map[] == start;
    } else {
      hide EnvelopeUpsert, Replay, TableMap;
      var n := |records| - 1;
      var init, r := records[..n], records[n];
      ReplayEnvelopes(start, init);
      ReplayUpsertAppend(start, Envelopes(init), r);
      TableMapAppend(init, r);
      assert records == init + [r];
      var none: set<string> := {};
      assert none - {r.id} == none;
      UpdateRight(start, TableMap(init), r);
    }
  }

  lemma {:induction false} ReplayTombstones(start: map<string, Record>, log: seq<Payload>, deleted: seq<string>)
    requires "" !in deleted
    ensures var before, ids := Replay(start, log), set id | id in deleted;
      Replay(start, log + Tombstones(deleted)) == Logical(before.records - ids, before.deleted + ids)
  {
    hide Tombstone, ParsePayload, Replay;
    var ids := set id | id in deleted;
    if deleted == [] {
      assert log + Tombstones(deleted) == log;
      assert Replay(start, log).records - ids == Replay(start, log).records;
    } else {
      var n := |deleted| - 1;
      var rest := set id | id in deleted[..n];
      ReplayTombstones(start, log, deleted[..n]);
      assert log + Tombstones(deleted) == (log + Tombstones(deleted[..n])) + [Tombstone(deleted[n])];
      ReplayAppend(start, log + Tombstones(deleted[..n]), Tombstone(deleted[n]));
      PayloadRoundTrip(Record("x", 1, "", Null), deleted[n]);
      assert ids == rest + {deleted[n]};
      assert (Replay(start, log).records - rest) - {deleted[n]} == Replay(start, log).records - ids;
    }
  }

  /** The root holds exactly this content: recovered from everything, and again in the
      SSTables alone. */
  ghost predicate IsImage(root: Root, l: Logical) {
    root.Valid() && LogicalOf(root) == l && Durable(root.tables) == l.records
  }

  /** `verify_shard`: both digests must be the expected one; without an expected one nothing is checked. */
  ghost predicate VerifyPasses(root: Root, expected: Option<Digest>) {
    expected.Some? ==>
      DigestOf(LogicalOf(root)) == expected.value
      && DigestOf(Logical(Durable(root.tables), LogicalOf(root).deleted)) == expected.value
  }

  /** With the source's digest recorded, verification accepts exactly the true images of the
      source; without it, it accepts everything. */
  lemma VerificationIsExactIff(root: Root, l: Logical, expected: Option<Digest>)
    requires root.Valid() && Keyed(l.records)
    ensures expected == Some(DigestOf(l)) ==> (VerifyPasses(root, expected) <==> IsImage(root, l))
    ensures expected == None ==> VerifyPasses(root, expected)
  {
    DurableKeyed(root.tables);
    ReplayKeyed(Durable(root.tables), root.log);
    if expected == Some(DigestOf(l)) && VerifyPasses(root, expected) {
      DigestInjective(LogicalOf(root), l);
      DigestInjective(Logical(Durable(root.tables), LogicalOf(root).deleted), l);
    }
  }

  lemma {:induction false} LogicalIsSane(root: Root)
    requires root.Valid()
    ensures Keyed(LogicalOf(root).records) && "" !in LogicalOf(root).deleted
    ensures LogicalOf(root).records.Keys !! LogicalOf(root).deleted
    ensures forall id :: id in LogicalOf(root).records ==> LogicalOf(root).records[id].Valid()
  {
    hide Replay, Durable, LastOp;
    DurableKeyed(root.tables);
    ReplayKeyed(Durable(root.tables), root.log);
    forall id
      ensures !(id in LogicalOf(root).records && id in LogicalOf(root).deleted)
      ensures id in LogicalOf(root).deleted ==> id != ""
      ensures id in LogicalOf(root).records ==> LogicalOf(root).records[id].Valid()
    {
      LastOperationDecides(Durable(root.tables), root.log, id);
      LastOpValid(root.log, id);
      DurableFrom(root.tables, id);
    }
  }

  lemma {:induction false} LastOpValid(log: seq<Payload>, id: string)
    ensures LastOp(log, id).Some? ==> id != ""
    ensures LastOp(log, id).Some? && LastOp(log, id).value.Upsert? ==> LastOp(log, id).value.rec.Valid()
  {
    if log != [] {
      ParsedOpsAreValid(log[|log| - 1]);
      LastOpValid(log[..|log| - 1], id);
    }
  }

  lemma {:induction false} DurableFrom(tables: seq<Table>, id: string)
    ensures id in Durable(tables) ==> exists t :: t in tables && Durable(tables)[id] in t
  {
    if tables != [] {
      var n := |tables| - 1;
      DurableFrom(tables[..n], id);
      TableMapFrom(tables[n], id);
      assert tables[n] in tables;
    }
  }

  datatype ShardExport = ShardExport(records: seq<Record>, deletedIds: seq<string>, digest: Digest) {
    ghost function Content(): Logical {
      Logical(TableMap(records), set id | id in deletedIds)
    }

    ghost predicate Valid() {
      && DistinctIds(records) && DistinctBy(Self, deletedIds) && "" !in deletedIds
      && (forall r :: r in records ==> r.Valid() && r.id !in deletedIds)
      && digest == DigestOf(Content())
    }
  }

  datatype VerificationError = DigestMismatch(expected: Digest, actual: Digest)

  /** Where each node keeps its data: an explicit directory, else one under the default. */
  datatype Layout = Layout(baseDirs: map<string, string>, defaultDir: string) {
    function Dir(node: string): string {
      if node in baseDirs then baseDirs[node] else defaultDir + "/" + node
    }

    /** No two nodes share a directory. */
    ghost predicate Separate() {
      forall a, b :: a != b ==> Dir(a) != Dir(b)
    }
  }

  /** An explicit directory wins over the default one, so nodes are kept apart exactly when no two were given the
      same directory and none was given the default one of another. */
  lemma SeparateIff(l: Layout)
    ensures l.Separate() <==>
      && (forall a, b :: a in l.baseDirs && b in l.baseDirs && a != b ==> l.baseDirs[a] != l.baseDirs[b])
      && (forall a, b :: a in l.baseDirs && b !in l.baseDirs ==> l.baseDirs[a] != l.defaultDir + "/" + b)
  {
    forall a: string, b: string | a != b ensures l.defaultDir + "/" + a != l.defaultDir + "/" + b {
      var x, y := l.defaultDir + "/" + a, l.defaultDir + "/" + b;
      assert x[|l.defaultDir| + 1..] == a && y[|l.defaultDir| + 1..] == b;
    }
    if l.Separate() {
      forall a, b | a in l.baseDirs && b in l.baseDirs && a != b ensures l.baseDirs[a] != l.baseDirs[b] {
        assert l.Dir(a) != l.Dir(b);
      }
      forall a, b | a in l.baseDirs && b !in l.baseDirs ensures l.baseDirs[a] != l.defaultDir + "/" + b {
        assert l.Dir(a) != l.Dir(b);
      }
    }
  }

  /** Storage by directory and shard id. */
  type Storage = map<(string, string), Root>

  function StoredRoot(roots: Storage, dir: string, shard: string): Root {
    if (dir, shard) in roots then roots[(dir, shard)] else EmptyRoot
  }

  /** Per-node storage roots. */
  class ShardTransferProvider {
    const layout: Layout
    const threshold: nat
    var roots: Storage

    constructor (layout: Layout, threshold: nat)
      ensures this.layout == layout && this.threshold == threshold && roots == map[]
    {
      this.layout, this.threshold := layout, threshold;
      roots := map[];
    }

    function RootAt(node: string, shard: string): Root
      reads this
    {
      StoredRoot(roots, layout.Dir(node), shard)
    }

    ghost predicate Valid()
      reads this
    {
      forall k :: k in roots ==> roots[k].Valid()
    }

    /** Recover the source's durable state and package it with its digest. */
    method ExportShard(node: string, shard: string) returns (e: ShardExport)
      requires Valid()
      ensures e.Valid() && e.Content() == LogicalOf(RootAt(node, shard))
    {
      var root := RootAt(node, shard);
      var segments := new SegmentStore(root.tables, threshold);
      var result := Recover(root.log, segments);
      e := ShardExport(result.records, result.deletedIds, ComputeDigest(result.records, result.deletedIds));
      ExportIsValid(root, result);
    }

    method DiscardTarget(node: string, shard: string)
      requires Valid()
      modifies this
      ensures Valid() && roots == old(roots) - {(layout.Dir(node), shard)}
    {
      roots := roots - {(layout.Dir(node), shard)};
    }

    method FinalizeSource(node: string, shard: string)
      requires Valid()
      modifies this
      ensures Valid() && roots == old(roots) - {(layout.Dir(node), shard)}
    {
      roots := roots - {(layout.Dir(node), shard)};
    }

    /** What an operation that raised half-way left of a root. */
    method Leave(node: string, shard: string, left: Option<Root>)
      requires Valid() && (left.Some? ==> left.value.Valid())
      modifies this
      ensures Valid()
      ensures roots == match left {
        case None => old(roots) - {(layout.Dir(node), shard)}
        case Some(root) => old(roots)[(layout.Dir(node), shard) := root] }
    {
      match left
      case None => roots := roots - {(layout.Dir(node), shard)};
      case Some(root) => roots := roots[(layout.Dir(node), shard) := root];
    }

    /** Reset the target, write records then tombstones, flush. */
    method ImportShard(node: string, shard: string, e: ShardExport)
      requires Valid() && e.Valid()
      modifies this
      ensures Valid() && IsImage(RootAt(node, shard), e.Content())
      ensures roots == old(roots)[(layout.Dir(node), shard) := RootAt(node, shard)]
    {
      hide SortBy, Durable, TableMap, DigestOf;
      var records := SortBy(IdOf, e.records);
      var deleted := SortBy(Self, e.deletedIds);
      SortedExport(e);
      DiscardTarget(node, shard);
      var log, tables := WriteRecords(records);
      for i := 0 to |deleted|
        invariant log == Envelopes(records) + Tombstones(deleted[..i])
      {
        assert deleted[..i + 1][..i] == deleted[..i];
        log := log + [Tombstone(deleted[i])];
      }
      assert deleted[..|deleted|] == deleted;
      var root := Root(log, tables);
      ImportIsImage(e, root);
      roots := roots[(layout.Dir(node), shard) := root];
    }

    /** Each record goes to the segment store and to the log; the store is flushed at the end. */
    method WriteRecords(records: seq<Record>) returns (log: seq<Payload>, tables: seq<Table>)
      requires forall r :: r in records ==> r.Valid()
      ensures log == Envelopes(records)
      ensures Durable(tables) == TableMap(records)
      ensures Root(log, tables).Valid()
    {
      var segments := new SegmentStore([], threshold);
      log := [];
      assert records[..0] == [];
      StoredNothing();
      hide Stored, TableMap, Durable, DistinctIds, IsSnapshot;
      for i := 0 to |records|
        invariant fresh(segments) && fresh(segments.memtable) && segments.Valid()
        invariant log == Envelopes(records[..i])
        invariant Stored(segments.memtable.data, segments.sstables, records[..i])
      {
        ghost var tables0, mem0 := segments.sstables, segments.memtable.data;
        segments.Put(records[i]);
        StoredPut(mem0, tables0, records[..i], records[i], segments.memtable.data, segments.sstables);
        NextPrefix(records, i);
        log := log + [EnvelopeUpsert(records[i])];
      }
      assert records[..|records|] == records;
      ghost var tables0, mem0 := segments.sstables, segments.memtable.data;
      segments.Flush();
      tables := segments.sstables;
      StoredFlush(mem0, tables0, records, tables);
    }

    /** Recover the target and compare both its digests with the expected one. */
    method VerifyShard(node: string, shard: string, expected: Option<Digest>) returns (r: Result<Digest, VerificationError>)
      requires Valid()
      ensures r.Success? <==> VerifyPasses(RootAt(node, shard), expected)
      ensures r.Success? ==> r.value == DigestOf(LogicalOf(RootAt(node, shard)))
    {
      var root := RootAt(node, shard);
      var segments := new SegmentStore(root.tables, threshold);
      var result := Recover(root.log, segments);
      ExportIsValid(root, result);
      var actual := ComputeDigest(result.records, result.deletedIds);
      var latest := segments.DurableRecordsById();
      DurableKeyed(segments.sstables);
      var none, listed := Collect(map[], latest);
      ComputeDigestCorrect(none, result.deletedIds);
      var durable := ComputeDigest(none, result.deletedIds);
      if expected.Some? && (actual != expected.value || durable != expected.value) {
        return Failure(DigestMismatch(expected.value, actual));
      }
      r := Success(actual);
    }
  }

  lemma ExportIsValid(root: Root, result: RecoveryResult)
    requires root.Valid()
    requires ResultState(result) == LogicalOf(root)
    requires DistinctIds(result.records) && AscendingBy(Self, result.deletedIds)
    ensures DistinctBy(Self, result.deletedIds)
    ensures ComputeDigest(result.records, result.deletedIds) == DigestOf(LogicalOf(root))
    ensures ShardExport(result.records, result.deletedIds, ComputeDigest(result.records, result.deletedIds)).Valid()
  {
    hide TableMap, Durable, Replay, SortBy, DigestOf;
    forall i, j | 0 <= i < j < |result.deletedIds| ensures result.deletedIds[i] != result.deletedIds[j] {
      LessTotal(Self(result.deletedIds[i]), Self(result.deletedIds[j]));
    }
    ComputeDigestCorrect(result.records, result.deletedIds);
    LogicalIsSane(root);
    assert forall id :: id in ResultState(result).deleted <==> id in result.deletedIds;
    forall r | r in result.records ensures r.Valid() && r.id !in result.deletedIds {
      var i :| 0 <= i < |result.records| && result.records[i] == r;
      TableMapAt(result.records, i);
    }
  }

  lemma SortedExport(e: ShardExport)
    requires e.Valid()
    ensures var records, deleted := SortBy(IdOf, e.records), SortBy(Self, e.deletedIds);
      && DistinctIds(records) && TableMap(records) == TableMap(e.records)
      && (forall r :: r in records <==> r in e.records) && (forall id :: id in deleted <==> id in e.deletedIds)
  {
    var records := SortBy(IdOf, e.records);
    SortByCorrect(IdOf, e.records);
    SortByCorrect(Self, e.deletedIds);
    forall r ensures r in records <==> r in e.records {
      assert r in records <==> r in multiset(records);
    }
    forall id ensures id in SortBy(Self, e.deletedIds) <==> id in e.deletedIds {
      assert id in SortBy(Self, e.deletedIds) <==> id in multiset(SortBy(Self, e.deletedIds));
    }
    AscendingIsDistinct(records);
    SameRowsSameMap(records, e.records);
  }

  lemma SameRowsSameMap(s: seq<Record>, t: seq<Record>)
    requires DistinctIds(s) && DistinctIds(t) && forall r :: r in s <==> r in t
    ensures TableMap(s) == TableMap(t)
  {
    hide TableMap;
    SubRows(s, t);
    SubRows(t, s);
  }

  lemma SubRows(s: seq<Record>, t: seq<Record>)
    requires DistinctIds(t) && forall r :: r in s ==> r in t
    ensures forall id :: id in TableMap(s) ==> id in TableMap(t) && TableMap(s)[id] == TableMap(t)[id]
  {
    hide TableMap;
    forall id | id in TableMap(s) ensures id in TableMap(t) && TableMap(s)[id] == TableMap(t)[id] {
      TableMapFrom(s, id);
      var r := TableMap(s)[id];
      var i :| 0 <= i < |t| && t[i] == r;
      TableMapAt(t, i);
    }
  }

  lemma FlushedTable(tables: seq<Table>, mem: map<string, Record>, tables': seq<Table>)
    requires |tables'| == |tables| + 1 && tables'[..|tables|] == tables && IsSnapshot(mem, tables'[|tables|])
    requires forall id :: id in mem ==> mem[id].Valid()
    ensures Durable(tables') == Durable(tables) + mem
    ensures forall r :: r in tables'[|tables|] ==> r.Valid()
  {
    var t := tables'[|tables|];
    assert tables' == tables + [t];
    DurableAppend(tables, t);
    forall r | r in t ensures r.Valid() {
      var i :| 0 <= i < |t| && t[i] == r;
      TableMapAt(t, i);
    }
  }

  /** The store holds these records, spread over its tables and its MemTable. */
  ghost predicate Stored(mem: map<string, Record>, tables: seq<Table>, records: seq<Record>) {
    && Durable(tables) + mem == TableMap(records)
    && (forall id :: id in mem ==> mem[id].Valid())
    && (forall t :: t in tables ==> DistinctIds(t) && forall r :: r in t ==> r.Valid())
  }

  lemma StoredNothing()
    ensures Stored(map[], [], [])
  {
  }

  lemma NextPrefix(records: seq<Record>, i: nat)
    requires i < |records|
    ensures records[..i + 1] == records[..i] + [records[i]]
    ensures Envelopes(records[..i + 1]) == Envelopes(records[..i]) + [EnvelopeUpsert(records[i])]
  {
    assert records[..i + 1][..i] == records[..i];
  }

  lemma StoredFlush(mem: map<string, Record>, tables: seq<Table>, records: seq<Record>, tables': seq<Table>)
    requires Stored(mem, tables, records)
    requires mem == map[] ==> tables' == tables
    requires mem != map[] ==>
      |tables'| == |tables| + 1 && tables'[..|tables|] == tables && IsSnapshot(mem, tables'[|tables|])
    ensures Durable(tables') == TableMap(records)
    ensures forall t :: t in tables' ==> DistinctIds(t) && forall r :: r in t ==> r.Valid()
  {
    hide TableMap, Durable;
    if mem != map[] {
      FlushedTable(tables, mem, tables');
    }
  }

  lemma StoredPut(mem: map<string, Record>, tables: seq<Table>, records: seq<Record>, r: Record,
                  mem': map<string, Record>, tables': seq<Table>)
    requires Stored(mem, tables, records) && r.Valid()
    requires (mem' == mem[r.id := r] && tables' == tables)
          || (mem' == map[] && |tables'| == |tables| + 1 && tables'[..|tables|] == tables
              && IsSnapshot(mem[r.id := r], tables'[|tables|]))
    ensures Stored(mem', tables', records + [r])
  {
    hide TableMap, Durable, DistinctIds;
    TableMapAppend(records, r);
    if mem' == map[] && |tables'| == |tables| + 1 {
      FlushedTable(tables, mem[r.id := r], tables');
    }
  }

  lemma ImportIsImage(e: ShardExport, root: Root)
    requires e.Valid() && root.Valid()
    requires root.log == Envelopes(SortBy(IdOf, e.records)) + Tombstones(SortBy(Self, e.deletedIds))
    requires Durable(root.tables) == TableMap(SortBy(IdOf, e.records))
    ensures IsImage(root, e.Content())
  {
    hide TableMap, Durable, Replay, SortBy, Envelopes, Tombstones;
    SortedExport(e);
    var records, deleted := SortBy(IdOf, e.records), SortBy(Self, e.deletedIds);
    ReplayEnvelopes(Durable(root.tables), records);
    ReplayTombstones(Durable(root.tables), Envelopes(records), deleted);
    var m := TableMap(records);
    assert (set id | id in deleted) == (set id | id in e.deletedIds);
    forall id | id in m ensures id !in deleted {
      TableMapFrom(records, id);
    }
    assert m + m == m && m - (set id | id in deleted) == m;
  }
}
