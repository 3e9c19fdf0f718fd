/** Startup recovery: SSTable snapshot plus chronological WAL replay. */
module Recovery {
  import opened Wrappers
  import opened Records
  import opened Segments
  import opened Ordering

  /** The logical content of a shard: its records by id and the ids it has tombstones for. */
  datatype Logical = Logical(records: map<string, Record>, deleted: set<string>)

  function Apply(l: Logical, op: Op): Logical {
    match op
    case Upsert(r) => Logical(l.records[r.id := r], l.deleted - {r.id})
    case Delete(id) => Logical(l.records - {id}, l.deleted + {id})
  }

  /** The log applied oldest entry first; unparseable entries are skipped. */
  function Replay(start: map<string, Record>, log: seq<Payload>): Logical {
    if log == [] then Logical(start, {})
    else
      var l := Replay(start, log[..|log| - 1]);
      match ParsePayload(log[|log| - 1])
      case Some(op) => Apply(l, op)
      case None => l
  }

  /** The last operation the log holds for an id. */
  function LastOp(log: seq<Payload>, id: string): (op: Option<Op>)
    ensures op.Some? ==> op.value.Target() == id
  {
    if log == [] then None
    else
      match ParsePayload(log[|log| - 1])
      case Some(op) => if op.Target() == id then Some(op) else LastOp(log[..|log| - 1], id)
      case None => LastOp(log[..|log| - 1], id)
  }

  function Resolve(op: Option<Op>, base: Option<Record>): Option<Record> {
    match op
    case None => base
    case Some(Upsert(r)) => Some(r)
    case Some(Delete(_)) => None
  }

  /** For every id the log mentions, its last operation alone decides; the SSTables
      decide only for the others. Records and tombstones never overlap. */
  lemma {:induction false} LastOperationDecides(start: map<string, Record>, log: seq<Payload>, id: string)
    ensures Find(Replay(start, log).records, id) == Resolve(LastOp(log, id), Find(start, id))
    ensures id in Replay(start, log).deleted <==> LastOp(log, id) == Some(Delete(id))
    ensures !(id in Replay(start, log).records && id in Replay(start, log).deleted)
  {
    if log != [] {
      LastOperationDecides(start, log[..|log| - 1], id);
    }
  }

  lemma {:induction false} ReplayKeyed(start: map<string, Record>, log: seq<Payload>)
    requires Keyed(start)
    ensures Keyed(Replay(start, log).records)
  {
    if log != [] {
      ReplayKeyed(start, log[..|log| - 1]);
    }
  }

  lemma LastOpAppend(log: seq<Payload>, p: Payload, id: string)
    ensures LastOp(log + [p], id) ==
            if ParsePayload(p).Some? && ParsePayload(p).value.Target() == id then ParsePayload(p) else LastOp(log, id)
  {
    assert (log + [p])[..|log|] == log;
  }

  lemma ReplayAppend(start: map<string, Record>, log: seq<Payload>, p: Payload)
    ensures Replay(start, log + [p]) ==
            match ParsePayload(p) { case Some(op) => Apply(Replay(start, log), op) case None => Replay(start, log) }
  {
    assert (log + [p])[..|log|] == log;
  }

  lemma {:induction false} LastOpConcat(a: seq<Payload>, b: seq<Payload>, id: string)
    ensures LastOp(a + b, id) == if LastOp(b, id).Some? then LastOp(b, id) else LastOp(a, id)
  {
    if b == [] {
      assert a + b == a;
    } else {
      LastOpConcat(a, b[..|b| - 1], id);
      assert a + b == (a + b[..|b| - 1]) + [b[|b| - 1]];
      LastOpAppend(a + b[..|b| - 1], b[|b| - 1], id);
    }
  }

  /** What recovery puts back in the MemTable: the final records that no table has, or has with
      another version or another checksum. */
  ghost function Recovered(start: map<string, Record>, records: map<string, Record>): map<string, Record> {
    map id | id in records
             && (id !in start || start[id].version != records[id].version || start[id].checksum != records[id].checksum)
      :: records[id]
  }

  datatype RecoveryResult = RecoveryResult(
    records: seq<Record>, deletedIds: seq<string>, recoveredFromWal: nat, walEntriesRead: nat)

  /** The lists a recovery returns, read as a logical state. */
  ghost function ResultState(r: RecoveryResult): Logical {
    Logical(TableMap(r.records), set id | id in r.deletedIds)
  }

  method ReplayLog(sstable: map<string, Record>, log: seq<Payload>)
    returns (records: map<string, Record>, tombstones: set<string>)
    ensures Logical(records, tombstones) == Replay(sstable, log)
  {
    records, tombstones := sstable, {};
    for i := 0 to |log|
      invariant Logical(records, tombstones) == Replay(sstable, log[..i])
    {
      assert log[..i + 1][..i] == log[..i];
      match ParsePayload(log[i])
      case None =>
      case Some(Delete(id)) =>
        tombstones := tombstones + {id};
        records := records - {id};
      case Some(Upsert(rec)) =>
        tombstones := tombstones - {rec.id};
        records := records[rec.id := rec];
    }
    assert log[..|log|] == log;
  }

  /** The values of the final dict, and those among them no SSTable represents. */
  method Collect(sstable: map<string, Record>, records: map<string, Record>)
    returns (listed: seq<Record>, recovered: seq<Record>)
    requires Keyed(records)
    ensures IsSnapshot(records, listed)
    ensures IsSnapshot(Recovered(sstable, records), recovered)
    ensures |recovered| == |Recovered(sstable, records)|
  {
    ghost var target := Recovered(sstable, records);
    EmptySnapshot();
    RemoveAll(records, records.Keys);
    RemoveAll(target, records.Keys);
    hide IsSnapshot, Recovered;
    listed, recovered := [], [];
    var rest := records.Keys;
    while rest != {}
      invariant rest <= records.Keys
      invariant IsSnapshot(records - rest, listed)
      invariant IsSnapshot(target - rest, recovered)
      decreases |rest|
    {
      var id :| id in rest;
      CollectOne(sstable, records, rest, id, listed, recovered);
      listed := listed + [records[id]];
      if id !in sstable || (sstable[id].version, sstable[id].checksum) != (records[id].version, records[id].checksum) {
        recovered := recovered + [records[id]];
      }
      rest := rest - {id};
    }
    assert target - {} == target && records - {} == records;
    SnapshotSize(target, recovered);
  }

  lemma RemoveAll(m: map<string, Record>, ids: set<string>)
    requires m.Keys <= ids
    ensures m - ids == map[]
  {
  }

  lemma CollectOne(start: map<string, Record>, records: map<string, Record>, rest: set<string>, id: string,
                   listed: seq<Record>, recovered: seq<Record>)
    requires Keyed(records) && id in records && id in rest
    requires IsSnapshot(records - rest, listed) && IsSnapshot(Recovered(start, records) - rest, recovered)
    ensures IsSnapshot(records - (rest - {id}), listed + [records[id]])
    ensures IsSnapshot(Recovered(start, records) - (rest - {id}),
                       if id in Recovered(start, records) then recovered + [records[id]] else recovered)
  {
    hide IsSnapshot;
    var target := Recovered(start, records);
    SnapshotExtend(records, rest, listed, id);
    if id in target {
      SnapshotExtend(target, rest, recovered, id);
    } else {
      assert target - (rest - {id}) == target - rest;
    }
  }

  method PutAll(memtable: MemTable, rs: seq<Record>)
    requires memtable.Valid()
    modifies memtable
    ensures memtable.Valid() && memtable.data == old(memtable.data) + TableMap(rs)
  {
    hide TableMap;
    assert TableMap(rs[..0]) == map[] by { EmptySnapshot(); assert rs[..0] == []; }
    for i := 0 to |rs|
      invariant memtable.Valid() && memtable.data == old(memtable.data) + TableMap(rs[..i])
    {
      assert rs[..i + 1] == rs[..i] + [rs[i]];
      TableMapAppend(rs[..i], rs[i]);
      memtable.Put(rs[i]);
    }
    assert rs[..|rs|] == rs;
  }

  method Recover(log: seq<Payload>, segments: SegmentStore) returns (result: RecoveryResult)
    requires segments.Valid()
    modifies segments.memtable
    ensures segments.Valid()
    ensures ResultState(result) == Replay(Durable(segments.sstables), log)
    ensures DistinctIds(result.records) && AscendingBy(Self, result.deletedIds)
    ensures var missing := Recovered(Durable(segments.sstables), Replay(Durable(segments.sstables), log).records);
            && segments.memtable.data == old(segments.memtable.data) + missing
            && result.recoveredFromWal == |missing|
    ensures result.walEntriesRead == |log|
  {
    var sstable := segments.DurableRecordsById();
    DurableKeyed(segments.sstables);
    var records, tombstones := ReplayLog(sstable, log);
    ReplayKeyed(sstable, log);
    var listed, recovered := Collect(sstable, records);
    PutAll(segments.memtable, recovered);
    var deleted := SortedSet(tombstones);
    result := RecoveryResult(listed, deleted, |recovered|, |log|);
    assert (set id | id in result.deletedIds) == tombstones;
  }
}
