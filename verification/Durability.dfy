/** How the layers meet: log bytes under a context, contexts over a root, a root under the
    migration protocol. */
module Durability {
  import opened Wrappers
  import opened Crc32
  import Wal
  import opened Records
  import opened Segments
  import opened Recovery
  import opened Ingest
  import opened ShardOnDisk
  import opened Transfer

  /** Cut the single log file of a context at any byte behind its last flush, and what the next
      process reads is the context restarted with some number of whole entries kept. */
  lemma CutFileIsARestart(s: Setup, es: seq<Wal.Entry>, c: Ctx, k: nat)
    requires Wal.AllValid(es) && Payloads(s, es) == c.log && c.synced <= |es|
    requires |Wal.Encode(es[..c.synced])| <= k <= |Wal.Encode(es)|
    ensures var n := Wal.Fitting(es, k);
      && Enabled(c, Restart(n))
      && Reopen(Payloads(s, Wal.Parse(Wal.Encode(es)[..k])), c.tables) == Step(c, Restart(n))
  {
    hide Wal.Parse, Wal.Frame, Reopen;
    Wal.CutReadsWholeFrames(es, k);
    Wal.FittingIsMaximal(es, k);
    var n := Wal.Fitting(es, k);
    if n < c.synced {
      EncodeGrows(es, n + 1, c.synced);
    }
    assert Payloads(s, es[..n]) == c.log[..n];
  }

  lemma EncodeGrows(es: seq<Wal.Entry>, m: nat, n: nat)
    requires m <= n <= |es|
    ensures |Wal.Encode(es[..m])| <= |Wal.Encode(es[..n])|
  {
    hide Wal.Encode;
    assert es[..n] == es[..m] + es[m..n];
    Wal.EncodeConcat(es[..m], es[m..n]);
  }

  ghost function RootOf(c: Ctx): Root {
    Root(c.log, c.tables)
  }

  lemma TruthIsLogical(c: Ctx, id: string)
    ensures Truth(c, id) == Find(LogicalOf(RootOf(c)).records, id)
  {
    LastOperationDecides(Durable(c.tables), c.log, id);
  }

  /** A write does to the root's content what the operation says, and nothing else in a
      process's life changes that content: not a flush, a sync, a clean restart, or a crash while an
      SSTable is written. */
  lemma ContextStepOnContent(c: Ctx, e: Event)
    requires Inv(c) && Enabled(c, e)
    requires e.Restart? || e.CrashInFlush? ==> e.kept == |c.log|
    requires e.Remove? ==> e.id != ""
    ensures var l, l' := LogicalOf(RootOf(c)), LogicalOf(RootOf(Step(c, e)));
      match e
      case Write(r) => l' == Apply(l, Upsert(r))
      case Remove(id) => l' == Apply(l, Delete(id))
      case _ => l' == l
  {
    match e
    case Write(r) =>
      hide ParsePayload, RawUpsert, Replay;
      PayloadRoundTrip(r, "");
      ReplayAppend(Durable(c.tables), c.log, RawUpsert(r));
    case Remove(id) =>
      hide ParsePayload, Tombstone, Replay;
      PayloadRoundTrip(Record("x", 1, "", Null), id);
      ReplayAppend(Durable(c.tables), c.log, Tombstone(id));
    case FlushTable(snap) => FlushKeepsContent(c, snap);
    case Sync =>
    case Restart(kept) => assert c.log[..kept] == c.log;
    case CrashInFlush(kept, part) =>
      CrashInFlushKeepsInv(c, kept, part);
      NothingLogged("");
      assert c.log[..kept] == c.log && c.log[kept..] == [];
      forall id ensures Truth(Step(c, e), id) == Truth(c, id) {
        NothingLogged(id);
      }
      ReopenHas(c.log, c.tables + [part]);
      SameTruthSameContent(c, Step(c, e));
  }

  lemma FlushKeepsContent(c: Ctx, snap: Table)
    requires Inv(c) && IsSnapshot(c.mem, snap)
    ensures LogicalOf(RootOf(Step(c, FlushTable(snap)))) == LogicalOf(RootOf(c))
  {
    FlushKeepsInv(c, snap);
    hide LogicalOf, Durable, LastOp, Inv;
    SameTruthSameContent(c, Step(c, FlushTable(snap)));
  }

  /** The log and the truth about every id determine the content. */
  lemma SameTruthSameContent(c: Ctx, c': Ctx)
    requires c'.log == c.log && forall id :: Truth(c', id) == Truth(c, id)
    ensures LogicalOf(RootOf(c')) == LogicalOf(RootOf(c))
  {
    var l, l' := LogicalOf(RootOf(c)), LogicalOf(RootOf(c'));
    hide LogicalOf, Durable, LastOp, Truth;
    forall id
      ensures Find(l.records, id) == Find(l'.records, id) && (id in l.deleted <==> id in l'.deleted)
    {
      TruthIsLogical(c, id);
      TruthIsLogical(c', id);
      DeletedByLog(c, id);
      DeletedByLog(c', id);
    }
    SameFinds(l.records, l'.records);
    assert l.deleted == l'.deleted;
  }

  lemma DeletedByLog(c: Ctx, id: string)
    ensures id in LogicalOf(RootOf(c)).deleted <==> LastOp(c.log, id) == Some(Delete(id))
  {
    LastOperationDecides(Durable(c.tables), c.log, id);
  }

  lemma SameFinds(m: map<string, Record>, m': map<string, Record>)
    requires forall id :: Find(m, id) == Find(m', id)
    ensures m == m'
  {
    forall id ensures id in m <==> id in m' {
      assert Find(m, id) == Find(m', id);
    }
    forall id | id in m ensures m[id] == m'[id] {
      assert Find(m, id) == Find(m', id);
    }
  }

  /** What an export of the shard's files would find. */
  ghost function RootOnDisk(s: Setup, d: Disk): Root {
    Root(Payloads(s, Wal.ReadFiles(d.files)), d.tables)
  }

  /** An acknowledged operation of a process whose log takes appends does to the content on disk what
      the operation says. This is what the migration protocol takes a write to be. */
  lemma AcknowledgedWriteChangesContent(s: Setup, d: Disk, e: DiskEvent)
    requires WellFormed(d) && d.buffer == [] && Possible(s, d, e) && Logs(e) && (e.Deleting? ==> e.id != "")
    requires Wal.Sane(d.files, d.open) && Inv(View(s, d))
    ensures var d' := After(s, After(s, d, e), Syncing);
      && d'.buffer == []
      && LogicalOf(RootOnDisk(s, d'))
         == Apply(LogicalOf(RootOnDisk(s, d)), if e.Upserting? then Upsert(e.rec) else Delete(e.id))
  {
    hide LogicalOf, Wal.ReadFiles, Wal.Sane, Wal.WriteAll, Inv, RootOnDisk, View, RootOf, After, Enabled, Step, Possible, IsSnapshot;
    var d1 := After(s, d, e);
    StaysWellFormed(s, d, e);
    StepIsLogical(s, d, e);
    StepKeepsInv(View(s, d), Seen(d, e));
    ContextStepOnContent(View(s, d), Seen(d, e));
    LoggedStillTakes(s, d, e);
    StepIsLogical(s, d1, Syncing);
    ContextStepOnContent(View(s, d1), Sync);
    RootIsViewed(s, d);
    RootIsViewed(s, After(s, d1, Syncing));
  }

  lemma LoggedStillTakes(s: Setup, d: Disk, e: DiskEvent)
    requires WellFormed(d) && Possible(s, d, e) && Logs(e) && Wal.Sane(d.files, d.open)
    ensures var d1 := After(s, d, e);
      Takes(d1) && WellFormed(d1) && Possible(s, d1, Syncing) && After(s, d1, Syncing).buffer == []
  {
    hide Wal.Sane, Wal.WriteAll;
  }

  lemma RootIsViewed(s: Setup, d: Disk)
    requires d.buffer == []
    ensures RootOf(View(s, d)) == RootOnDisk(s, d)
  {
    hide Wal.ReadFiles;
    var read := Payloads(s, Wal.ReadFiles(d.files));
    assert read + Payloads(s, []) == read;
  }

  /** A node that opens an imported shard serves the exported records themselves, with
      nothing left to recover from the log. */
  lemma ImportedShardServesTheExport(root: Root, l: Logical, id: string)
    requires IsImage(root, l)
    ensures Served(Reopen(root.log, root.tables), id) == Find(l.records, id)
    ensures Reopen(root.log, root.tables).mem == map[]
  {
    hide Durable, Replay;
    LogicalIsSane(root);
    assert Recovered(l.records, l.records) == map[];
    assert id in l.deleted ==> id !in l.records;
  }
}
