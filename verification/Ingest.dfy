/** One shard's write path, its restarts and crashes, refined to a plain map. */
module Ingest {
  import opened Wrappers
  import opened Records
  import opened Segments
  import opened Recovery
  import opened Ordering

  /** The state of a shard whose log is read in the order of its appends. The log is the list of
      its payloads, of which the first `synced` are on disk; the MemTable and the tombstones are in
      memory only. When a log in segment files is such a log is the matter of `ShardOnDisk`. */
  datatype Ctx = Ctx(
    log: seq<Payload>, synced: nat, tables: seq<Table>, mem: map<string, Record>, tombs: set<string>)

  /** What `fetch` serves for an id. */
  ghost function Served(c: Ctx, id: string): Option<Record> {
    if id in c.tombs then None else StoreGet(c.mem, c.tables, id)
  }

  /** What the durable pieces say the id should be. */
  ghost function Truth(c: Ctx, id: string): Option<Record> {
    Resolve(LastOp(c.log, id), Find(Durable(c.tables), id))
  }

  /** `Restart(kept)` is a process that died with the first `kept` log entries on disk and a
      new one that recovered from them; a clean shutdown keeps the whole log. `CrashInFlush` is one
      that died while it wrote an SSTable, of which some first lines are on disk. */
  datatype Event =
    | Write(rec: Record)
    | Remove(id: string)
    | FlushTable(snap: Table)
    | Sync
    | Restart(kept: nat)
    | CrashInFlush(kept: nat, part: Table)

  ghost predicate Enabled(c: Ctx, e: Event) {
    match e
    case Write(r) => r.Valid()
    case Remove(_) => true
    case FlushTable(snap) => IsSnapshot(c.mem, snap)
    case Sync => true
    case Restart(kept) => c.synced <= kept <= |c.log|
    case CrashInFlush(kept, part) => c.synced <= kept <= |c.log| && exists snap :: IsSnapshot(c.mem, snap) && part <= snap
  }

  /** A fresh process over what is on disk. */
  ghost function Reopen(log: seq<Payload>, tables: seq<Table>): Ctx {
    var final := Replay(Durable(tables), log);
    Ctx(log, |log|, tables, Recovered(Durable(tables), final.records), final.deleted)
  }

  ghost function Step(c: Ctx, e: Event): Ctx
    requires Enabled(c, e)
  {
    match e
    case Write(r) => c.(log := c.log + [RawUpsert(r)], tombs := c.tombs - {r.id}, mem := c.mem[r.id := r])
    case Remove(id) => c.(log := c.log + [Tombstone(id)], tombs := c.tombs + {id}, mem := c.mem - {id})
    case FlushTable(snap) => if c.mem == map[] then c else c.(tables := c.tables + [snap], mem := map[])
    case Sync => c.(synced := |c.log|)
    case Restart(kept) => Reopen(c.log[..kept], c.tables)
    case CrashInFlush(kept, part) => Reopen(c.log[..kept], c.tables + [part])
  }

  ghost const Empty: Ctx := Ctx([], 0, [], map[], {})

  /** The invariant of every reachable context: what it serves agrees, up to
      (version, checksum), with what its durable pieces say. */
  ghost predicate Inv(c: Ctx) {
    && c.synced <= |c.log|
    && (forall t :: t in c.tables ==> DistinctIds(t))
    && Keyed(c.mem)
    && "" !in Durable(c.tables)
    && (forall id :: id in c.mem ==> LastOp(c.log, id).Some?)
    && (forall id :: id != "" ==> (id in c.tombs <==> LastOp(c.log, id) == Some(Delete(id))))
    && (forall id :: SameWrite(Served(c, id), Truth(c, id)))
  }

  lemma EmptyIdUnlogged(log: seq<Payload>)
    ensures LastOp(log, "") == None
  {
    if log != [] {
      ParsedOpsAreValid(log[|log| - 1]);
      EmptyIdUnlogged(log[..|log| - 1]);
    }
  }

  lemma WriteKeepsInv(c: Ctx, r: Record)
    requires Inv(c) && r.Valid()
    ensures Inv(Step(c, Write(r)))
    ensures forall id :: Truth(Step(c, Write(r)), id) == if id == r.id then Some(r) else Truth(c, id)
  {
    hide LastOp, Durable, ParsePayload, RawUpsert;
    var c' := Step(c, Write(r));
    PayloadRoundTrip(r, "");
    forall id ensures LastOp(c'.log, id) == if id == r.id then Some(Upsert(r)) else LastOp(c.log, id) {
      LastOpAppend(c.log, RawUpsert(r), id);
    }
    forall id ensures SameWrite(Served(c', id), Truth(c', id)) {
      assert SameWrite(Served(c, id), Truth(c, id));
    }
  }

  lemma RemoveKeepsInv(c: Ctx, gone: string)
    requires Inv(c)
    ensures Inv(Step(c, Remove(gone)))
    ensures forall id :: Truth(Step(c, Remove(gone)), id) == if id == gone then None else Truth(c, id)
  {
    hide LastOp, Durable, ParsePayload, Tombstone;
    var c' := Step(c, Remove(gone));
    EmptyIdUnlogged(c.log);
    PayloadRoundTrip(Record("x", 1, "", Null), gone);
    forall id ensures LastOp(c'.log, id) == if id == gone && id != "" then Some(Delete(id)) else LastOp(c.log, id) {
      LastOpAppend(c.log, Tombstone(gone), id);
    }
    forall id ensures SameWrite(Served(c', id), Truth(c', id)) {
      assert SameWrite(Served(c, id), Truth(c, id));
    }
  }

  /** When and in what order a MemTable is flushed is invisible. */
  lemma FlushKeepsInv(c: Ctx, snap: Table)
    requires Inv(c) && IsSnapshot(c.mem, snap)
    ensures Inv(Step(c, FlushTable(snap)))
    ensures forall id :: Truth(Step(c, FlushTable(snap)), id) == Truth(c, id)
    ensures forall id :: Served(Step(c, FlushTable(snap)), id) == Served(c, id)
  {
    hide LastOp, Durable, TableMap;
    EmptyIdUnlogged(c.log);
    var c' := Step(c, FlushTable(snap));
    DurableAppend(c.tables, snap);
    forall id
      ensures Truth(c', id) == Truth(c, id) && Served(c', id) == Served(c, id)
      ensures SameWrite(Served(c', id), Truth(c', id))
    {
      assert SameWrite(Served(c, id), Truth(c, id));
    }
  }

  lemma ReopenAt(log: seq<Payload>, tables: seq<Table>, id: string)
    ensures var c := Reopen(log, tables);
      && (id in c.tombs <==> LastOp(log, id) == Some(Delete(id)))
      && (id in c.mem ==> LastOp(log, id).Some? && Some(c.mem[id]) == Truth(c, id))
      && SameWrite(Served(c, id), Truth(c, id))
  {
    LastOperationDecides(Durable(tables), log, id);
  }

  lemma ReopenKeepsInv(log: seq<Payload>, tables: seq<Table>)
    requires forall t :: t in tables ==> DistinctIds(t)
    requires "" !in Durable(tables)
    ensures Inv(Reopen(log, tables))
  {
    var c := Reopen(log, tables);
    DurableKeyed(tables);
    ReplayKeyed(Durable(tables), log);
    forall id
      ensures id in c.tombs <==> LastOp(log, id) == Some(Delete(id))
      ensures id in c.mem ==> LastOp(log, id).Some?
      ensures SameWrite(Served(c, id), Truth(c, id))
    {
      ReopenAt(log, tables, id);
    }
  }

  /** A restart serves, for every id no lost entry wrote, what was served before it. */
  lemma RestartKeepsInv(c: Ctx, kept: nat)
    requires Inv(c) && c.synced <= kept <= |c.log|
    ensures Inv(Step(c, Restart(kept)))
    ensures forall id :: LastOp(c.log[kept..], id) == None ==> Truth(Step(c, Restart(kept)), id) == Truth(c, id)
  {
    var log := c.log[..kept];
    assert c.log == log + c.log[kept..];
    ReopenKeepsInv(log, c.tables);
    var c' := Step(c, Restart(kept));
    forall id | LastOp(c.log[kept..], id) == None ensures Truth(c', id) == Truth(c, id) {
      LastOpConcat(log, c.log[kept..], id);
    }
  }

  /** The first lines of a snapshot hold nothing the MemTable does not. */
  lemma {:induction false} PartOfSnapshot(snap: Table, part: Table, id: string)
    requires DistinctIds(snap) && part <= snap
    ensures DistinctIds(part)
    ensures id in TableMap(part) ==> id in TableMap(snap)
  {
    TableMapFrom(part, id);
    if id in TableMap(part) {
      var i :| 0 <= i < |part| && part[i] == TableMap(part)[id];
      TableMapHas(snap, i);
    }
  }

  /** A process that dies while it flushes loses nothing the log still has. */
  lemma CrashInFlushKeepsInv(c: Ctx, kept: nat, part: Table)
    requires Inv(c) && Enabled(c, CrashInFlush(kept, part))
    ensures Inv(Step(c, CrashInFlush(kept, part)))
    ensures forall id :: LastOp(c.log[kept..], id) == None ==> Truth(Step(c, CrashInFlush(kept, part)), id) == Truth(c, id)
  {
    var snap :| IsSnapshot(c.mem, snap) && part <= snap;
    var log, tables := c.log[..kept], c.tables + [part];
    assert c.log == log + c.log[kept..];
    DurableAppend(c.tables, part);
    forall id ensures DistinctIds(part) && (id in TableMap(part) ==> id in c.mem) {
      PartOfSnapshot(snap, part, id);
    }
    EmptyIdUnlogged(c.log);
    hide TableMap, Durable, LastOp, Reopen;
    ReopenKeepsInv(log, tables);
    forall id | LastOp(c.log[kept..], id) == None ensures Truth(Step(c, CrashInFlush(kept, part)), id) == Truth(c, id) {
      LastOpConcat(log, c.log[kept..], id);
      ReopenHas(log, tables);
    }
  }

  lemma ReopenHas(log: seq<Payload>, tables: seq<Table>)
    ensures Reopen(log, tables).log == log && Reopen(log, tables).synced == |log| && Reopen(log, tables).tables == tables
  {
  }

  lemma StepKeepsInv(c: Ctx, e: Event)
    requires Inv(c) && Enabled(c, e)
    ensures Inv(Step(c, e))
  {
    match e
    case Write(r) => WriteKeepsInv(c, r);
    case Remove(id) => RemoveKeepsInv(c, id);
    case FlushTable(snap) => FlushKeepsInv(c, snap);
    case Sync =>
      forall id ensures Served(Step(c, e), id) == Served(c, id) && Truth(Step(c, e), id) == Truth(c, id) {}
    case Restart(kept) => RestartKeepsInv(c, kept);
    case CrashInFlush(kept, part) => CrashInFlushKeepsInv(c, kept, part);
  }

  /** A history from a fresh directory: `cs[i]` is the context before event `i`. */
  ghost predicate IsRun(cs: seq<Ctx>, es: seq<Event>) {
    && |cs| == |es| + 1 && cs[0] == Empty
    && forall i :: 0 <= i < |es| ==> Enabled(cs[i], es[i]) && cs[i + 1] == Step(cs[i], es[i])
  }

  lemma {:induction false} RunKeepsInv(cs: seq<Ctx>, es: seq<Event>, i: nat)
    requires IsRun(cs, es) && i <= |es|
    ensures Inv(cs[i])
  {
    if i > 0 {
      RunKeepsInv(cs, es, i - 1);
      StepKeepsInv(cs[i - 1], es[i - 1]);
    }
  }

  ghost predicate Touches(e: Event, id: string) {
    (e.Write? && e.rec.id == id) || (e.Remove? && e.id == id)
  }

  /** No entry for the id is still waiting for a WAL flush. */
  ghost predicate Acknowledged(c: Ctx, id: string)
    requires c.synced <= |c.log|
  {
    LastOp(c.log[c.synced..], id) == None
  }

  lemma NothingLogged(id: string)
    ensures LastOp([], id) == None && Find(Durable([]), id) == None
  {
  }

  lemma StepKeepsAcknowledged(c: Ctx, e: Event, id: string)
    requires Inv(c) && Enabled(c, e) && Acknowledged(c, id) && !Touches(e, id)
    ensures Inv(Step(c, e)) && Acknowledged(Step(c, e), id)
    ensures id != "" ==> Truth(Step(c, e), id) == Truth(c, id)
  {
    NothingLogged(id);
    hide LastOp, Durable, ParsePayload, RawUpsert, Tombstone;
    StepKeepsInv(c, e);
    match e
    case Write(r) =>
      WriteKeepsInv(c, r);
      PayloadRoundTrip(r, "");
      assert Step(c, e).log[c.synced..] == c.log[c.synced..] + [RawUpsert(r)];
      LastOpAppend(c.log[c.synced..], RawUpsert(r), id);
    case Remove(gone) =>
      RemoveKeepsInv(c, gone);
      PayloadRoundTrip(Record("x", 1, "", Null), gone);
      assert Step(c, e).log[c.synced..] == c.log[c.synced..] + [Tombstone(gone)];
      LastOpAppend(c.log[c.synced..], Tombstone(gone), id);
    case FlushTable(snap) => FlushKeepsInv(c, snap);
    case Sync => assert c.log[|c.log|..] == [];
    case Restart(kept) =>
      RestartKeepsInv(c, kept);
      assert c.log[c.synced..] == c.log[c.synced..kept] + c.log[kept..];
      LastOpConcat(c.log[c.synced..kept], c.log[kept..], id);
      assert Step(c, e).synced == kept && c.log[..kept][kept..] == [];
    case CrashInFlush(kept, part) =>
      CrashInFlushKeepsInv(c, kept, part);
      assert c.log[c.synced..] == c.log[c.synced..kept] + c.log[kept..];
      LastOpConcat(c.log[c.synced..kept], c.log[kept..], id);
      assert Step(c, e).synced == kept && c.log[..kept][kept..] == [];
  }

  /** An acknowledged state of an id outlives any flushes, crashes, lost log tails and
      restarts, until the next operation on that id. */
  lemma {:induction false} AcknowledgedStateSurvives(cs: seq<Ctx>, es: seq<Event>, i: nat, j: nat, id: string)
    requires IsRun(cs, es) && i <= j <= |es| && id != ""
    requires cs[i].synced <= |cs[i].log| && Acknowledged(cs[i], id)
    requires forall k :: i <= k < j ==> !Touches(es[k], id)
    ensures Inv(cs[j]) && Acknowledged(cs[j], id)
    ensures Truth(cs[j], id) == Truth(cs[i], id)
    ensures match (Served(cs[j], id), Served(cs[i], id))
      case (Some(r), Some(q)) => r.version == q.version && r.checksum == q.checksum
      case (r, q) => r == None && q == None
  {
    hide LastOp, Durable;
    RunKeepsInv(cs, es, i);
    RunKeepsInv(cs, es, j);
    if i < j {
      AcknowledgedStateSurvives(cs, es, i, j - 1, id);
      StepKeepsAcknowledged(cs[j - 1], es[j - 1], id);
    }
    assert SameWrite(Served(cs[i], id), Truth(cs[i], id));
    assert SameWrite(Served(cs[j], id), Truth(cs[j], id));
  }

  /** The specification of a shard: a plain map from ids to records. */
  ghost function PlainMap(es: seq<Event>): map<string, Record> {
    if es == [] then map[]
    else
      var m := PlainMap(es[..|es| - 1]);
      match es[|es| - 1]
      case Write(r) => m[r.id := r]
      case Remove(id) => m - {id}
      case _ => m
  }

  /** No restart of the history lost a log entry. */
  ghost predicate NothingLost(cs: seq<Ctx>, es: seq<Event>)
    requires |cs| == |es| + 1
  {
    forall k :: 0 <= k < |es| && (es[k].Restart? || es[k].CrashInFlush?) ==> es[k].kept == |cs[k].log|
  }

  lemma {:induction false} TruthIsPlainMap(cs: seq<Ctx>, es: seq<Event>, n: nat, id: string)
    requires IsRun(cs, es) && NothingLost(cs, es) && n <= |es|
    ensures Inv(cs[n])
    ensures Truth(cs[n], id) == Find(PlainMap(es[..n]), id)
  {
    NothingLogged(id);
    hide TableMap, Durable, LastOp, Replay;
    RunKeepsInv(cs, es, n);
    if n > 0 {
      TruthIsPlainMap(cs, es, n - 1, id);
      assert es[..n][..n - 1] == es[..n - 1];
      var c := cs[n - 1];
      match es[n - 1]
      case Write(r) => WriteKeepsInv(c, r);
      case Remove(gone) => RemoveKeepsInv(c, gone);
      case FlushTable(snap) => FlushKeepsInv(c, snap);
      case Sync =>
      case Restart(kept) => assert c.log[..kept] == c.log;
      case CrashInFlush(kept, part) =>
        CrashInFlushKeepsInv(c, kept, part);
        assert c.log[kept..] == [];
    }
  }

  /** Crash refinement: whatever was flushed when, and however often the process restarted
      from what it had written, a fetch serves the (version, checksum) of the plain map. */
  lemma FetchRefinesPlainMap(cs: seq<Ctx>, es: seq<Event>, n: nat, id: string)
    requires IsRun(cs, es) && NothingLost(cs, es) && n <= |es|
    ensures match (Served(cs[n], id), Find(PlainMap(es[..n]), id))
      case (Some(r), Some(q)) => r.version == q.version && r.checksum == q.checksum
      case (r, q) => r == None && q == None
  {
    TruthIsPlainMap(cs, es, n, id);
    assert SameWrite(Served(cs[n], id), Truth(cs[n], id));
  }

  /** Among these records, id, version and checksum determine the record. */
  ghost predicate KeysIdentify(all: set<Record>) {
    forall r, s :: r in all && s in all && r.id == s.id && r.version == s.version && r.checksum == s.checksum ==> r == s
  }

  /** Every record the context holds anywhere is one of these. */
  ghost predicate Sourced(c: Ctx, all: set<Record>) {
    && (forall id :: id in c.mem ==> c.mem[id] in all && c.mem[id].id == id)
    && (forall id :: id in Durable(c.tables) ==> Durable(c.tables)[id] in all && Durable(c.tables)[id].id == id)
    && LogSourced(c.log, all)
  }

  ghost predicate LogSourced(log: seq<Payload>, all: set<Record>) {
    forall p :: p in log && ParsePayload(p).Some? && ParsePayload(p).value.Upsert? ==> ParsePayload(p).value.rec in all
  }

  lemma {:induction false} LastOpSourced(log: seq<Payload>, all: set<Record>, id: string)
    requires LogSourced(log, all)
    ensures LastOp(log, id).Some? && LastOp(log, id).value.Upsert? ==> LastOp(log, id).value.rec in all
  {
    if log != [] {
      LastOpSourced(log[..|log| - 1], all, id);
    }
  }

  lemma StepKeepsSourced(c: Ctx, e: Event, all: set<Record>)
    requires Inv(c) && Sourced(c, all) && Enabled(c, e)
    requires e.Write? ==> e.rec in all
    ensures Sourced(Step(c, e), all)
  {
    hide TableMap, Durable, LastOp, Replay, RawUpsert, Tombstone, ParsePayload;
    match e
    case Write(r) => PayloadRoundTrip(r, "");
    case Remove(id) => PayloadRoundTrip(Record("x", 1, "", Null), id);
    case FlushTable(snap) => DurableAppend(c.tables, snap);
    case Sync =>
    case Restart(kept) =>
      var log := c.log[..kept];
      assert LogSourced(log, all);
      forall id | id in Step(c, e).mem ensures Step(c, e).mem[id] in all && Step(c, e).mem[id].id == id {
        ReopenAt(log, c.tables, id);
        LastOpSourced(log, all, id);
      }
    case CrashInFlush(kept, part) => CrashInFlushKeepsSourced(c, kept, part, all);
  }

  ghost predicate MapSourced(m: map<string, Record>, all: set<Record>) {
    forall id :: id in m ==> m[id] in all && m[id].id == id
  }

  lemma ReopenKeepsSourced(log: seq<Payload>, tables: seq<Table>, all: set<Record>)
    requires MapSourced(Durable(tables), all) && LogSourced(log, all)
    ensures Sourced(Reopen(log, tables), all)
  {
    var c := Reopen(log, tables);
    DurableKeyed(tables);
    ReplayKeyed(Durable(tables), log);
    hide TableMap, Durable, LastOp, Replay, ParsePayload;
    forall id | id in c.mem ensures c.mem[id] in all && c.mem[id].id == id {
      ReopenAt(log, tables, id);
      LastOpSourced(log, all, id);
    }
  }

  lemma PartSourced(mem: map<string, Record>, snap: Table, part: Table, all: set<Record>)
    requires MapSourced(mem, all) && IsSnapshot(mem, snap) && part <= snap
    ensures MapSourced(TableMap(part), all)
  {
    forall id | id in TableMap(part) ensures TableMap(part)[id] in all && TableMap(part)[id].id == id {
      TableMapFrom(part, id);
      var i :| 0 <= i < |part| && part[i] == TableMap(part)[id];
      TableMapAt(snap, i);
    }
  }

  lemma CrashInFlushKeepsSourced(c: Ctx, kept: nat, part: Table, all: set<Record>)
    requires Sourced(c, all) && Enabled(c, CrashInFlush(kept, part))
    ensures Sourced(Step(c, CrashInFlush(kept, part)), all)
  {
    var snap :| IsSnapshot(c.mem, snap) && part <= snap;
    DurableAppend(c.tables, part);
    PartSourced(c.mem, snap, part, all);
    assert LogSourced(c.log[..kept], all);
    hide TableMap, Durable, ParsePayload, Reopen;
    ReopenKeepsSourced(c.log[..kept], c.tables + [part], all);
  }

  lemma {:induction false} RunKeepsSourced(cs: seq<Ctx>, es: seq<Event>, n: nat, all: set<Record>)
    requires IsRun(cs, es) && n <= |es|
    requires forall k :: 0 <= k < n && es[k].Write? ==> es[k].rec in all
    ensures Inv(cs[n]) && Sourced(cs[n], all)
  {
    RunKeepsInv(cs, es, n);
    if n > 0 {
      RunKeepsSourced(cs, es, n - 1, all);
      StepKeepsSourced(cs[n - 1], es[n - 1], all);
    }
  }

  /** Nothing is fabricated, and when the key identifies the record the agreement is exact. */
  lemma ServedIsTruth(c: Ctx, all: set<Record>, id: string)
    requires Inv(c) && Sourced(c, all) && KeysIdentify(all)
    ensures Served(c, id) == Truth(c, id)
    ensures Served(c, id).Some? ==> Served(c, id).value in all && Served(c, id).value.id == id
  {
    LastOpSourced(c.log, all, id);
    assert SameWrite(Served(c, id), Truth(c, id));
  }

  /** Crash refinement, exactly: with keys that identify records, a fetch serves the plain map. */
  lemma FetchIsPlainMap(cs: seq<Ctx>, es: seq<Event>, n: nat, id: string, all: set<Record>)
    requires IsRun(cs, es) && NothingLost(cs, es) && n <= |es|
    requires KeysIdentify(all) && forall k :: 0 <= k < n && es[k].Write? ==> es[k].rec in all
    ensures Served(cs[n], id) == Find(PlainMap(es[..n]), id)
  {
    TruthIsPlainMap(cs, es, n, id);
    RunKeepsSourced(cs, es, n, all);
    ServedIsTruth(cs[n], all, id);
  }

  /** Wherever a durable record has the key of the replayed one, it is the replayed one. */
  ghost predicate NoKeyClash(log: seq<Payload>, tables: seq<Table>) {
    var start := Durable(tables);
    var final := Replay(start, log).records;
    forall id :: id in final && id in start && start[id].version == final[id].version && start[id].checksum == final[id].checksum
      ==> start[id] == final[id]
  }

  /** Exactly when a restarted process serves the replayed records themselves. */
  lemma RestartIsExactIff(log: seq<Payload>, tables: seq<Table>)
    ensures (forall id :: Served(Reopen(log, tables), id) == Truth(Reopen(log, tables), id)) <==> NoKeyClash(log, tables)
  {
    var c := Reopen(log, tables);
    var start := Durable(tables);
    var final := Replay(start, log).records;
    forall id
      ensures Truth(c, id) == Find(final, id)
      ensures id in c.tombs ==> id !in final
    {
      LastOperationDecides(start, log, id);
    }
    if forall id :: Served(c, id) == Truth(c, id) {
      forall id | id in final && id in start && start[id].version == final[id].version && start[id].checksum == final[id].checksum
        ensures start[id] == final[id]
      {
        LastOperationDecides(start, log, id);
        assert Served(c, id) == Truth(c, id);
      }
    }
    if NoKeyClash(log, tables) {
      forall id ensures Served(c, id) == Truth(c, id) {
        ReopenAt(log, tables, id);
      }
    }
  }

  lemma OneRowTable(r: Record)
    ensures IsSnapshot(map[r.id := r], [r]) && Durable([[r]]) == map[r.id := r]
  {
    TableMapAppend([], r);
    assert [] + [r] == [r];
    DurableAppend([], [r]);
    assert [] + [[r]] == [[r]];
  }

  lemma RestartKeepsFlushedCopy(r: Record, s: Record)
    requires r.Valid() && s.Valid() && r.id == s.id && r.version == s.version && r.checksum == s.checksum
    ensures Served(Reopen([RawUpsert(r), RawUpsert(s)], [[r]]), r.id) == Some(r)
  {
    hide TableMap, Durable, RawUpsert, ParsePayload, LastOp;
    OneRowTable(r);
    var log := [RawUpsert(r)] + [RawUpsert(s)];
    assert log == [RawUpsert(r), RawUpsert(s)];
    PayloadRoundTrip(s, "");
    LastOpAppend([RawUpsert(r)], RawUpsert(s), r.id);
    LastOperationDecides(Durable([[r]]), log, r.id);
  }

  /** A run whose restart serves stale content: the ingest path writes version 1 always and
      the checksum covers the vector alone, so new metadata on an unchanged vector keeps the key. */
  lemma SameKeyServesStale(r: Record, s: Record)
    requires r.Valid() && s.Valid() && r.id == s.id && r.version == s.version && r.checksum == s.checksum && r != s
    ensures IsSnapshot(Step(Empty, Write(r)).mem, [r])
    ensures var c := Step(Step(Step(Empty, Write(r)), FlushTable([r])), Write(s));
      Served(c, r.id) == Some(s) && |c.log| == 2 && Served(Step(c, Restart(2)), r.id) == Some(r)
  {
    hide TableMap, Durable, RawUpsert, Replay;
    OneRowTable(r);
    RestartKeepsFlushedCopy(r, s);
    var c := Step(Step(Step(Empty, Write(r)), FlushTable([r])), Write(s));
    assert c.log == [RawUpsert(r), RawUpsert(s)] && c.log[..2] == c.log && c.tables == [[r]];
  }

  /** Recovery is complete and idempotent: flush what it rebuilt, recover again, and the
      logical state is the same with nothing left to rebuild. */
  lemma FlushAfterRecovery(log: seq<Payload>, tables: seq<Table>, snap: Table)
    requires IsSnapshot(Reopen(log, tables).mem, snap)
    ensures var again := Reopen(log, tables + [snap]);
      && Replay(Durable(tables + [snap]), log) == Replay(Durable(tables), log)
      && again.mem == map[]
  {
    hide Durable, TableMap, Replay, LastOp;
    var start, start' := Durable(tables), Durable(tables + [snap]);
    DurableAppend(tables, snap);
    var l, l' := Replay(start, log), Replay(start', log);
    forall id
      ensures id in l.records <==> id in l'.records
      ensures id in l.records ==> l.records[id] == l'.records[id]
      ensures id in l.deleted <==> id in l'.deleted
    {
      ReopenAt(log, tables, id);
      LastOperationDecides(start, log, id);
      LastOperationDecides(start', log, id);
      assert id in l.records <==> Find(l.records, id).Some?;
      assert id in l'.records <==> Find(l'.records, id).Some?;
    }
    assert l.records == l'.records && l.deleted == l'.deleted;
  }

  /** Recovery into a store no write has reached yet; returns the tombstone set. */
  method RecoverInto(onDisk: seq<Payload>, segments: SegmentStore) returns (tombstones: set<string>)
    requires segments.Valid() && segments.memtable.data == map[]
    modifies segments.memtable
    ensures segments.Valid()
    ensures Ctx(onDisk, |onDisk|, segments.sstables, segments.memtable.data, tombstones)
            == Reopen(onDisk, segments.sstables)
  {
    var recovery := Recover(onDisk, segments);
    tombstones := set id | id in recovery.deletedIds;
    assert tombstones == ResultState(recovery).deleted;
    ghost var missing := Recovered(Durable(segments.sstables), ResultState(recovery).records);
    assert map[] + missing == missing;
  }
}
