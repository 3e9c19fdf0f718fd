/** A shard over the files it really has: log segments with whatever bytes a crash left in them, the
    buffer that waits for a flush, and the SSTables. */
module ShardOnDisk {
  import opened Wrappers
  import opened Crc32
  import Wal
  import opened Records
  import opened Segments
  import opened Recovery
  import opened Ingest

  /** How payloads are written as bytes and read back, and the size at which a segment is full. */
  datatype Setup = Setup(encode: Payload -> seq<byte>, decode: seq<byte> -> Payload, limit: nat) {
    /** The payload fits a frame and reads back as itself. */
    ghost predicate Carries(p: Payload) {
      decode(encode(p)) == p && |encode(p)| < Wal.Pow256(4)
    }
  }

  datatype Disk = Disk(
    files: seq<seq<byte>>, open: nat, buffer: seq<Wal.Entry>, tables: seq<Table>, mem: map<string, Record>, tombs: set<string>)

  ghost predicate WellFormed(d: Disk) {
    d.open < |d.files| && Wal.AllValid(d.buffer)
  }

  function Payloads(s: Setup, es: seq<Wal.Entry>): seq<Payload> {
    seq(|es|, i requires 0 <= i < |es| => s.decode(es[i].payload))
  }

  lemma PayloadsConcat(s: Setup, a: seq<Wal.Entry>, b: seq<Wal.Entry>)
    ensures Payloads(s, a + b) == Payloads(s, a) + Payloads(s, b)
  {
  }

  /** The context as the lists of payloads it would read and still holds back. */
  ghost function View(s: Setup, d: Disk): Ctx {
    var read := Wal.ReadFiles(d.files);
    Ctx(Payloads(s, read) + Payloads(s, d.buffer), |read|, d.tables, d.mem, d.tombs)
  }

  /** What `fetch` serves. */
  ghost function Serves(d: Disk, id: string): Option<Record> {
    if id in d.tombs then None else StoreGet(d.mem, d.tables, id)
  }

  /** `Dying(written, torn, part)` is a process that dies, and a new one that recovers: of the
      buffer the first `written` frames reached the disk, then perhaps the first `torn` bytes of the
      next, and perhaps the first lines of an SSTable it was writing. A clean shutdown writes the
      whole buffer. */
  datatype DiskEvent =
    | Upserting(rec: Record, entry: Wal.Entry)
    | Deleting(id: string, entry: Wal.Entry)
    | Flushing(snap: Table)
    | Syncing
    | Dying(written: nat, torn: Option<nat>, part: Option<Table>)

  ghost predicate Possible(s: Setup, d: Disk, e: DiskEvent) {
    match e
    case Upserting(r, entry) => r.Valid() && entry.Valid() && s.decode(entry.payload) == RawUpsert(r)
    case Deleting(id, entry) => entry.Valid() && s.decode(entry.payload) == Tombstone(id)
    case Flushing(snap) => IsSnapshot(d.mem, snap)
    case Syncing => true
    case Dying(written, torn, part) =>
      && written <= |d.buffer|
      && (torn.Some? ==> written < |d.buffer| && torn.value < |Wal.Frame(d.buffer[written])|)
      && (part.Some? ==> exists snap :: IsSnapshot(d.mem, snap) && part.value <= snap)
  }

  /** The segment files a dead process leaves. */
  ghost function Left(s: Setup, d: Disk, written: nat, torn: Option<nat>): seq<seq<byte>>
    requires WellFormed(d) && Possible(s, d, Dying(written, torn, None))
  {
    var (out, now) := Wal.WriteAll(d.files, d.open, s.limit, d.buffer[..written]);
    match torn
    case None => out
    case Some(cut) =>
      var frame := Wal.Frame(d.buffer[written]);
      Wal.WithBytes(out, Wal.Place(out, now, s.limit, |frame|), frame[..cut])
  }

  /** A new process over these files and tables. */
  ghost function Started(s: Setup, files: seq<seq<byte>>, tables: seq<Table>): Disk {
    var c := Reopen(Payloads(s, Wal.ReadFiles(files)), tables);
    Disk(files, 0, [], tables, c.mem, c.tombs)
  }

  ghost function After(s: Setup, d: Disk, e: DiskEvent): (d': Disk)
    requires WellFormed(d) && Possible(s, d, e)
  {
    match e
    case Upserting(r, entry) => d.(buffer := d.buffer + [entry], tombs := d.tombs - {r.id}, mem := d.mem[r.id := r])
    case Deleting(id, entry) => d.(buffer := d.buffer + [entry], tombs := d.tombs + {id}, mem := d.mem - {id})
    case Flushing(snap) => if d.mem == map[] then d else d.(tables := d.tables + [snap], mem := map[])
    case Syncing =>
      var (out, now) := Wal.WriteAll(d.files, d.open, s.limit, d.buffer);
      d.(files := out, open := now, buffer := [])
    case Dying(written, torn, part) =>
      Started(s, Left(s, d, written, torn), d.tables + if part.Some? then [part.value] else [])
  }

  /** The event as the refinement sees it. */
  ghost function Seen(d: Disk, e: DiskEvent): Event {
    match e
    case Upserting(r, _) => Write(r)
    case Deleting(id, _) => Remove(id)
    case Flushing(snap) => FlushTable(snap)
    case Syncing => Sync
    case Dying(written, _, part) =>
      var kept := |Wal.ReadFiles(d.files)| + written;
      if part.Some? then CrashInFlush(kept, part.value) else Restart(kept)
  }

  /** The log takes what is waiting: it is sane, or nothing waits. */
  ghost predicate Takes(d: Disk) {
    d.buffer == [] || Wal.Sane(d.files, d.open)
  }

  lemma StaysWellFormed(s: Setup, d: Disk, e: DiskEvent)
    requires WellFormed(d) && Possible(s, d, e)
    ensures WellFormed(After(s, d, e))
  {
    hide Wal.Frame, Wal.ReadFiles, Wal.WriteAll, Wal.Place, Reopen, RawUpsert, Tombstone;
  }

  /** What reaches the disk of a dying process is read as the first entries of its buffer. */
  lemma LeftReads(s: Setup, d: Disk, written: nat, torn: Option<nat>)
    requires WellFormed(d) && Takes(d) && Possible(s, d, Dying(written, torn, None))
    ensures Wal.ReadFiles(Left(s, d, written, torn)) == Wal.ReadFiles(d.files) + d.buffer[..written]
  {
    hide Wal.Frame, Wal.ReadFiles, Wal.Sane, Wal.WithBytes, Wal.Place;
    if d.buffer == [] {
      Wal.NothingWritten(d.files, d.open, s.limit);
      assert Wal.ReadFiles(d.files) + [] == Wal.ReadFiles(d.files);
    } else {
      Wal.SaneWrites(d.files, d.open, s.limit, d.buffer[..written]);
      if torn.Some? {
        var (out, now) := Wal.WriteAll(d.files, d.open, s.limit, d.buffer[..written]);
        var e := d.buffer[written];
        hide Wal.WriteAll;
        Wal.SanePlace(out, now, s.limit, |Wal.Frame(e)|);
        Wal.TornWriteReadsNothing(out, Wal.Place(out, now, s.limit, |Wal.Frame(e)|), e, torn.value);
      }
    }
  }

  /** Refinement, one step: as long as the log takes what is waiting, the files do what the list of
      payloads does. */
  lemma StepIsLogical(s: Setup, d: Disk, e: DiskEvent)
    requires WellFormed(d) && Takes(d) && Possible(s, d, e)
    ensures Enabled(View(s, d), Seen(d, e))
    ensures View(s, After(s, d, e)) == Step(View(s, d), Seen(d, e))
  {
    var read := Wal.ReadFiles(d.files);
    hide Wal.Frame, Wal.ReadFiles, Wal.WriteAll, Wal.Place, Wal.Sane, Wal.WithBytes, Reopen, RawUpsert, Tombstone;
    match e
    case Upserting(r, entry) => PayloadsConcat(s, d.buffer, [entry]);
    case Deleting(id, entry) => PayloadsConcat(s, d.buffer, [entry]);
    case Flushing(snap) =>
    case Syncing => SyncIsLogical(s, d);
    case Dying(written, torn, part) => DeathIsLogical(s, d, written, torn, part);
  }

  lemma SyncIsLogical(s: Setup, d: Disk)
    requires WellFormed(d) && Takes(d)
    ensures View(s, After(s, d, Syncing)) == Step(View(s, d), Sync)
  {
    hide Wal.Frame, Wal.ReadFiles, Wal.WriteAll, Wal.Sane;
    var read := Wal.ReadFiles(d.files);
    PayloadsConcat(s, read, d.buffer);
    if d.buffer == [] {
      Wal.NothingWritten(d.files, d.open, s.limit);
    } else {
      Wal.SaneWrites(d.files, d.open, s.limit, d.buffer);
    }
    assert Payloads(s, []) == [] && read + [] == read;
  }

  lemma StartedView(s: Setup, files: seq<seq<byte>>, tables: seq<Table>)
    ensures View(s, Started(s, files, tables)) == Reopen(Payloads(s, Wal.ReadFiles(files)), tables)
  {
    var log := Payloads(s, Wal.ReadFiles(files));
    ReopenHas(log, tables);
    hide Wal.ReadFiles, Reopen;
    assert log + Payloads(s, []) == log;
  }

  lemma DeathRestarts(s: Setup, d: Disk, written: nat, torn: Option<nat>)
    requires WellFormed(d) && Takes(d) && Possible(s, d, Dying(written, torn, None))
    ensures var kept := |Wal.ReadFiles(d.files)| + written;
      Enabled(View(s, d), Restart(kept)) && View(s, After(s, d, Dying(written, torn, None))) == Step(View(s, d), Restart(kept))
  {
    hide Wal.Frame, Wal.ReadFiles, Wal.Sane, Wal.WriteAll, Left, Reopen, Started, Payloads, View, IsSnapshot, Takes, WellFormed;
    FirstOfLog(s, d, written);
    LeftReads(s, d, written, torn);
    StartedView(s, Left(s, d, written, torn), d.tables);
    assert d.tables + [] == d.tables;
  }

  lemma DeathInFlush(s: Setup, d: Disk, written: nat, torn: Option<nat>, part: Table)
    requires WellFormed(d) && Takes(d) && Possible(s, d, Dying(written, torn, Some(part)))
    ensures var kept := |Wal.ReadFiles(d.files)| + written;
      Enabled(View(s, d), CrashInFlush(kept, part))
      && View(s, After(s, d, Dying(written, torn, Some(part)))) == Step(View(s, d), CrashInFlush(kept, part))
  {
    hide Wal.Frame, Wal.ReadFiles, Wal.Sane, Wal.WriteAll, Left, Reopen, Started, Payloads, View, IsSnapshot, Takes, WellFormed;
    FirstOfLog(s, d, written);
    LeftReads(s, d, written, torn);
    StartedView(s, Left(s, d, written, torn), d.tables + [part]);
  }

  lemma DeathIsLogical(s: Setup, d: Disk, written: nat, torn: Option<nat>, part: Option<Table>)
    requires WellFormed(d) && Takes(d) && Possible(s, d, Dying(written, torn, part))
    ensures Enabled(View(s, d), Seen(d, Dying(written, torn, part)))
    ensures View(s, After(s, d, Dying(written, torn, part))) == Step(View(s, d), Seen(d, Dying(written, torn, part)))
  {
    hide Enabled, Step, After, View, Possible, Wal.ReadFiles, Takes, WellFormed;
    match part
    case None => DeathRestarts(s, d, written, torn);
    case Some(lines) => DeathInFlush(s, d, written, torn, lines);
  }

  lemma FirstOfLog(s: Setup, d: Disk, written: nat)
    requires written <= |d.buffer|
    ensures var c, read := View(s, d), Wal.ReadFiles(d.files);
      && c.tables == d.tables && c.mem == d.mem && c.synced == |read| <= |read| + written <= |c.log|
      && c.log[..|read| + written] == Payloads(s, read + d.buffer[..written])
  {
    hide Wal.ReadFiles;
  }

  // ----- histories -----

  ghost const FreshDirectory: Disk := Disk([[]], 0, [], [], map[], {})

  ghost predicate IsDiskRun(s: Setup, ds: seq<Disk>, es: seq<DiskEvent>) {
    && |ds| == |es| + 1 && ds[0] == FreshDirectory
    && forall i :: 0 <= i < |es| ==> WellFormed(ds[i]) && Possible(s, ds[i], es[i]) && ds[i + 1] == After(s, ds[i], es[i])
  }

  predicate Logs(e: DiskEvent) {
    e.Upserting? || e.Deleting?
  }

  /** Nothing is logged on a log that would not take it: whenever an operation is logged, the open
      segment and all later ones end on frame boundaries, and only the open one reads entries. Only
      a restart can break this, and a log that is whole and in one segment stays so. */
  ghost predicate Orderly(ds: seq<Disk>, es: seq<DiskEvent>)
    requires |ds| == |es| + 1
  {
    forall i :: 0 <= i < |es| && Logs(es[i]) ==> Wal.Sane(ds[i].files, ds[i].open)
  }

  lemma StepKeepsTaking(s: Setup, d: Disk, e: DiskEvent)
    requires WellFormed(d) && Possible(s, d, e) && Takes(d) && (Logs(e) ==> Wal.Sane(d.files, d.open))
    ensures Takes(After(s, d, e))
  {
    hide Wal.Sane, Wal.Frame, Wal.ReadFiles, Wal.WriteAll, Left, Started;
    if e.Dying? {
      StartedHoldsNothing(s, Left(s, d, e.written, e.torn), d.tables + if e.part.Some? then [e.part.value] else []);
    }
  }

  lemma StartedHoldsNothing(s: Setup, files: seq<seq<byte>>, tables: seq<Table>)
    ensures Started(s, files, tables).buffer == []
  {
  }

  lemma {:induction false} RunTakes(s: Setup, ds: seq<Disk>, es: seq<DiskEvent>, n: nat)
    requires IsDiskRun(s, ds, es) && Orderly(ds, es) && n <= |es|
    ensures WellFormed(ds[n]) && Takes(ds[n])
  {
    hide Possible, After, Wal.Sane;
    if n > 0 {
      RunTakes(s, ds, es, n - 1);
      StaysWellFormed(s, ds[n - 1], es[n - 1]);
      StepKeepsTaking(s, ds[n - 1], es[n - 1]);
    }
  }

  ghost function Views(s: Setup, ds: seq<Disk>): seq<Ctx> {
    seq(|ds|, i requires 0 <= i < |ds| => View(s, ds[i]))
  }

  ghost function Logicals(ds: seq<Disk>, es: seq<DiskEvent>): seq<Event>
    requires |ds| == |es| + 1
  {
    seq(|es|, i requires 0 <= i < |es| => Seen(ds[i], es[i]))
  }

  /** Refinement: an orderly history over files is a history over the list of payloads. */
  lemma RunIsLogical(s: Setup, ds: seq<Disk>, es: seq<DiskEvent>)
    requires IsDiskRun(s, ds, es) && Orderly(ds, es)
    ensures IsRun(Views(s, ds), Logicals(ds, es))
  {
    Wal.FreshIsSane();
    assert View(s, FreshDirectory) == Empty;
    hide Possible, After, Wal.Sane, View, Seen, Enabled, Step;
    forall i | 0 <= i < |es|
      ensures Enabled(View(s, ds[i]), Seen(ds[i], es[i])) && View(s, ds[i + 1]) == Step(View(s, ds[i]), Seen(ds[i], es[i]))
    {
      RunTakes(s, ds, es, i);
      StepIsLogical(s, ds[i], es[i]);
    }
  }

  predicate Concerns(e: DiskEvent, id: string) {
    (e.Upserting? && e.rec.id == id) || (e.Deleting? && e.id == id)
  }

  /** An acknowledged state of an id survives any flushes, crashes at any byte, and restarts, until
      the next operation on it, in every orderly history. */
  lemma AcknowledgedWritesSurvive(s: Setup, ds: seq<Disk>, es: seq<DiskEvent>, i: nat, j: nat, id: string)
    requires IsDiskRun(s, ds, es) && Orderly(ds, es) && i <= j <= |es| && id != ""
    requires LastOp(Payloads(s, ds[i].buffer), id) == None
    requires forall k :: i <= k < j ==> !Concerns(es[k], id)
    ensures match (Serves(ds[j], id), Serves(ds[i], id))
      case (Some(r), Some(q)) => r.version == q.version && r.checksum == q.checksum
      case (r, q) => r == None && q == None
  {
    hide Possible, After, WellFormed, Wal.Sane, View, IsRun, Inv, LastOp, Serves, Served, Enabled, Step, Payloads;
    RunIsLogical(s, ds, es);
    var cs, ls := Views(s, ds), Logicals(ds, es);
    RunKeepsInv(cs, ls, i);
    ViewOf(s, ds[i], id);
    ViewOf(s, ds[j], id);
    hide IsDiskRun, Orderly;
    assert Acknowledged(cs[i], id);
    forall k | i <= k < j ensures !Touches(ls[k], id) {
      assert !Concerns(es[k], id);
    }
    AcknowledgedStateSurvives(cs, ls, i, j, id);
  }

  lemma ViewOf(s: Setup, d: Disk, id: string)
    ensures Served(View(s, d), id) == Serves(d, id)
    ensures View(s, d).synced <= |View(s, d).log| && View(s, d).log[View(s, d).synced..] == Payloads(s, d.buffer)
  {
    hide Wal.ReadFiles;
  }

  /** The plain map of the operations. */
  ghost function PlainMapOf(es: seq<DiskEvent>): map<string, Record> {
    if es == [] then map[]
    else
      var m := PlainMapOf(es[..|es| - 1]);
      match es[|es| - 1]
      case Upserting(r, _) => m[r.id := r]
      case Deleting(id, _) => m - {id}
      case _ => m
  }

  lemma {:induction false} SamePlainMap(ds: seq<Disk>, es: seq<DiskEvent>, n: nat)
    requires |ds| == |es| + 1 && n <= |es|
    ensures PlainMap(Logicals(ds, es)[..n]) == PlainMapOf(es[..n])
  {
    if n > 0 {
      SamePlainMap(ds, es, n - 1);
      assert Logicals(ds, es)[..n][..n - 1] == Logicals(ds, es)[..n - 1];
      assert es[..n][..n - 1] == es[..n - 1];
    }
  }

  /** Every process wrote its whole buffer before it ended. */
  ghost predicate ShutDownCleanly(ds: seq<Disk>, es: seq<DiskEvent>)
    requires |ds| == |es| + 1
  {
    forall k :: 0 <= k < |es| && es[k].Dying? ==> es[k].written == |ds[k].buffer|
  }

  lemma CleanIsLossless(s: Setup, ds: seq<Disk>, es: seq<DiskEvent>)
    requires |ds| == |es| + 1 && ShutDownCleanly(ds, es)
    ensures NothingLost(Views(s, ds), Logicals(ds, es))
  {
    var cs, ls := Views(s, ds), Logicals(ds, es);
    hide Wal.ReadFiles;
    forall k | 0 <= k < |ls| && (ls[k].Restart? || ls[k].CrashInFlush?) ensures ls[k].kept == |cs[k].log| {
      assert es[k].Dying?;
    }
  }

  /** Crash refinement over files: in every orderly history whose processes wrote what they logged,
      a fetch serves the (version, checksum) of the plain map. */
  lemma FetchServesThePlainMap(s: Setup, ds: seq<Disk>, es: seq<DiskEvent>, n: nat, id: string)
    requires IsDiskRun(s, ds, es) && Orderly(ds, es) && ShutDownCleanly(ds, es) && n <= |es|
    ensures match (Serves(ds[n], id), Find(PlainMapOf(es[..n]), id))
      case (Some(r), Some(q)) => r.version == q.version && r.checksum == q.checksum
      case (r, q) => r == None && q == None
  {
    RunIsLogical(s, ds, es);
    SamePlainMap(ds, es, n);
    CleanIsLossless(s, ds, es);
    ViewOf(s, ds[n], id);
    hide IsDiskRun, Orderly, View, IsRun, NothingLost, Served, Serves, PlainMap, PlainMapOf, Seen, ShutDownCleanly;
    FetchRefinesPlainMap(Views(s, ds), Logicals(ds, es), n, id);
  }

  /** Exactly: with keys that identify records a fetch serves the plain map. */
  lemma FetchServesThePlainMapExactly(s: Setup, ds: seq<Disk>, es: seq<DiskEvent>, n: nat, id: string, all: set<Record>)
    requires IsDiskRun(s, ds, es) && Orderly(ds, es) && ShutDownCleanly(ds, es) && n <= |es|
    requires KeysIdentify(all) && forall k :: 0 <= k < n && es[k].Upserting? ==> es[k].rec in all
    ensures Serves(ds[n], id) == Find(PlainMapOf(es[..n]), id)
  {
    hide View, Possible, After;
    RunIsLogical(s, ds, es);
    SamePlainMap(ds, es, n);
    CleanIsLossless(s, ds, es);
    ViewOf(s, ds[n], id);
    var ls := Logicals(ds, es);
    forall k | 0 <= k < n && ls[k].Write? ensures ls[k].rec in all {
      assert es[k].Upserting? && es[k].rec == ls[k].rec;
    }
    hide IsDiskRun, Orderly, View, IsRun, NothingLost, Served, Serves, PlainMap, PlainMapOf, Seen, ShutDownCleanly, KeysIdentify;
    FetchIsPlainMap(Views(s, ds), ls, n, id, all);
  }

  // ----- exactly when the next acknowledged write survives -----

  /** The log after one entry was appended and flushed. */
  ghost function LogAfter(s: Setup, d: Disk, e: Wal.Entry): seq<Wal.Entry>
    requires WellFormed(d)
  {
    Wal.ReadFiles(Wal.WriteAll(d.files, d.open, s.limit, [e]).0)
  }

  /** Over a log in any condition: the next acknowledged write is found behind everything by the next
      process, whatever the clock said, if and only if the segment it goes to ends on a frame
      boundary and no later segment reads an entry. */
  lemma NextWriteIsInOrderIff(s: Setup, d: Disk, p: seq<byte>)
    requires WellFormed(d) && |p| < Wal.Pow256(4)
    ensures var at := Wal.Place(d.files, d.open, s.limit, Wal.HEADER_SIZE + |p|);
      (forall ts: nat :: 0 < ts < Wal.Pow256(8) ==>
         LogAfter(s, d, Wal.Entry(p, ts)) == Wal.ReadFiles(d.files) + [Wal.Entry(p, ts)])
      <==> Wal.Whole(Wal.Target(d.files, at)) && Wal.Later(d.files, at) == []
  {
    Wal.WriteReadsBackIff(d.files, d.open, s.limit, p);
  }

  /** Into a segment that ends on a frame boundary: an acknowledged operation decides its id for the
      next process if and only if no later segment decides it otherwise. */
  lemma NextOperationSurvivesIff(s: Setup, d: Disk, op: Op, e: Wal.Entry)
    requires WellFormed(d) && e.Valid() && ParsePayload(s.decode(e.payload)) == Some(op)
    requires Wal.Whole(Wal.Target(d.files, Wal.Place(d.files, d.open, s.limit, |Wal.Frame(e)|)))
    ensures var later := LastOp(Payloads(s, Wal.Later(d.files, Wal.Place(d.files, d.open, s.limit, |Wal.Frame(e)|))), op.Target());
      LastOp(Payloads(s, LogAfter(s, d, e)), op.Target()) == Some(op) <==> later == None || later == Some(op)
  {
    var at := Wal.Place(d.files, d.open, s.limit, |Wal.Frame(e)|);
    Wal.WriteOne(d.files, d.open, s.limit, e);
    Wal.ReadAround(d.files, at, Wal.Frame(e));
    Wal.ParseBehindWhole(Wal.Target(d.files, at), Wal.Frame(e));
    Wal.FrameIsWhole(e);
    hide Wal.ReadFiles, Wal.Later, Wal.Target, Wal.Frame, Wal.Parse, Wal.Whole, Wal.Place, Wal.WithBytes, LastOp, ParsePayload;
    var front := Wal.ReadFiles(d.files[..at]) + (Wal.Parse(Wal.Target(d.files, at)) + [e]);
    var before := Wal.ReadFiles(d.files[..at]) + Wal.Parse(Wal.Target(d.files, at));
    var later := Wal.Later(d.files, at);
    assert front == before + [e];
    PayloadsConcat(s, front, later);
    PayloadsConcat(s, before, [e]);
    assert Payloads(s, [e]) == [s.decode(e.payload)];
    LastOpConcat(Payloads(s, front), Payloads(s, later), op.Target());
    LastOpAppend(Payloads(s, before), s.decode(e.payload), op.Target());
  }

  /** When a dying process leaves a log that takes appends again: of a log whose segments end on frame
      boundaries, exactly when the crash fell on a boundary too and no segment but the first reads
      an entry. */
  lemma DeathLeavesSaneIff(s: Setup, d: Disk, written: nat, torn: Option<nat>)
    requires WellFormed(d) && Possible(s, d, Dying(written, torn, None)) && forall i :: 0 <= i < |d.files| ==> Wal.Whole(d.files[i])
    ensures var left := Left(s, d, written, torn);
      |left| > 0 && (Wal.Sane(left, 0) <==>
        (torn == None || torn == Some(0)) && forall i :: 0 < i < |left| ==> Wal.Parse(left[i]) == [])
  {
    hide Wal.Frame, Wal.Parse, Wal.Torn, Wal.ReadFiles, Wal.Whole;
    Wal.WholeLogsLoseNothing(d.files, d.open, s.limit, d.buffer[..written]);
    if torn.Some? {
      var (out, now) := Wal.WriteAll(d.files, d.open, s.limit, d.buffer[..written]);
      var e := d.buffer[written];
      hide Wal.WriteAll;
      var at := Wal.Place(out, now, s.limit, |Wal.Frame(e)|);
      Wal.NothingIsWhole();
      Wal.TornIsWholeIff(Wal.Target(out, at), e, torn.value);
      var left := Wal.WithBytes(out, at, Wal.Frame(e)[..torn.value]);
      assert left[at] == Wal.Target(out, at) + Wal.Frame(e)[..torn.value] by {
        assert [] + Wal.Frame(e)[..torn.value] == Wal.Frame(e)[..torn.value];
      }
      assert forall i :: 0 <= i < |left| && i != at ==> left[i] == out[i];
    }
  }

  /** Every death fell on a frame boundary, and left entries in segment 0 alone. */
  ghost predicate DeathsOnBoundaries(s: Setup, ds: seq<Disk>, es: seq<DiskEvent>)
    requires IsDiskRun(s, ds, es)
  {
    forall k :: 0 <= k < |es| && es[k].Dying? ==> OnBoundary(s, ds[k], es[k].written, es[k].torn)
  }

  ghost predicate OnBoundary(s: Setup, d: Disk, written: nat, torn: Option<nat>)
    requires WellFormed(d) && Possible(s, d, Dying(written, torn, None))
  {
    (torn == None || torn == Some(0)) && forall i :: 0 < i < |Left(s, d, written, torn)| ==> Wal.Parse(Left(s, d, written, torn)[i]) == []
  }

  ghost predicate AllWhole(files: seq<seq<byte>>) {
    forall i :: 0 <= i < |files| ==> Wal.Whole(files[i])
  }

  lemma SyncKeepsWhole(s: Setup, d: Disk)
    requires WellFormed(d) && AllWhole(d.files) && Wal.Sane(d.files, d.open)
    ensures var d' := After(s, d, Syncing); AllWhole(d'.files) && Wal.Sane(d'.files, d'.open)
  {
    hide Wal.ReadFiles, Wal.WriteAll, Wal.Sane, Wal.Whole;
    Wal.SaneWrites(d.files, d.open, s.limit, d.buffer);
    Wal.WholeLogsLoseNothing(d.files, d.open, s.limit, d.buffer);
  }

  lemma DeathKeepsWhole(s: Setup, d: Disk, written: nat, torn: Option<nat>)
    requires WellFormed(d) && Possible(s, d, Dying(written, torn, None)) && AllWhole(d.files) && OnBoundary(s, d, written, torn)
    ensures AllWhole(Left(s, d, written, torn)) && Wal.Sane(Left(s, d, written, torn), 0)
  {
    hide Wal.Whole, Wal.Parse, Left;
    DeathLeavesSaneIff(s, d, written, torn);
  }

  lemma StepKeepsWhole(s: Setup, d: Disk, e: DiskEvent)
    requires WellFormed(d) && Possible(s, d, e) && AllWhole(d.files) && Wal.Sane(d.files, d.open)
    requires e.Dying? ==> OnBoundary(s, d, e.written, e.torn)
    ensures var d' := After(s, d, e); AllWhole(d'.files) && Wal.Sane(d'.files, d'.open)
  {
    hide Wal.ReadFiles, Wal.WriteAll, Wal.Sane, Wal.Whole, Left, OnBoundary, Reopen;
    match e
    case Syncing => SyncKeepsWhole(s, d);
    case Dying(written, torn, _) => DeathKeepsWhole(s, d, written, torn);
    case _ =>
  }

  lemma {:induction false} RunKeepsWhole(s: Setup, ds: seq<Disk>, es: seq<DiskEvent>, n: nat)
    requires IsDiskRun(s, ds, es) && DeathsOnBoundaries(s, ds, es) && n <= |es|
    ensures AllWhole(ds[n].files) && Wal.Sane(ds[n].files, ds[n].open)
  {
    hide Possible, After, Wal.Sane, OnBoundary;
    if n == 0 {
      Wal.FreshIsSane();
      Wal.NothingIsWhole();
    } else {
      RunKeepsWhole(s, ds, es, n - 1);
      StepKeepsWhole(s, ds[n - 1], es[n - 1]);
    }
  }

  /** Only deaths break the order: a history is orderly if each of them fell on a frame boundary and left
      entries in segment 0 alone. A single process is always orderly. */
  lemma BoundaryDeathsAreOrderly(s: Setup, ds: seq<Disk>, es: seq<DiskEvent>)
    requires IsDiskRun(s, ds, es) && DeathsOnBoundaries(s, ds, es)
    ensures Orderly(ds, es)
  {
    hide Wal.Sane, Possible, After;
    forall i | 0 <= i < |es| && Logs(es[i]) ensures Wal.Sane(ds[i].files, ds[i].open) {
      RunKeepsWhole(s, ds, es, i);
    }
  }

  // ----- two ways in which the code loses an acknowledged write -----

  /** A history: a process dies inside the frame of a first record; the next one acknowledges a
      second record behind the torn bytes; the one after that has lost it. */
  lemma TornTailLosesAcknowledgedWrite(s: Setup, r: Record, e: Wal.Entry, cut: nat, q: Record, f: Wal.Entry)
    returns (d1: Disk, d2: Disk, d3: Disk, d4: Disk, d5: Disk)
    requires Possible(s, FreshDirectory, Upserting(r, e)) && Possible(s, FreshDirectory, Upserting(q, f))
    requires Wal.HEADER_SIZE <= cut && cut + |Wal.Frame(f)| < |Wal.Frame(e)| <= s.limit
    ensures d1 == After(s, FreshDirectory, Upserting(r, e)) && WellFormed(d1) && Possible(s, d1, Dying(0, Some(cut), None))
    ensures d2 == After(s, d1, Dying(0, Some(cut), None)) && WellFormed(d2) && Possible(s, d2, Upserting(q, f))
    ensures d3 == After(s, d2, Upserting(q, f)) && WellFormed(d3) && d4 == After(s, d3, Syncing)
    ensures d4.buffer == [] && Serves(d4, q.id) == Some(q)
    ensures WellFormed(d4) && Possible(s, d4, Dying(0, None, None)) && d5 == After(s, d4, Dying(0, None, None))
    ensures Serves(d5, q.id) == None
  {
    hide Wal.Frame, Wal.ReadFiles, Wal.WriteAll, RawUpsert, Started, Left;
    d1 := After(s, FreshDirectory, Upserting(r, e));
    assert d1.buffer == [e];
    TornStart(s, d1, e, cut);
    d2 := After(s, d1, Dying(0, Some(cut), None));
    d3 := After(s, d2, Upserting(q, f));
    assert d3.buffer == [f];
    SwallowedSync(s, d3, e, cut, f);
    d4 := After(s, d3, Syncing);
    d5 := After(s, d4, Dying(0, None, None));
    NothingRecovered(s, d4.files);
  }

  lemma SwallowedSync(s: Setup, d: Disk, e: Wal.Entry, cut: nat, f: Wal.Entry)
    requires Wal.HEADER_SIZE <= cut && cut + |Wal.Frame(f)| < |Wal.Frame(e)| <= s.limit
    requires d.files == [Wal.Frame(e)[..cut]] && d.open == 0 && d.buffer == [f] && e.Valid() && f.Valid()
    ensures var d' := After(s, d, Syncing);
      && WellFormed(d') && Wal.ReadFiles(d'.files) == [] && d' == d.(files := d'.files, open := d'.open, buffer := [])
      && Possible(s, d', Dying(0, None, None)) && After(s, d', Dying(0, None, None)) == Started(s, d'.files, d.tables)
  {
    var d' := After(s, d, Syncing);
    Wal.WriteOne(d.files, 0, s.limit, f);
    assert d'.files == [Wal.Frame(e)[..cut] + Wal.Frame(f)];
    Wal.TornFrameSwallowsAppend(e, cut, f);
    Wal.ReadOne(d'.files[0]);
    hide Wal.Frame, Wal.ReadFiles, Wal.Parse, Wal.WriteAll, Started;
    QuietDeath(s, d');
  }

  lemma TornStart(s: Setup, d: Disk, e: Wal.Entry, cut: nat)
    requires d.files == [[]] && d.open == 0 && d.buffer == [e] && d.tables == [] && e.Valid()
    requires cut < |Wal.Frame(e)| <= s.limit
    ensures var d' := After(s, d, Dying(0, Some(cut), None));
      d'.files == [Wal.Frame(e)[..cut]] && d'.open == 0 && d'.buffer == [] && d'.tables == [] && WellFormed(d')
  {
    hide Wal.Frame, Reopen;
    assert d.buffer[..0] == [];
    Wal.NothingWritten(d.files, 0, s.limit);
    assert [] + Wal.Frame(e)[..cut] == Wal.Frame(e)[..cut];
    assert d.tables + [] == d.tables;
  }

  lemma NothingRecovered(s: Setup, files: seq<seq<byte>>)
    requires Wal.ReadFiles(files) == []
    ensures Started(s, files, []).mem == map[] && Started(s, files, []).tombs == {}
    ensures forall id :: Serves(Started(s, files, []), id) == None
  {
    hide Wal.ReadFiles;
    assert Payloads(s, []) == [];
    assert Durable([]) == map[] && Replay(map[], []) == Logical(map[], {});
  }

  /** A history: the log fills a second segment; a process that restarts deletes a record, and the
      delete goes to the first segment; the one after that reads it in front of the upsert. */
  lemma RestartOverSegmentsUndoesDelete(s: Setup, r: Record, e: Wal.Entry, q: Record, f: Wal.Entry, g: Wal.Entry)
    returns (d1: Disk, d2: Disk, d3: Disk, d4: Disk, d5: Disk, d6: Disk, d7: Disk)
    requires Possible(s, FreshDirectory, Upserting(r, e)) && Possible(s, FreshDirectory, Upserting(q, f))
    requires Possible(s, FreshDirectory, Deleting(q.id, g))
    requires |Wal.Frame(e)| + |Wal.Frame(g)| <= s.limit < |Wal.Frame(e)| + |Wal.Frame(f)|
    ensures d1 == After(s, FreshDirectory, Upserting(r, e)) && WellFormed(d1) && Possible(s, d1, Upserting(q, f))
    ensures d2 == After(s, d1, Upserting(q, f)) && WellFormed(d2) && d3 == After(s, d2, Syncing)
    ensures WellFormed(d3) && Possible(s, d3, Dying(0, None, None)) && d4 == After(s, d3, Dying(0, None, None))
    ensures WellFormed(d4) && Possible(s, d4, Deleting(q.id, g)) && d5 == After(s, d4, Deleting(q.id, g))
    ensures WellFormed(d5) && d6 == After(s, d5, Syncing) && d6.buffer == [] && Serves(d6, q.id) == None
    ensures WellFormed(d6) && Possible(s, d6, Dying(0, None, None)) && d7 == After(s, d6, Dying(0, None, None))
    ensures Serves(d7, q.id) == Some(q)
  {
    hide Wal.Frame, Wal.ReadFiles, Wal.Parse, RawUpsert, Tombstone;
    d1 := After(s, FreshDirectory, Upserting(r, e));
    d2 := After(s, d1, Upserting(q, f));
    assert d2.buffer == [e, f] && d2.files == [[]];
    d3 := After(s, d2, Syncing);
    TwoSegments(s.limit, e, f);
    QuietDeath(s, d3);
    d4 := After(s, d3, Dying(0, None, None));
    d5 := After(s, d4, Deleting(q.id, g));
    assert d5.buffer == [g];
    d6 := After(s, d5, Syncing);
    Wal.WriteOne(d5.files, 0, s.limit, g);
    assert d6.files == [Wal.Frame(e) + Wal.Frame(g), Wal.Frame(f)];
    QuietDeath(s, d6);
    d7 := After(s, d6, Dying(0, None, None));
    hide Possible, Wal.WriteAll;
    DeleteReadInFront(s, r, e, q, f, g);
  }

  lemma TwoSegments(limit: nat, e: Wal.Entry, f: Wal.Entry)
    requires |Wal.Frame(e)| <= limit < |Wal.Frame(e)| + |Wal.Frame(f)|
    ensures Wal.WriteAll([[]], 0, limit, [e, f]) == ([Wal.Frame(e), Wal.Frame(f)], 1)
  {
    hide Wal.Frame;
    Wal.NothingWritten([[]], 0, limit);
    Wal.WriteNext([[]], 0, limit, [e, f], 1);
    assert [e, f][..1] == [e] && [e, f][..2] == [e, f];
    Wal.WriteOne([[]], 0, limit, e);
    assert [] + Wal.Frame(e) == Wal.Frame(e);
    assert Wal.WithBytes([[]], 0, Wal.Frame(e)) == [Wal.Frame(e)];
    Wal.WriteOne([Wal.Frame(e)], 0, limit, f);
    hide Wal.WriteAll;
    assert [Wal.Frame(e)] + [Wal.Frame(f)] == [Wal.Frame(e), Wal.Frame(f)];
  }

  lemma QuietDeath(s: Setup, d: Disk)
    requires WellFormed(d) && d.buffer == []
    ensures Possible(s, d, Dying(0, None, None)) && After(s, d, Dying(0, None, None)) == Started(s, d.files, d.tables)
  {
    assert d.buffer[..0] == [];
    Wal.NothingWritten(d.files, d.open, s.limit);
    assert d.tables + [] == d.tables;
    hide Started;
  }

  lemma ReadThree(e: Wal.Entry, f: Wal.Entry, g: Wal.Entry)
    requires e.Valid() && f.Valid() && g.Valid()
    ensures Wal.ReadFiles([Wal.Frame(e) + Wal.Frame(g), Wal.Frame(f)]) == [e, g, f]
  {
    Wal.FrameIsWhole(e);
    Wal.FrameIsWhole(g);
    Wal.FrameIsWhole(f);
    hide Wal.Frame, Wal.ReadFiles, Wal.Parse;
    Wal.ParseBehindWhole(Wal.Frame(e), Wal.Frame(g));
    var front, back := Wal.Frame(e) + Wal.Frame(g), Wal.Frame(f);
    Wal.ReadOne(front);
    Wal.ReadOne(back);
    Wal.ReadFilesConcat([front], [back]);
    assert [front, back] == [front] + [back];
  }

  lemma LastUpsertWins(log: seq<Payload>, q: Record)
    requires q.Valid()
    ensures Serves(Disk([], 0, [], [], Reopen(log + [RawUpsert(q)], []).mem, Reopen(log + [RawUpsert(q)], []).tombs), q.id) == Some(q)
  {
    PayloadRoundTrip(q, "");
    LastOpAppend(log, RawUpsert(q), q.id);
    hide RawUpsert, ParsePayload, LastOp, Replay;
    LastOperationDecides(Durable([]), log + [RawUpsert(q)], q.id);
    assert q.id !in Durable([]);
  }

  lemma DeleteReadInFront(s: Setup, r: Record, e: Wal.Entry, q: Record, f: Wal.Entry, g: Wal.Entry)
    requires Possible(s, FreshDirectory, Upserting(r, e)) && Possible(s, FreshDirectory, Upserting(q, f))
    requires Possible(s, FreshDirectory, Deleting(q.id, g))
    ensures Serves(Started(s, [Wal.Frame(e) + Wal.Frame(g), Wal.Frame(f)], []), q.id) == Some(q)
  {
    ReadThree(e, f, g);
    var log := [RawUpsert(r), Tombstone(q.id)];
    LastUpsertWins(log, q);
    assert Payloads(s, [e, g, f]) == log + [RawUpsert(q)];
    hide Wal.Frame, Wal.ReadFiles, RawUpsert, Tombstone, Reopen;
  }

  // ----- the process -----

  class ShardContext {
    const setup: Setup
    const wal: Wal.Log
    const segments: SegmentStore
    var tombstones: set<string>

    ghost function View(): Disk
      reads this, wal, segments, segments.memtable
    {
      Disk(wal.files, wal.segmentId, wal.buffer, segments.sstables, segments.memtable.data, tombstones)
    }

    ghost predicate Valid()
      reads this, wal, segments, segments.memtable
    {
      segments.Valid() && wal.Valid() && wal.segmentBytes == setup.limit
    }

    /** A new process: open the log, read it, recover from it and the tables on disk. */
    constructor (setup: Setup, onDisk: seq<seq<byte>>, tables: seq<Table>, threshold: nat)
      requires forall t :: t in tables ==> DistinctIds(t)
      ensures Valid() && fresh(wal) && fresh(segments) && fresh(segments.memtable) && this.setup == setup
      ensures View() == Started(setup, if onDisk == [] then [[]] else onDisk, tables)
    {
      this.setup := setup;
      wal := new Wal.Log(onDisk, setup.limit);
      segments := new SegmentStore(tables, threshold);
      tombstones := {};
      new;
      hide Wal.ReadFiles, Wal.Sane, Wal.WriteAll, Reopen;
      Wal.NothingWritten(wal.files, wal.segmentId, wal.segmentBytes);
      var entries := wal.ReadAll();
      tombstones := RecoverInto(Payloads(setup, entries), segments);
      ReopenHas(Payloads(setup, entries), tables);
    }

    /** One record of an upsert request, on its primary. */
    method Upsert(r: Record, clock: nat)
      requires Valid() && r.Valid() && setup.Carries(RawUpsert(r)) && 0 < clock < Wal.Pow256(8)
      modifies this, wal, segments, segments.memtable
      ensures Valid()
      ensures var d := After(setup, old(View()), Upserting(r, Wal.Entry(setup.encode(RawUpsert(r)), clock)));
        View() == d || exists snap :: Possible(setup, d, Flushing(snap)) && View() == After(setup, d, Flushing(snap))
    {
      ghost var d := After(setup, View(), Upserting(r, Wal.Entry(setup.encode(RawUpsert(r)), clock)));
      wal.Append(Wal.Entry(setup.encode(RawUpsert(r)), clock));
      tombstones := tombstones - {r.id};
      label put:
      segments.Put(r);
      if segments.sstables != old@put(segments.sstables) {
        ghost var snap := segments.sstables[|old@put(segments.sstables)|];
        assert segments.sstables == d.tables + [snap];
        assert Possible(setup, d, Flushing(snap)) && View() == After(setup, d, Flushing(snap));
      }
    }

    /** One id of a delete request. */
    method Delete(id: string, clock: nat)
      requires Valid() && setup.Carries(Tombstone(id)) && 0 < clock < Wal.Pow256(8)
      modifies this, wal, segments.memtable
      ensures Valid()
      ensures View() == After(setup, old(View()), Deleting(id, Wal.Entry(setup.encode(Tombstone(id)), clock)))
    {
      ghost var before := View();
      var rec := segments.Get(id);
      if rec.Some? {
        segments.memtable.Delete(id);
      }
      assert before.mem - {id} == segments.memtable.data;
      tombstones := tombstones + {id};
      wal.Append(Wal.Entry(setup.encode(Tombstone(id)), clock));
    }

    method Fetch(id: string) returns (r: Option<Record>)
      requires Valid()
      ensures r == Serves(View(), id)
    {
      r := segments.Get(id);
      if r.Some? && id in tombstones {
        r := None;
      }
    }

    method FlushWal()
      requires Valid()
      modifies wal
      ensures Valid() && View() == After(setup, old(View()), Syncing)
    {
      hide Wal.ReadFiles, Wal.Sane, Wal.WriteAll;
      wal.Flush();
    }

    method FlushSegments()
      requires Valid()
      modifies segments, segments.memtable
      ensures Valid()
      ensures exists snap :: Possible(setup, old(View()), Flushing(snap)) && View() == After(setup, old(View()), Flushing(snap))
    {
      ghost var d := View();
      segments.Flush();
      if d.mem != map[] {
        ghost var snap := segments.sstables[|d.tables|];
        assert segments.sstables == d.tables + [snap];
        assert Possible(setup, d, Flushing(snap));
      } else {
        assert IsSnapshot(d.mem, []);
        assert Possible(setup, d, Flushing([]));
      }
    }
  }
}
