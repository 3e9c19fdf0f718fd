/** One id of a shard over its segment files. A log that reads entries in later segments loses
    operations on the ids those segments mention; on any other id it loses none. */
module RecordOnDisk {
  import opened Wrappers
  import opened Crc32
  import Wal
  import opened Records
  import opened Segments
  import opened Recovery
  import opened Ingest
  import opened ShardOnDisk

  /** The last operation on an id among these entries. */
  ghost function OpIn(s: Setup, es: seq<Wal.Entry>, id: string): Option<Op> {
    LastOp(Payloads(s, es), id)
  }

  lemma OpInConcat(s: Setup, a: seq<Wal.Entry>, b: seq<Wal.Entry>, id: string)
    ensures OpIn(s, a + b, id) == if OpIn(s, b, id).Some? then OpIn(s, b, id) else OpIn(s, a, id)
  {
    PayloadsConcat(s, a, b);
    LastOpConcat(Payloads(s, a), Payloads(s, b), id);
  }

  lemma OpInNothing(s: Setup, id: string)
    ensures OpIn(s, [], id) == None
  {
  }

  /** From the open segment on every segment ends on a frame boundary. */
  ghost predicate WholeFrom(files: seq<seq<byte>>, open: nat) {
    open < |files| && forall i :: open <= i < |files| ==> Wal.Whole(files[i])
  }

  /** No segment behind the open one has an operation on the id. */
  ghost predicate NoLater(s: Setup, files: seq<seq<byte>>, open: nat, id: string) {
    OpIn(s, Wal.Later(files, open), id) == None
  }

  // ----- what reaches the files -----

  lemma LaterStep(s: Setup, files: seq<seq<byte>>, open: nat, id: string)
    requires open < |files| && NoLater(s, files, open, id)
    ensures NoLater(s, files, open + 1, id)
  {
    hide Wal.Parse, Wal.ReadFiles, OpIn;
    OpInNothing(s, id);
    if open + 1 < |files| {
      Wal.ReadFilesConcat([files[open + 1]], files[open + 2..]);
      assert [files[open + 1]] + files[open + 2..] == files[open + 1..];
      OpInConcat(s, Wal.ReadFiles([files[open + 1]]), Wal.ReadFiles(files[open + 2..]), id);
    }
  }

  lemma WriteKeepsWhole(files: seq<seq<byte>>, open: nat, at: nat, e: Wal.Entry)
    requires WholeFrom(files, open) && open <= at <= |files| && e.Valid()
    ensures Wal.Whole(Wal.Target(files, at)) && WholeFrom(Wal.WithBytes(files, at, Wal.Frame(e)), at)
    ensures Wal.Later(Wal.WithBytes(files, at, Wal.Frame(e)), at) == Wal.Later(files, at)
  {
    assert Wal.ReadFiles([]) == [];
    hide Wal.Frame, Wal.Parse, Wal.Whole, Wal.ReadFiles;
    Wal.NothingIsWhole();
    Wal.WholeBehindWhole(Wal.Target(files, at), e);
    var out := Wal.WithBytes(files, at, Wal.Frame(e));
    assert [] + Wal.Frame(e) == Wal.Frame(e);
    assert out[at] == Wal.Target(files, at) + Wal.Frame(e);
    forall i | at < i < |out| ensures out[i] == files[i] {
    }
    assert out[at + 1..] == if at < |files| then files[at + 1..] else [];
  }

  lemma ReadBehindWhole(files: seq<seq<byte>>, at: nat, e: Wal.Entry)
    requires at <= |files| && e.Valid() && Wal.Whole(Wal.Target(files, at))
    ensures var front, here, later := Wal.ReadFiles(files[..at]), Wal.Parse(Wal.Target(files, at)), Wal.Later(files, at);
      && Wal.ReadFiles(files) == front + here + later
      && Wal.ReadFiles(Wal.WithBytes(files, at, Wal.Frame(e))) == front + (here + [e]) + later
  {
    hide Wal.ReadFiles, Wal.Later, Wal.Target, Wal.Frame, Wal.Parse, Wal.Torn, Wal.WithBytes;
    Wal.ReadAround(files, at, Wal.Frame(e));
    Wal.ParseBehindWhole(Wal.Target(files, at), Wal.Frame(e));
    Wal.FrameIsWhole(e);
  }

  lemma NoLaterAt(s: Setup, files: seq<seq<byte>>, open: nat, at: nat, id: string)
    requires open < |files| && open <= at <= open + 1 && NoLater(s, files, open, id)
    ensures NoLater(s, files, at, id)
  {
    hide Wal.Later, OpIn;
    if at == open + 1 {
      LaterStep(s, files, open, id);
    }
  }

  lemma SameLater(s: Setup, files: seq<seq<byte>>, out: seq<seq<byte>>, at: nat, id: string)
    requires Wal.Later(out, at) == Wal.Later(files, at)
    ensures NoLater(s, out, at, id) <==> NoLater(s, files, at, id)
  {
    hide Wal.Later, OpIn;
  }

  /** An entry on another id moves nothing, and one in front of nothing on the id is read last. */
  lemma ReadsAsLast(s: Setup, files: seq<seq<byte>>, at: nat, e: Wal.Entry, id: string)
    requires at <= |files| && e.Valid() && Wal.Whole(Wal.Target(files, at))
    requires OpIn(s, [e], id) == None || NoLater(s, files, at, id)
    ensures OpIn(s, Wal.ReadFiles(Wal.WithBytes(files, at, Wal.Frame(e))), id) == OpIn(s, Wal.ReadFiles(files) + [e], id)
  {
    hide Wal.ReadFiles, Wal.Later, Wal.Target, Wal.Frame, Wal.Parse, Wal.Whole, Wal.WithBytes, OpIn;
    ReadBehindWhole(files, at, e);
    OpInMoved(s, Wal.ReadFiles(files[..at]), Wal.Parse(Wal.Target(files, at)), [e], Wal.Later(files, at), id);
  }

  /** One frame written: the id keeps its last operation if the entry is on another, and if nothing
      behind the open segment is on the id the entry is read last. */
  lemma WriteOneFor(s: Setup, files: seq<seq<byte>>, open: nat, at: nat, e: Wal.Entry, id: string)
    requires WholeFrom(files, open) && open <= at <= open + 1 && at <= |files| && e.Valid()
    ensures var out := Wal.WithBytes(files, at, Wal.Frame(e));
      && WholeFrom(out, at)
      && (NoLater(s, files, open, id) ==> NoLater(s, out, at, id))
      && (OpIn(s, [e], id) == None || NoLater(s, files, open, id) ==>
            OpIn(s, Wal.ReadFiles(out), id) == OpIn(s, Wal.ReadFiles(files) + [e], id))
  {
    assert open < |files|;
    hide Wal.ReadFiles, Wal.Later, Wal.Target, Wal.Frame, Wal.Parse, Wal.Whole, Wal.WithBytes, OpIn, WholeFrom, NoLater;
    WriteKeepsWhole(files, open, at, e);
    if NoLater(s, files, open, id) {
      NoLaterAt(s, files, open, at, id);
      SameLater(s, files, Wal.WithBytes(files, at, Wal.Frame(e)), at, id);
    }
    if OpIn(s, [e], id) == None || NoLater(s, files, open, id) {
      ReadsAsLast(s, files, at, e, id);
    }
  }

  lemma OpInMoved(s: Setup, a: seq<Wal.Entry>, m: seq<Wal.Entry>, e: seq<Wal.Entry>, r: seq<Wal.Entry>, id: string)
    requires OpIn(s, e, id) == None || OpIn(s, r, id) == None
    ensures OpIn(s, a + (m + e) + r, id) == OpIn(s, a + m + r + e, id)
  {
    hide OpIn;
    OpInConcat(s, a + (m + e), r, id);
    OpInConcat(s, a, m + e, id);
    OpInConcat(s, m, e, id);
    OpInConcat(s, a + m + r, e, id);
    OpInConcat(s, a + m, r, id);
    OpInConcat(s, a, m, id);
  }

  /** A whole batch, whatever rotates. */
  lemma {:induction false} WriteAllFor(s: Setup, files: seq<seq<byte>>, open: nat, batch: seq<Wal.Entry>, id: string)
    requires WholeFrom(files, open) && Wal.AllValid(batch)
    requires OpIn(s, batch, id) == None || NoLater(s, files, open, id)
    ensures var (out, now) := Wal.WriteAll(files, open, s.limit, batch);
      && WholeFrom(out, now)
      && (NoLater(s, files, open, id) ==> NoLater(s, out, now, id))
      && OpIn(s, Wal.ReadFiles(out), id) == OpIn(s, Wal.ReadFiles(files) + batch, id)
  {
    hide Wal.Frame, Wal.ReadFiles, Wal.Whole, Wal.WithBytes, Wal.Later, OpIn, NoLater;
    if batch == [] {
      Wal.NothingWritten(files, open, s.limit);
      assert Wal.ReadFiles(files) + batch == Wal.ReadFiles(files);
    } else {
      var n := |batch| - 1;
      var init, last := batch[..n], [batch[n]];
      assert init + last == batch;
      OpInConcat(s, init, last, id);
      WriteAllFor(s, files, open, init, id);
      var (out, now) := Wal.WriteAll(files, open, s.limit, init);
      WriteOneFor(s, out, now, Wal.Place(out, now, s.limit, |Wal.Frame(batch[n])|), batch[n], id);
      hide WholeFrom, Wal.Place;
      OpInConcat(s, Wal.ReadFiles(out), last, id);
      OpInConcat(s, Wal.ReadFiles(files), init, id);
      OpInConcat(s, Wal.ReadFiles(files) + init, last, id);
      Wal.Assoc(Wal.ReadFiles(files), init, last);
    }
  }

  // ----- one step -----

  /** What the durable pieces say the id should be, the log taken as it is read. */
  ghost function TruthOnDisk(s: Setup, d: Disk, id: string): Option<Record> {
    Truth(View(s, d), id)
  }

  /** What is served for the id agrees, up to (version, checksum), with its durable pieces. */
  ghost predicate Agrees(c: Ctx, id: string) {
    && (id in c.mem ==> LastOp(c.log, id).Some?)
    && (id in c.tombs <==> LastOp(c.log, id) == Some(Delete(id)))
    && SameWrite(Served(c, id), Truth(c, id))
  }

  /** The log takes what is waiting, and nothing is read behind what is waiting for the id. */
  ghost predicate TakesFor(s: Setup, d: Disk, id: string) {
    && (d.buffer == [] || WholeFrom(d.files, d.open))
    && (OpIn(s, d.buffer, id) == None || NoLater(s, d.files, d.open, id))
  }

  /** What the operation leaves under the id it concerns. */
  ghost function Outcome(e: DiskEvent): Option<Record> {
    if e.Upserting? then Some(e.rec) else None
  }

  lemma OperationAgrees(c: Ctx, e: Event, id: string)
    requires id != "" && Agrees(c, id) && Enabled(c, e) && (e.Write? || e.Remove?)
    ensures Agrees(Step(c, e), id)
    ensures Truth(Step(c, e), id) == if Touches(e, id) then (if e.Write? then Some(e.rec) else None) else Truth(c, id)
  {
    hide LastOp, Durable, ParsePayload, RawUpsert, Tombstone;
    match e
    case Write(r) =>
      PayloadRoundTrip(r, "");
      LastOpAppend(c.log, RawUpsert(r), id);
    case Remove(gone) =>
      PayloadRoundTrip(Record("x", 1, "", Null), gone);
      LastOpAppend(c.log, Tombstone(gone), id);
  }

  lemma FlushAgrees(c: Ctx, snap: Table, id: string)
    requires Agrees(c, id) && IsSnapshot(c.mem, snap)
    ensures Agrees(Step(c, FlushTable(snap)), id) && Truth(Step(c, FlushTable(snap)), id) == Truth(c, id)
  {
    DurableAppend(c.tables, snap);
    hide LastOp, Durable, TableMap;
  }

  /** A new process that reads the same last operation on the id has the same truth about it, the
      lines of a table its predecessor was writing included. */
  lemma ReopenAgrees(c: Ctx, log: seq<Payload>, part: Option<Table>, id: string)
    requires Agrees(c, id) && (part.Some? ==> exists snap :: IsSnapshot(c.mem, snap) && part.value <= snap)
    ensures var c' := Reopen(log, c.tables + if part.Some? then [part.value] else []);
      && Agrees(c', id)
      && (LastOp(log, id) == LastOp(c.log, id) ==> Truth(c', id) == Truth(c, id))
  {
    var tables := c.tables + if part.Some? then [part.value] else [];
    ReopenAt(log, tables, id);
    ReopenHas(log, tables);
    match part
    case None => assert tables == c.tables;
    case Some(lines) =>
      var snap :| IsSnapshot(c.mem, snap) && lines <= snap;
      PartOfSnapshot(snap, lines, id);
      DurableAppend(c.tables, lines);
      hide LastOp, Durable, TableMap, Reopen;
  }

  lemma SyncReads(s: Setup, d: Disk, id: string)
    requires WellFormed(d) && TakesFor(s, d, id)
    ensures OpIn(s, Wal.ReadFiles(After(s, d, Syncing).files), id) == OpIn(s, Wal.ReadFiles(d.files) + d.buffer, id)
  {
    hide Wal.ReadFiles, Wal.WriteAll, OpIn, NoLater, WholeFrom;
    if d.buffer == [] {
      Wal.NothingWritten(d.files, d.open, s.limit);
      assert Wal.ReadFiles(d.files) + d.buffer == Wal.ReadFiles(d.files);
    } else {
      WriteAllFor(s, d.files, d.open, d.buffer, id);
    }
  }

  /** Of a dying process's log the id's last operation is that of what reached the disk. */
  lemma LeftReadsFor(s: Setup, d: Disk, written: nat, torn: Option<nat>, id: string)
    requires WellFormed(d) && TakesFor(s, d, id) && Possible(s, d, Dying(written, torn, None))
    ensures OpIn(s, Wal.ReadFiles(Left(s, d, written, torn)), id) == OpIn(s, Wal.ReadFiles(d.files) + d.buffer[..written], id)
  {
    hide Wal.Frame, Wal.ReadFiles, Wal.Whole, Wal.WithBytes, OpIn, NoLater, Wal.Place;
    var batch := d.buffer[..written];
    if d.buffer == [] {
      Wal.NothingWritten(d.files, d.open, s.limit);
      assert Wal.ReadFiles(d.files) + batch == Wal.ReadFiles(d.files);
    } else {
      assert d.buffer == batch + d.buffer[written..];
      OpInConcat(s, batch, d.buffer[written..], id);
      WriteAllFor(s, d.files, d.open, batch, id);
      if torn.Some? {
        var (out, now) := Wal.WriteAll(d.files, d.open, s.limit, batch);
        hide Wal.WriteAll;
        var e := d.buffer[written];
        var at := Wal.Place(out, now, s.limit, |Wal.Frame(e)|);
        WriteKeepsWhole(out, now, at, e);
        Wal.TornWriteReadsNothing(out, at, e, torn.value);
      }
    }
  }

  lemma ViewLog(s: Setup, d: Disk, id: string)
    ensures LastOp(View(s, d).log, id) == OpIn(s, Wal.ReadFiles(d.files) + d.buffer, id)
  {
    PayloadsConcat(s, Wal.ReadFiles(d.files), d.buffer);
    hide Wal.ReadFiles, Payloads, LastOp;
  }

  /** Nothing is logged in front of a torn segment, and nothing on the id in front of a segment that
      has an operation on it. */
  ghost predicate InOrderFor(s: Setup, d: Disk, e: DiskEvent, id: string) {
    && (Logs(e) ==> WholeFrom(d.files, d.open))
    && (Concerns(e, id) ==> NoLater(s, d.files, d.open, id))
  }

  /** The event is a death in which an operation on the id is lost that was never written. */
  ghost predicate Drops(s: Setup, d: Disk, e: DiskEvent, id: string) {
    e.Dying? && e.written <= |d.buffer| && OpIn(s, d.buffer[e.written..], id) != None
  }

  lemma OperationView(s: Setup, d: Disk, e: DiskEvent)
    requires WellFormed(d) && Possible(s, d, e) && Logs(e)
    ensures Enabled(View(s, d), Seen(d, e)) && View(s, After(s, d, e)) == Step(View(s, d), Seen(d, e))
  {
    hide Wal.ReadFiles, RawUpsert, Tombstone;
    match e
    case Upserting(r, entry) => PayloadsConcat(s, d.buffer, [entry]);
    case Deleting(gone, entry) => PayloadsConcat(s, d.buffer, [entry]);
  }

  lemma OperationStep(s: Setup, d: Disk, e: DiskEvent, id: string)
    requires id != "" && WellFormed(d) && Possible(s, d, e) && Logs(e) && Agrees(View(s, d), id)
    ensures Agrees(View(s, After(s, d, e)), id)
    ensures TruthOnDisk(s, After(s, d, e), id) == if Concerns(e, id) then Outcome(e) else TruthOnDisk(s, d, id)
  {
    hide View, Agrees, Truth, After, Possible, Enabled, Step, WellFormed;
    OperationView(s, d, e);
    OperationAgrees(View(s, d), Seen(d, e), id);
  }

  lemma SyncStep(s: Setup, d: Disk, id: string)
    requires WellFormed(d) && TakesFor(s, d, id) && Agrees(View(s, d), id)
    ensures Agrees(View(s, After(s, d, Syncing)), id)
    ensures TruthOnDisk(s, After(s, d, Syncing), id) == TruthOnDisk(s, d, id)
  {
    var d' := After(s, d, Syncing);
    SyncReads(s, d, id);
    ViewLog(s, d, id);
    ViewLog(s, d', id);
    hide Wal.ReadFiles, Wal.WriteAll, OpIn, TakesFor, LastOp;
    assert Wal.ReadFiles(d'.files) + d'.buffer == Wal.ReadFiles(d'.files);
  }

  lemma DeathStep(s: Setup, d: Disk, e: DiskEvent, id: string)
    requires WellFormed(d) && Possible(s, d, e) && e.Dying? && TakesFor(s, d, id) && Agrees(View(s, d), id)
    ensures Agrees(View(s, After(s, d, e)), id)
    ensures !Drops(s, d, e, id) ==> TruthOnDisk(s, After(s, d, e), id) == TruthOnDisk(s, d, id)
  {
    hide Wal.ReadFiles, Wal.WriteAll, OpIn, TakesFor, LastOp, Left, Started, Reopen, Agrees, Truth, Payloads;
    var read, kept := Wal.ReadFiles(d.files), d.buffer[..e.written];
    var left := Left(s, d, e.written, e.torn);
    LeftReadsFor(s, d, e.written, e.torn, id);
    assert d.buffer == kept + d.buffer[e.written..];
    Wal.Assoc(read, kept, d.buffer[e.written..]);
    OpInConcat(s, read + kept, d.buffer[e.written..], id);
    ViewLog(s, d, id);
    StartedView(s, left, d.tables + if e.part.Some? then [e.part.value] else []);
    ReopenAgrees(View(s, d), Payloads(s, Wal.ReadFiles(left)), e.part, id);
    OpInIs(s, Wal.ReadFiles(left), id);
  }

  lemma OpInIs(s: Setup, es: seq<Wal.Entry>, id: string)
    ensures LastOp(Payloads(s, es), id) == OpIn(s, es, id)
  {
  }

  /** One step of one id: its truth is what an operation on it says, and else changes only where a
      death takes an operation that was never written. */
  lemma StepFor(s: Setup, d: Disk, e: DiskEvent, id: string)
    requires id != "" && WellFormed(d) && Possible(s, d, e)
    requires TakesFor(s, d, id) && Agrees(View(s, d), id) && InOrderFor(s, d, e, id)
    ensures Agrees(View(s, After(s, d, e)), id)
    ensures Concerns(e, id) ==> TruthOnDisk(s, After(s, d, e), id) == Outcome(e)
    ensures !Concerns(e, id) && !Drops(s, d, e, id) ==> TruthOnDisk(s, After(s, d, e), id) == TruthOnDisk(s, d, id)
  {
    hide Wal.ReadFiles, Wal.WriteAll, OpIn, TakesFor, Left, Started, Reopen, Agrees, Truth, Payloads, View;
    match e
    case Syncing => SyncStep(s, d, id);
    case Dying(_, _, _) => DeathStep(s, d, e, id);
    case Flushing(snap) => FlushStep(s, d, snap, id);
    case _ => OperationStep(s, d, e, id);
  }

  lemma FlushStep(s: Setup, d: Disk, snap: Table, id: string)
    requires WellFormed(d) && Possible(s, d, Flushing(snap)) && Agrees(View(s, d), id)
    ensures Agrees(View(s, After(s, d, Flushing(snap))), id)
    ensures TruthOnDisk(s, After(s, d, Flushing(snap)), id) == TruthOnDisk(s, d, id)
  {
    hide Wal.ReadFiles, Agrees, Truth;
    FlushAgrees(View(s, d), snap, id);
  }

  lemma TakesStep(s: Setup, d: Disk, e: DiskEvent, id: string)
    requires WellFormed(d) && Possible(s, d, e) && TakesFor(s, d, id) && InOrderFor(s, d, e, id)
    ensures TakesFor(s, After(s, d, e), id)
    ensures !Concerns(e, id) && OpIn(s, d.buffer, id) == None ==> OpIn(s, After(s, d, e).buffer, id) == None
  {
    hide Wal.ReadFiles, Wal.WriteAll, Wal.Later, OpIn, Left, Started, WholeFrom, RawUpsert, Tombstone;
    OpInNothing(s, id);
    match e
    case Upserting(r, entry) =>
      OpInConcat(s, d.buffer, [entry], id);
      OtherOperation(s, e, entry, id);
    case Deleting(gone, entry) =>
      OpInConcat(s, d.buffer, [entry], id);
      OtherOperation(s, e, entry, id);
    case Dying(_, _, part) =>
      StartedHoldsNothing(s, Left(s, d, e.written, e.torn), d.tables + if part.Some? then [part.value] else []);
    case _ =>
  }

  lemma OtherOperation(s: Setup, e: DiskEvent, entry: Wal.Entry, id: string)
    requires e.Upserting? || e.Deleting?
    requires e.entry == entry && if e.Upserting? then e.rec.Valid() && s.decode(entry.payload) == RawUpsert(e.rec) else s.decode(entry.payload) == Tombstone(e.id)
    ensures !Concerns(e, id) ==> OpIn(s, [entry], id) == None
  {
    assert Payloads(s, [entry]) == [] + [s.decode(entry.payload)];
    LastOpAppend([], s.decode(entry.payload), id);
    match e
    case Upserting(r, _) => PayloadRoundTrip(r, "");
    case Deleting(gone, _) => PayloadRoundTrip(Record("x", 1, "", Null), gone);
    hide RawUpsert, Tombstone, ParsePayload;
  }

  // ----- whole histories -----

  /** On this id the history keeps the order of the log: nothing is ever logged in front of a torn
      segment, nor an operation on the id in front of a segment that has one on it. */
  ghost predicate OrderlyFor(s: Setup, ds: seq<Disk>, es: seq<DiskEvent>, id: string)
    requires |ds| == |es| + 1
  {
    forall i :: 0 <= i < |es| ==> InOrderFor(s, ds[i], es[i], id)
  }

  lemma {:induction false} RunKeepsAgreement(s: Setup, ds: seq<Disk>, es: seq<DiskEvent>, n: nat, id: string)
    requires IsDiskRun(s, ds, es) && OrderlyFor(s, ds, es, id) && n <= |es| && id != ""
    ensures WellFormed(ds[n]) && TakesFor(s, ds[n], id) && Agrees(View(s, ds[n]), id)
  {
    hide Possible, After, View, InOrderFor;
    if n == 0 {
      FreshAgrees(s, id);
    } else {
      RunKeepsAgreement(s, ds, es, n - 1, id);
      hide WellFormed, TakesFor, Agrees;
      StaysWellFormed(s, ds[n - 1], es[n - 1]);
      TakesStep(s, ds[n - 1], es[n - 1], id);
      StepFor(s, ds[n - 1], es[n - 1], id);
    }
  }

  lemma FreshAgrees(s: Setup, id: string)
    ensures WellFormed(FreshDirectory) && TakesFor(s, FreshDirectory, id) && Agrees(View(s, FreshDirectory), id)
    ensures TruthOnDisk(s, FreshDirectory, id) == None
  {
    Wal.FreshIsSane();
    assert View(s, FreshDirectory) == Empty;
    NothingLogged(id);
  }

  lemma ServesTruth(s: Setup, d: Disk, id: string)
    requires Agrees(View(s, d), id)
    ensures SameWrite(Serves(d, id), TruthOnDisk(s, d, id))
  {
    ViewOf(s, d, id);
    hide View, Truth, LastOp, Serves, Served;
  }

  lemma {:induction false} TruthSurvives(s: Setup, ds: seq<Disk>, es: seq<DiskEvent>, i: nat, j: nat, id: string)
    requires IsDiskRun(s, ds, es) && OrderlyFor(s, ds, es, id) && i <= j <= |es| && id != ""
    requires OpIn(s, ds[i].buffer, id) == None
    requires forall k :: i <= k < j ==> !Concerns(es[k], id)
    ensures OpIn(s, ds[j].buffer, id) == None && TruthOnDisk(s, ds[j], id) == TruthOnDisk(s, ds[i], id)
  {
    hide Possible, After, View, InOrderFor, TakesFor, OpIn, TruthOnDisk, Agrees, WellFormed;
    if i < j {
      TruthSurvives(s, ds, es, i, j - 1, id);
      RunKeepsAgreement(s, ds, es, j - 1, id);
      TakesStep(s, ds[j - 1], es[j - 1], id);
      NothingDropped(s, ds[j - 1], es[j - 1], id);
      StepFor(s, ds[j - 1], es[j - 1], id);
    }
  }

  /** An acknowledged state of an id survives any flushes, crashes at any byte, and restarts, over
      any number of segments, until the next operation on it, in every history that keeps the order
      of the log on that id. */
  lemma AcknowledgedRecordSurvives(s: Setup, ds: seq<Disk>, es: seq<DiskEvent>, i: nat, j: nat, id: string)
    requires IsDiskRun(s, ds, es) && OrderlyFor(s, ds, es, id) && i <= j <= |es| && id != ""
    requires OpIn(s, ds[i].buffer, id) == None
    requires forall k :: i <= k < j ==> !Concerns(es[k], id)
    ensures match (Serves(ds[j], id), Serves(ds[i], id))
      case (Some(r), Some(q)) => r.version == q.version && r.checksum == q.checksum
      case (r, q) => r == None && q == None
  {
    RunKeepsAgreement(s, ds, es, i, id);
    RunKeepsAgreement(s, ds, es, j, id);
    TruthSurvives(s, ds, es, i, j, id);
    hide IsDiskRun, OrderlyFor, View, TakesFor, OpIn, Serves, TruthOnDisk, Agrees;
    ServesTruth(s, ds[i], id);
    ServesTruth(s, ds[j], id);
  }

  lemma {:induction false} TruthIsPlain(s: Setup, ds: seq<Disk>, es: seq<DiskEvent>, n: nat, id: string)
    requires IsDiskRun(s, ds, es) && OrderlyFor(s, ds, es, id) && n <= |es| && id != ""
    requires forall k :: 0 <= k < n ==> !Drops(s, ds[k], es[k], id)
    ensures TruthOnDisk(s, ds[n], id) == Find(PlainMapOf(es[..n]), id)
  {
    hide Possible, After, View, InOrderFor, TakesFor, OpIn, TruthOnDisk, Agrees, WellFormed, Drops;
    if n == 0 {
      FreshAgrees(s, id);
    } else {
      TruthIsPlain(s, ds, es, n - 1, id);
      RunKeepsAgreement(s, ds, es, n - 1, id);
      StepFor(s, ds[n - 1], es[n - 1], id);
      assert es[..n][..n - 1] == es[..n - 1];
    }
  }

  /** Where no death took an operation on the id that was never written, a fetch of it serves the
      (version, checksum) of the plain map. */
  lemma FetchServesLastOperation(s: Setup, ds: seq<Disk>, es: seq<DiskEvent>, n: nat, id: string)
    requires IsDiskRun(s, ds, es) && OrderlyFor(s, ds, es, id) && n <= |es| && id != ""
    requires forall k :: 0 <= k < n ==> !Drops(s, ds[k], es[k], id)
    ensures match (Serves(ds[n], id), Find(PlainMapOf(es[..n]), id))
      case (Some(r), Some(q)) => r.version == q.version && r.checksum == q.checksum
      case (r, q) => r == None && q == None
  {
    RunKeepsAgreement(s, ds, es, n, id);
    TruthIsPlain(s, ds, es, n, id);
    hide IsDiskRun, OrderlyFor, View, TakesFor, OpIn, Serves, TruthOnDisk, Agrees, Drops;
    ServesTruth(s, ds[n], id);
  }

  /** A history that keeps the order of the whole log keeps it on every id. */
  lemma OrderlyOnEveryId(s: Setup, ds: seq<Disk>, es: seq<DiskEvent>, id: string)
    requires |ds| == |es| + 1 && Orderly(ds, es)
    ensures OrderlyFor(s, ds, es, id)
  {
    hide Wal.Parse, Wal.Whole, OpIn;
    OpInNothing(s, id);
    forall i | 0 <= i < |es| ensures InOrderFor(s, ds[i], es[i], id) {
      if Logs(es[i]) {
        Wal.ReadNothing(ds[i].files[ds[i].open + 1..]);
      }
    }
  }

  lemma NothingDropped(s: Setup, d: Disk, e: DiskEvent, id: string)
    requires OpIn(s, d.buffer, id) == None
    ensures !Drops(s, d, e, id)
  {
    hide OpIn;
    if e.Dying? && e.written <= |d.buffer| {
      assert d.buffer == d.buffer[..e.written] + d.buffer[e.written..];
      OpInConcat(s, d.buffer[..e.written], d.buffer[e.written..], id);
    }
  }
}
