/** A replica's own state machine, and when it agrees with its primary. */
module Replica {
  import opened Wrappers
  import opened Records
  import opened Segments
  import opened Recovery
  import opened Ingest
  import Wal
  import D = ShardOnDisk

  // ----- applying a delivered payload -----

  /** The record a delivered upsert carries: enveloped, or bare. */
  function UpsertIn(p: Payload): Option<Record> {
    match p
    case Doc(Obj(data)) =>
      if Field(data, "__op") == Some(Str("upsert")) then
        (match Field(data, "record")
         case Some(Obj(fields)) => Validate(fields)
         case _ => None)
      else Validate(data)
    case _ => None
  }

  function DeleteIn(p: Payload): Option<string> {
    match p
    case Doc(Obj(data)) =>
      (match Field(data, "id")
       case Some(Str(id)) => Some(id)
       case _ => None)
    case _ => None
  }

  /** Which delivered payloads carry which operation, for any JSON. */
  lemma CarriesIff(p: Payload, r: Record, id: string)
    ensures UpsertIn(p) == Some(r) <==>
      p.Doc? && p.json.Obj? && var data := p.json.fields;
        if "__op" in data && data["__op"] == Str("upsert") then
          "record" in data && data["record"].Obj? && Describes(data["record"].fields, r)
        else Describes(data, r)
    ensures DeleteIn(p) == Some(id) <==> p.Doc? && p.json.Obj? && "id" in p.json.fields && p.json.fields["id"] == Str(id)
  {
    if p.Doc? && p.json.Obj? {
      ValidatedIff(p.json.fields, r);
      if "record" in p.json.fields && p.json.fields["record"].Obj? {
        ValidatedIff(p.json.fields["record"].fields, r);
      }
    }
    hide Validate, Describes;
  }

  /** The payloads a primary delivers carry the operation it performed. */
  lemma DeliveredIsPerformed(r: Record, id: string)
    requires r.Valid()
    ensures UpsertIn(RawUpsert(r)) == Some(r) && UpsertIn(EnvelopeUpsert(r)) == Some(r)
    ensures DeleteIn(Tombstone(id)) == Some(id)
  {
    assert Field(ToFields(r), "__op") == None;
    assert Validate(ToFields(r)) == Some(r);
    var data := map["__op" := Str("upsert"), "record" := Obj(ToFields(r))];
    assert Field(data, "__op") == Some(Str("upsert")) && Field(data, "record") == Some(Obj(ToFields(r)));
    var tomb := map["__op" := Str("delete"), "id" := Str(id)];
    assert Field(tomb, "id") == Some(Str(id));
  }

  /** The idempotence test: the store holds this (version, checksum) for the id, hidden or not. */
  ghost predicate AlreadyHas(c: Ctx, r: Record) {
    SameWrite(StoreGet(c.mem, c.tables, r.id), Some(r))
  }

  ghost function Applied(c: Ctx, op: Op): Ctx
    requires op.Upsert? ==> op.rec.Valid()
  {
    match op
    case Upsert(r) => if AlreadyHas(c, r) then c else Step(Step(c, Write(r)), Sync)
    case Delete(id) => Step(Step(c, Remove(id)), Sync)
  }

  /** The invariant of a replica: that of a shard, and nothing in memory is tombstoned. */
  ghost predicate ReplicaInv(c: Ctx) {
    Inv(c) && ReplicaApart(c)
  }

  ghost predicate ReplicaApart(c: Ctx) {
    forall id :: id in c.tombs ==> id !in c.mem
  }

  /** A deleted id whose flushed copy has the key of the record that arrives. */
  ghost predicate Stale(c: Ctx, r: Record) {
    r.id in c.tombs && SameWrite(Find(Durable(c.tables), r.id), Some(r))
  }

  lemma AppliedKeepsInv(c: Ctx, op: Op)
    requires ReplicaInv(c) && (op.Upsert? ==> op.rec.Valid())
    ensures ReplicaInv(Applied(c, op))
  {
    match op
    case Upsert(r) =>
      StepKeepsInv(c, Write(r));
      StepKeepsInv(Step(c, Write(r)), Sync);
      hide Inv, RawUpsert;
    case Delete(id) =>
      StepKeepsInv(c, Remove(id));
      StepKeepsInv(Step(c, Remove(id)), Sync);
      hide Inv, Tombstone;
  }

  /** What a replica serves after a delivery: the delivered operation's outcome, except that an
      upsert of a stale key leaves the id deleted. */
  lemma ServedAfter(c: Ctx, op: Op, id: string)
    requires ReplicaInv(c) && (op.Upsert? ==> op.rec.Valid())
    ensures id != op.Target() ==> Served(Applied(c, op), id) == Served(c, id)
    ensures id == op.Target() && op.Delete? ==> Served(Applied(c, op), id) == None
    ensures id == op.Target() && op.Upsert? ==>
      SameWrite(Served(Applied(c, op), id), if Stale(c, op.rec) then None else Some(op.rec))
  {
    hide Inv, RawUpsert, Tombstone, Durable;
  }

  /** Delivering the last operation once more changes nothing that is served, and for an upsert
      nothing at all. */
  lemma RedeliveryChangesNothing(c: Ctx, op: Op, id: string)
    requires ReplicaInv(c) && (op.Upsert? ==> op.rec.Valid())
    ensures op.Upsert? ==> Applied(Applied(c, op), op) == Applied(c, op)
    ensures Served(Applied(Applied(c, op), op), id) == Served(Applied(c, op), id)
    ensures Applied(Applied(c, op), op).tables == Applied(c, op).tables && Applied(Applied(c, op), op).mem == Applied(c, op).mem
    ensures Applied(Applied(c, op), op).tombs == Applied(c, op).tombs
  {
    hide Inv, RawUpsert, Tombstone, Durable;
  }

  // ----- a primary and its replica -----

  datatype PairEvent =
    | Replicated(op: Op)
    | PrimaryEvent(e: Event)
    | ReplicaEvent(e: Event)

  /** A flush of tables or log, or a restart that finds the whole log: what one side may do alone. */
  ghost predicate OwnEvent(c: Ctx, e: Event) {
    Ingest.Enabled(c, e) && !e.Write? && !e.Remove? && (e.Restart? || e.CrashInFlush? ==> e.kept == |c.log|)
  }

  datatype Pair = Pair(primary: Ctx, replica: Ctx)

  ghost predicate PairEnabled(p: Pair, e: PairEvent) {
    match e
    case Replicated(op) => op.Upsert? ==> op.rec.Valid()
    case PrimaryEvent(o) => OwnEvent(p.primary, o)
    case ReplicaEvent(o) => OwnEvent(p.replica, o)
  }

  /** A replicated operation is performed on the primary and delivered to the replica. */
  ghost function PairStep(p: Pair, e: PairEvent): Pair
    requires PairEnabled(p, e)
  {
    match e
    case Replicated(Upsert(r)) => Pair(Step(p.primary, Write(r)), Applied(p.replica, Upsert(r)))
    case Replicated(Delete(id)) => Pair(Step(p.primary, Remove(id)), Applied(p.replica, Delete(id)))
    case PrimaryEvent(o) => p.(primary := Step(p.primary, o))
    case ReplicaEvent(o) => p.(replica := Step(p.replica, o))
  }

  ghost predicate PairInv(p: Pair) {
    Inv(p.primary) && ReplicaInv(p.replica)
  }

  /** Which ids are visible, and each one's (version, checksum). */
  ghost predicate Agree(p: Pair) {
    forall id :: SameWrite(Served(p.primary, id), Served(p.replica, id))
  }

  /** Whatever a side does alone leaves what it serves. */
  lemma OwnEventServes(c: Ctx, e: Event, id: string)
    requires Inv(c) && OwnEvent(c, e)
    ensures SameWrite(Served(Step(c, e), id), Served(c, id))
    ensures Inv(Step(c, e))
  {
    StepKeepsInv(c, e);
    match e
    case FlushTable(snap) => FlushKeepsInv(c, snap);
    case Sync =>
    case Restart(kept) =>
      RestartKeepsInv(c, kept);
      assert c.log[kept..] == [];
      NothingLogged(id);
      assert SameWrite(Served(c, id), Truth(c, id));
      assert SameWrite(Served(Step(c, e), id), Truth(Step(c, e), id));
    case CrashInFlush(kept, part) =>
      CrashInFlushKeepsInv(c, kept, part);
      assert c.log[kept..] == [];
      NothingLogged(id);
      assert SameWrite(Served(c, id), Truth(c, id));
      assert SameWrite(Served(Step(c, e), id), Truth(Step(c, e), id));
  }

  lemma OwnEventKeepsReplicaInv(c: Ctx, e: Event)
    requires ReplicaInv(c) && OwnEvent(c, e)
    ensures ReplicaInv(Step(c, e))
  {
    OwnEventServes(c, e, "");
    hide Inv;
    if e.Restart? || e.CrashInFlush? {
      var tables := if e.Restart? then c.tables else c.tables + [e.part];
      forall id | id in Step(c, e).tombs ensures id !in Step(c, e).mem {
        LastOperationDecides(Durable(tables), c.log[..e.kept], id);
      }
    }
  }

  lemma PairStepKeepsInv(p: Pair, e: PairEvent)
    requires PairInv(p) && PairEnabled(p, e)
    ensures PairInv(PairStep(p, e))
  {
    hide Inv, ReplicaInv, OwnEvent;
    match e
    case Replicated(op) =>
      AppliedKeepsInv(p.replica, op);
      StepKeepsInv(p.primary, if op.Upsert? then Write(op.rec) else Remove(op.id));
    case PrimaryEvent(o) => OwnEventServes(p.primary, o, "");
    case ReplicaEvent(o) => OwnEventKeepsReplicaInv(p.replica, o);
  }

  ghost predicate StaleDelivery(p: Pair, e: PairEvent) {
    e.Replicated? && e.op.Upsert? && Stale(p.replica, e.op.rec)
  }

  lemma PrimaryServesAfter(c: Ctx, op: Op, id: string)
    requires Inv(c) && (op.Upsert? ==> op.rec.Valid())
    ensures var c' := Step(c, if op.Upsert? then Write(op.rec) else Remove(op.id));
      Served(c', id) == if id != op.Target() then Served(c, id) else if op.Upsert? then Some(op.rec) else None
  {
    hide Inv, RawUpsert, Tombstone, Durable;
  }

  /** One step keeps a primary and its replica in agreement exactly when it is not a stale delivery. */
  lemma StepAgreesIff(p: Pair, e: PairEvent)
    requires PairInv(p) && PairEnabled(p, e) && Agree(p)
    ensures Agree(PairStep(p, e)) <==> !StaleDelivery(p, e)
  {
    hide Inv, OwnEvent, Served, Step, Applied, Stale;
    var p' := PairStep(p, e);
    forall id
      ensures SameWrite(Served(p'.primary, id), Served(p'.replica, id))
              <==> !(StaleDelivery(p, e) && id == e.op.Target())
    {
      assert SameWrite(Served(p.primary, id), Served(p.replica, id));
      match e
      case Replicated(op) =>
        ServedAfter(p.replica, op, id);
        PrimaryServesAfter(p.primary, op, id);
      case PrimaryEvent(o) => OwnEventServes(p.primary, o, id);
      case ReplicaEvent(o) => OwnEventServes(p.replica, o, id);
    }
    if StaleDelivery(p, e) {
      var id := e.op.Target();
      assert !SameWrite(Served(p'.primary, id), Served(p'.replica, id));
    }
  }

  /** A history of the pair from two fresh directories. */
  ghost predicate IsPairRun(ps: seq<Pair>, es: seq<PairEvent>) {
    && |ps| == |es| + 1 && ps[0] == Pair(Empty, Empty)
    && forall i :: 0 <= i < |es| ==> PairEnabled(ps[i], es[i]) && ps[i + 1] == PairStep(ps[i], es[i])
  }

  lemma {:induction false} PairRunKeepsInv(ps: seq<Pair>, es: seq<PairEvent>, n: nat)
    requires IsPairRun(ps, es) && n <= |es|
    ensures PairInv(ps[n])
  {
    if n == 0 {
      RunKeepsInv([Empty], [], 0);
    } else {
      hide PairInv, PairEnabled;
      PairRunKeepsInv(ps, es, n - 1);
      PairStepKeepsInv(ps[n - 1], es[n - 1]);
    }
  }

  /** Convergence: through any flushes and restarts of either side, the replica agrees with its
      primary after every step, if and only if no delivery was stale. */
  lemma {:induction false} ReplicaConvergesIff(ps: seq<Pair>, es: seq<PairEvent>, n: nat)
    requires IsPairRun(ps, es) && n <= |es|
    ensures (forall k :: 0 <= k <= n ==> Agree(ps[k])) <==> forall k :: 0 <= k < n ==> !StaleDelivery(ps[k], es[k])
  {
    if n == 0 {
      assert Agree(ps[0]);
    } else {
      hide Agree, StaleDelivery, PairEnabled, PairInv;
      ReplicaConvergesIff(ps, es, n - 1);
      PairRunKeepsInv(ps, es, n - 1);
      if Agree(ps[n - 1]) {
        StepAgreesIff(ps[n - 1], es[n - 1]);
      }
      assert (forall k :: 0 <= k <= n ==> Agree(ps[k])) <==> (forall k :: 0 <= k <= n - 1 ==> Agree(ps[k])) && Agree(ps[n]);
      assert (forall k :: 0 <= k < n ==> !StaleDelivery(ps[k], es[k]))
        <==> (forall k :: 0 <= k < n - 1 ==> !StaleDelivery(ps[k], es[k])) && !StaleDelivery(ps[n - 1], es[n - 1]);
    }
  }

  /** How a replica comes to miss a record: upserted, flushed to a table, deleted, and sent again with
      the key it had. From two fresh contexts, through enabled steps, to a disagreement. */
  lemma StaleDeliveryIsReachable(r: Record, q: Record) returns (ps: seq<Pair>, es: seq<PairEvent>)
    requires r.Valid() && q.Valid() && q.id == r.id && q.version == r.version && q.checksum == r.checksum
    ensures IsPairRun(ps, es) && |es| == 4
    ensures es[0] == Replicated(Upsert(r)) && es[2] == Replicated(Delete(r.id)) && es[3] == Replicated(Upsert(q))
    ensures StaleDelivery(ps[3], es[3])
    ensures Served(ps[4].primary, r.id) == Some(q) && Served(ps[4].replica, r.id) == None && !Agree(ps[4])
  {
    hide RawUpsert, Tombstone, TableMap, Durable;
    OneRowTable(r);
    var snap := [r];
    assert AlreadyHas(Empty, r) <==> false by { NothingLogged(r.id); }
    es := [Replicated(Upsert(r)), ReplicaEvent(FlushTable(snap)), Replicated(Delete(r.id)), Replicated(Upsert(q))];
    var p0 := Pair(Empty, Empty);
    var p1 := PairStep(p0, es[0]);
    assert p1.replica.mem == map[r.id := r] && p1.replica.tables == [];
    var p2 := PairStep(p1, es[1]);
    assert p2.replica.tables == [] + [snap] == [snap] && p2.replica.mem == map[];
    var p3 := PairStep(p2, es[2]);
    assert p3.replica.tables == [snap] && r.id in p3.replica.tombs;
    assert StaleDelivery(p3, es[3]);
    var p4 := PairStep(p3, es[3]);
    ps := [p0, p1, p2, p3, p4];
    assert !SameWrite(Served(p4.primary, r.id), Served(p4.replica, r.id));
  }

  // ----- over the files -----

  datatype DiskPair = DiskPair(primary: D.Disk, replica: D.Disk)

  /** The same events over the files: an operation is logged on either side with an entry of its own. */
  datatype DiskPairEvent =
    | Delivering(op: Op, logged: Wal.Entry, delivered: Wal.Entry)
    | OnPrimary(e: D.DiskEvent)
    | OnReplica(e: D.DiskEvent)

  function Logging(op: Op, entry: Wal.Entry): D.DiskEvent {
    match op
    case Upsert(r) => D.Upserting(r, entry)
    case Delete(id) => D.Deleting(id, entry)
  }

  /** A flush, a sync, or a death that leaves everything the process logged. */
  ghost predicate OwnDiskEvent(s: D.Setup, d: D.Disk, e: D.DiskEvent) {
    D.Possible(s, d, e) && !D.Logs(e) && (e.Dying? ==> e.written == |d.buffer|)
  }

  ghost predicate DiskAlreadyHas(d: D.Disk, r: Record) {
    SameWrite(StoreGet(d.mem, d.tables, r.id), Some(r))
  }

  /** A side that logs does so on a log that takes it. */
  ghost predicate DiskPairEnabled(s: D.Setup, p: DiskPair, e: DiskPairEvent) {
    && D.WellFormed(p.primary) && D.WellFormed(p.replica)
    && match e
       case Delivering(op, logged, delivered) =>
         && D.Possible(s, p.primary, Logging(op, logged)) && D.Possible(s, p.replica, Logging(op, delivered))
         && Wal.Sane(p.primary.files, p.primary.open) && Wal.Sane(p.replica.files, p.replica.open)
       case OnPrimary(o) => OwnDiskEvent(s, p.primary, o)
       case OnReplica(o) => OwnDiskEvent(s, p.replica, o)
  }

  ghost function DiskApplied(s: D.Setup, d: D.Disk, op: Op, entry: Wal.Entry): D.Disk
    requires D.WellFormed(d) && D.Possible(s, d, Logging(op, entry))
  {
    if op.Upsert? && DiskAlreadyHas(d, op.rec) then d
    else
      D.StaysWellFormed(s, d, Logging(op, entry));
      D.After(s, D.After(s, d, Logging(op, entry)), D.Syncing)
  }

  ghost function DiskPairStep(s: D.Setup, p: DiskPair, e: DiskPairEvent): DiskPair
    requires DiskPairEnabled(s, p, e)
  {
    match e
    case Delivering(op, logged, delivered) =>
      DiskPair(D.After(s, p.primary, Logging(op, logged)), DiskApplied(s, p.replica, op, delivered))
    case OnPrimary(o) => p.(primary := D.After(s, p.primary, o))
    case OnReplica(o) => p.(replica := D.After(s, p.replica, o))
  }

  ghost function PairView(s: D.Setup, p: DiskPair): Pair {
    Pair(D.View(s, p.primary), D.View(s, p.replica))
  }

  ghost function PairSeen(p: DiskPair, e: DiskPairEvent): PairEvent {
    match e
    case Delivering(op, _, _) => Replicated(op)
    case OnPrimary(o) => PrimaryEvent(D.Seen(p.primary, o))
    case OnReplica(o) => ReplicaEvent(D.Seen(p.replica, o))
  }

  ghost predicate BothTake(p: DiskPair) {
    D.Takes(p.primary) && D.Takes(p.replica)
  }

  lemma OwnDiskEventIsOwn(s: D.Setup, d: D.Disk, e: D.DiskEvent)
    requires D.WellFormed(d) && D.Takes(d) && OwnDiskEvent(s, d, e)
    ensures OwnEvent(D.View(s, d), D.Seen(d, e)) && D.View(s, D.After(s, d, e)) == Step(D.View(s, d), D.Seen(d, e))
    ensures D.Takes(D.After(s, d, e)) && D.WellFormed(D.After(s, d, e))
  {
    D.StepIsLogical(s, d, e);
    D.StepKeepsTaking(s, d, e);
    D.StaysWellFormed(s, d, e);
    hide Wal.ReadFiles, Wal.Sane, D.After, Step, Ingest.Enabled;
  }

  lemma LoggingIsWrite(s: D.Setup, d: D.Disk, op: Op, entry: Wal.Entry)
    requires D.WellFormed(d) && Wal.Sane(d.files, d.open) && D.Possible(s, d, Logging(op, entry))
    ensures op.Upsert? ==> op.rec.Valid()
    ensures var d' := D.After(s, d, Logging(op, entry));
      && D.View(s, d') == Step(D.View(s, d), if op.Upsert? then Write(op.rec) else Remove(op.id))
      && D.WellFormed(d') && D.Takes(d') && Wal.Sane(d'.files, d'.open)
  {
    D.StepIsLogical(s, d, Logging(op, entry));
    D.StepKeepsTaking(s, d, Logging(op, entry));
    D.StaysWellFormed(s, d, Logging(op, entry));
    hide Wal.ReadFiles, Wal.Sane, Step, D.View;
  }

  lemma AppliedOnDisk(s: D.Setup, d: D.Disk, op: Op, entry: Wal.Entry)
    requires D.WellFormed(d) && Wal.Sane(d.files, d.open) && D.Possible(s, d, Logging(op, entry))
    ensures op.Upsert? ==> op.rec.Valid()
    ensures D.View(s, DiskApplied(s, d, op, entry)) == Applied(D.View(s, d), op)
    ensures D.WellFormed(DiskApplied(s, d, op, entry)) && D.Takes(DiskApplied(s, d, op, entry))
  {
    LoggingIsWrite(s, d, op, entry);
    var d' := D.After(s, d, Logging(op, entry));
    D.StepIsLogical(s, d', D.Syncing);
    D.StepKeepsTaking(s, d', D.Syncing);
    D.StaysWellFormed(s, d', D.Syncing);
    assert op.Upsert? ==> (DiskAlreadyHas(d, op.rec) <==> AlreadyHas(D.View(s, d), op.rec)) by { hide Wal.ReadFiles; }
    hide Wal.ReadFiles, Wal.Sane, D.After, D.View, Step;
  }

  /** One event over the files is one event over the lists. */
  lemma DiskPairStepIsPairStep(s: D.Setup, p: DiskPair, e: DiskPairEvent)
    requires DiskPairEnabled(s, p, e) && BothTake(p)
    ensures PairEnabled(PairView(s, p), PairSeen(p, e))
    ensures PairView(s, DiskPairStep(s, p, e)) == PairStep(PairView(s, p), PairSeen(p, e))
    ensures BothTake(DiskPairStep(s, p, e))
  {
    hide D.After, D.View, D.Possible, D.Takes, D.WellFormed, Wal.Sane, Step, Applied, DiskApplied, OwnEvent, OwnDiskEvent, D.Seen;
    match e
    case Delivering(op, logged, delivered) =>
      LoggingIsWrite(s, p.primary, op, logged);
      AppliedOnDisk(s, p.replica, op, delivered);
    case OnPrimary(o) => OwnDiskEventIsOwn(s, p.primary, o);
    case OnReplica(o) => OwnDiskEventIsOwn(s, p.replica, o);
  }

  ghost predicate IsDiskPairRun(s: D.Setup, ps: seq<DiskPair>, es: seq<DiskPairEvent>) {
    && |ps| == |es| + 1 && ps[0] == DiskPair(D.FreshDirectory, D.FreshDirectory)
    && forall i :: 0 <= i < |es| ==> DiskPairEnabled(s, ps[i], es[i]) && ps[i + 1] == DiskPairStep(s, ps[i], es[i])
  }

  lemma {:induction false} DiskPairRunTakes(s: D.Setup, ps: seq<DiskPair>, es: seq<DiskPairEvent>, n: nat)
    requires IsDiskPairRun(s, ps, es) && n <= |es|
    ensures BothTake(ps[n])
  {
    if n > 0 {
      hide DiskPairEnabled, DiskPairStep, BothTake;
      DiskPairRunTakes(s, ps, es, n - 1);
      DiskPairStepIsPairStep(s, ps[n - 1], es[n - 1]);
    }
  }

  /** Which ids either side serves, and each one's (version, checksum). */
  ghost predicate DisksAgree(p: DiskPair) {
    forall id :: SameWrite(D.Serves(p.primary, id), D.Serves(p.replica, id))
  }

  ghost predicate StaleOnDisk(p: DiskPair, e: DiskPairEvent) {
    e.Delivering? && e.op.Upsert? && e.op.rec.id in p.replica.tombs
    && SameWrite(Find(Durable(p.replica.tables), e.op.rec.id), Some(e.op.rec))
  }

  lemma AgreementSeen(s: D.Setup, p: DiskPair)
    ensures DisksAgree(p) <==> Agree(PairView(s, p))
  {
    hide D.View, Served, D.Serves;
    forall id ensures Served(D.View(s, p.primary), id) == D.Serves(p.primary, id)
                  && Served(D.View(s, p.replica), id) == D.Serves(p.replica, id)
    {
      D.ViewOf(s, p.primary, id);
      D.ViewOf(s, p.replica, id);
    }
    if DisksAgree(p) {
      forall id ensures SameWrite(Served(D.View(s, p.primary), id), Served(D.View(s, p.replica), id)) {
        assert SameWrite(D.Serves(p.primary, id), D.Serves(p.replica, id));
      }
    }
    if Agree(PairView(s, p)) {
      forall id ensures SameWrite(D.Serves(p.primary, id), D.Serves(p.replica, id)) {
        assert SameWrite(Served(PairView(s, p).primary, id), Served(PairView(s, p).replica, id));
      }
    }
  }

  lemma StalenessSeen(s: D.Setup, p: DiskPair, e: DiskPairEvent)
    ensures StaleOnDisk(p, e) <==> StaleDelivery(PairView(s, p), PairSeen(p, e))
  {
    hide Wal.ReadFiles, Durable, D.Seen;
  }

  /** Convergence over the files: through any flushes, torn tables and restarts of either side, as
      long as neither logs on a log that would not take it, the replica agrees with its primary after
      every step if and only if no delivery was stale. */
  lemma ReplicaOnDiskConvergesIff(s: D.Setup, ps: seq<DiskPair>, es: seq<DiskPairEvent>, n: nat)
    requires IsDiskPairRun(s, ps, es) && n <= |es|
    ensures (forall k :: 0 <= k <= n ==> DisksAgree(ps[k])) <==> forall k :: 0 <= k < n ==> !StaleOnDisk(ps[k], es[k])
  {
    var qs := seq(|ps|, i requires 0 <= i < |ps| => PairView(s, ps[i]));
    var ls := seq(|es|, i requires 0 <= i < |es| => PairSeen(ps[i], es[i]));
    Wal.FreshIsSane();
    assert PairView(s, ps[0]) == Pair(Empty, Empty);
    hide PairView, PairSeen, DiskPairEnabled, DiskPairStep, PairEnabled, PairStep, DisksAgree, Agree, StaleOnDisk, StaleDelivery;
    forall i | 0 <= i < |es| ensures PairEnabled(qs[i], ls[i]) && qs[i + 1] == PairStep(qs[i], ls[i]) {
      DiskPairRunTakes(s, ps, es, i);
      DiskPairStepIsPairStep(s, ps[i], es[i]);
    }
    ReplicaConvergesIff(qs, ls, n);
    forall k | 0 <= k <= n ensures DisksAgree(ps[k]) <==> Agree(qs[k]) {
      AgreementSeen(s, ps[k]);
    }
    forall k | 0 <= k < n ensures StaleOnDisk(ps[k], es[k]) <==> StaleDelivery(qs[k], ls[k]) {
      StalenessSeen(s, ps[k], es[k]);
    }
  }

  // ----- the endpoint -----

  class ReplicaEndpoint {
    const ctx: D.ShardContext

    constructor (ctx: D.ShardContext)
      ensures this.ctx == ctx
    {
      this.ctx := ctx;
    }

    /** An upsert as delivered: logged, applied and flushed unless the store has a record of that version and
        checksum under its id; the put may also have flushed the MemTable. */
    method ApplyUpsert(payload: Payload, clock: nat) returns (ok: bool)
      requires ctx.Valid() && 0 < clock < Wal.Pow256(8)
      requires UpsertIn(payload).Some? ==> ctx.setup.Carries(RawUpsert(UpsertIn(payload).value))
      modifies ctx, ctx.wal, ctx.segments, ctx.segments.memtable
      ensures ctx.Valid() && ok == UpsertIn(payload).Some?
      ensures !ok || DiskAlreadyHas(old(ctx.View()), UpsertIn(payload).value) ==> ctx.View() == old(ctx.View())
      ensures ok ==>
        var r := UpsertIn(payload).value;
        var stored := old(StoreGet(ctx.segments.memtable.data, ctx.segments.sstables, r.id));
        DiskAlreadyHas(old(ctx.View()), r) <==> stored.Some? && stored.value.version == r.version && stored.value.checksum == r.checksum
      ensures ok && !DiskAlreadyHas(old(ctx.View()), UpsertIn(payload).value) ==>
        var r := UpsertIn(payload).value;
        var d := D.After(ctx.setup, old(ctx.View()), D.Upserting(r, Wal.Entry(ctx.setup.encode(RawUpsert(r)), clock)));
        || ctx.View() == D.After(ctx.setup, d, D.Syncing)
        || exists snap :: D.Possible(ctx.setup, d, D.Flushing(snap))
             && ctx.View() == D.After(ctx.setup, D.After(ctx.setup, d, D.Flushing(snap)), D.Syncing)
      ensures ok && !DiskAlreadyHas(old(ctx.View()), UpsertIn(payload).value) ==> ctx.wal.buffer == []
    {
      var rec := UpsertIn(payload);
      if rec == None {
        return false;
      }
      ok := true;
      var existing := ctx.segments.Get(rec.value.id);
      var known := existing.Some? && existing.value.checksum == rec.value.checksum && existing.value.version == rec.value.version;
      if known {
        return;
      }
      UpsertIsValid(payload);
      hide Wal.WriteAll, RawUpsert, Wal.Frame;
      ctx.Upsert(rec.value, clock);
      ctx.FlushWal();
    }

    method ApplyDelete(payload: Payload, clock: nat) returns (ok: bool)
      requires ctx.Valid() && 0 < clock < Wal.Pow256(8)
      requires DeleteIn(payload).Some? ==> ctx.setup.Carries(Tombstone(DeleteIn(payload).value))
      modifies ctx, ctx.wal, ctx.segments.memtable
      ensures ctx.Valid() && ok == DeleteIn(payload).Some?
      ensures !ok ==> ctx.View() == old(ctx.View())
      ensures ok ==>
        var id := DeleteIn(payload).value;
        ctx.View() == DiskApplied(ctx.setup, old(ctx.View()), Delete(id), Wal.Entry(ctx.setup.encode(Tombstone(id)), clock))
      ensures ok ==> ctx.wal.buffer == []
    {
      var id := DeleteIn(payload);
      ok := id.Some?;
      if ok {
        hide Wal.WriteAll, Tombstone, Wal.Frame;
        ctx.Delete(id.value, clock);
        ctx.FlushWal();
      }
    }

    method Contains(id: string) returns (present: bool)
      requires ctx.Valid()
      ensures present == D.Serves(ctx.View(), id).Some?
    {
      var r := ctx.Fetch(id);
      present := r.Some?;
    }
  }

  lemma UpsertIsValid(payload: Payload)
    ensures UpsertIn(payload).Some? ==> UpsertIn(payload).value.Valid()
  {
  }
}
