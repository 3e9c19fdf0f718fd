/** The losses of the protocol as whole runs: from an empty cluster to a COMPLETED migration that
    left data behind. */
module MigrationRuns {
  import opened Wrappers
  import opened Records
  import opened Segments
  import opened Recovery
  import opened Transfer
  import opened Protocol
  import opened StaleGuard
  import opened MigrationSafety
  import opened DataSafety
  import opened MigrationLimits
  import opened MigrationProgress
  import opened Persistence
  import opened DurablePlane

  /** A cluster in which nothing happened yet. */
  const Nothing: World := World(map[], map[], map[], map[])

  /** Calls that return or raise, with puts that return, and no shard but this one is created. */
  ghost predicate Plain(steps: seq<Step>, s: string) {
    forall step :: step in steps ==> !IsCrash(step) && PutsReturn(step) && (step.AddShardCall? ==> step.shard.id == s)
  }

  lemma GrowBySuccess(cfg: Config, ws: seq<World>, steps: seq<Step>, step: Step, w': World, s: string)
    requires IsRun(cfg, ws, steps) && Succeeds(cfg, Last(ws), step, w', s)
    ensures IsRun(cfg, ws + [w'], steps + [step])
  {
    hide Enabled, Run1, IsRun, Tidy;
    OneMore(cfg, ws, steps, step);
  }

  /** The root after one more logged upsert. */
  function Logged(root: Root, r: Record): Root {
    root.(log := root.log + [RawUpsert(r)])
  }

  /** The owner of an ACTIVE shard can always take a write. */
  lemma WriteIsPossible(cfg: Config, w: World, node: string, s: string, r: Record)
    requires WriteAdmitted(w, node, s) && RootAt(cfg, w, node, s).Valid() && r.Valid()
    ensures Enabled(cfg, w, WriteCall(node, s, Upsert(r), Logged(RootAt(cfg, w, node, s), r)))
  {
    hide ParsePayload, RawUpsert, Replay, Durable;
    var root := RootAt(cfg, w, node, s);
    PayloadRoundTrip(r, "");
    ReplayAppend(Durable(root.tables), root.log, RawUpsert(r));
  }

  function Rec(s: string, ns: string, node: string): ShardRec {
    ShardRec(s, ns, node, Creating, [], 1)
  }

  /** Two members, an ACTIVE shard on the first of them. */
  function Started(cfg: Config, a: string, b: string, s: string, ns: string): World {
    World(map[s := Rec(s, ns, a).(state := Active, version := 2)], map[],
          map[a := NodeRec(a, cfg.clusterId, Joining, 1), b := NodeRec(b, cfg.clusterId, Joining, 1)], map[])
  }

  lemma StartIsARun(cfg: Config)
    ensures IsRun(cfg, [Nothing], []) && forall s :: Plain([], s)
  {
  }

  lemma StartingSteps(cfg: Config, a: string, b: string, s: string, ns: string, w1: World, w2: World, w3: World)
    requires a != "" && b != "" && a != b
    requires w1 == Nothing.(nodes := map[a := NodeRec(a, cfg.clusterId, Joining, 1)])
    requires w2 == Nothing.(nodes := Started(cfg, a, b, s, ns).nodes)
    requires w3 == w2.(shards := map[s := Rec(s, ns, a)])
    ensures Enabled(cfg, Nothing, RegisterCall(a, None, true)) && Next(cfg, Nothing, RegisterCall(a, None, true)) == w1
    ensures Enabled(cfg, w1, RegisterCall(b, None, true)) && Next(cfg, w1, RegisterCall(b, None, true)) == w2
    ensures Enabled(cfg, w2, AddShardCall(Rec(s, ns, a), true)) && Next(cfg, w2, AddShardCall(Rec(s, ns, a), true)) == w3
    ensures Enabled(cfg, w3, MoveShardCall(s, Active, true))
    ensures Next(cfg, w3, MoveShardCall(s, Active, true)) == Started(cfg, a, b, s, ns)
  {
  }

  lemma StartedIsReached(cfg: Config, a: string, b: string, s: string, ns: string) returns (ws: seq<World>, steps: seq<Step>)
    requires a != "" && b != "" && a != b
    ensures IsRun(cfg, ws, steps) && ws != [] && ws[0] == Nothing && Last(ws) == Started(cfg, a, b, s, ns) && Plain(steps, s)
  {
    hide IsRun, Next;
    var started := Started(cfg, a, b, s, ns);
    var w1 := Nothing.(nodes := map[a := NodeRec(a, cfg.clusterId, Joining, 1)]);
    var w2 := Nothing.(nodes := started.nodes);
    var w3 := w2.(shards := map[s := Rec(s, ns, a)]);
    StartIsARun(cfg);
    StartingSteps(cfg, a, b, s, ns, w1, w2, w3);
    hide Started, Enabled, Plain;
    ws, steps := [Nothing], [];
    GrowPlain(cfg, ws, steps, RegisterCall(a, None, true), s);
    ws, steps := ws + [w1], steps + [RegisterCall(a, None, true)];
    GrowPlain(cfg, ws, steps, RegisterCall(b, None, true), s);
    ws, steps := ws + [w2], steps + [RegisterCall(b, None, true)];
    GrowPlain(cfg, ws, steps, AddShardCall(Rec(s, ns, a), true), s);
    ws, steps := ws + [w3], steps + [AddShardCall(Rec(s, ns, a), true)];
    GrowPlain(cfg, ws, steps, MoveShardCall(s, Active, true), s);
    ws, steps := ws + [started], steps + [MoveShardCall(s, Active, true)];
  }

  lemma GrowPlain(cfg: Config, ws: seq<World>, steps: seq<Step>, step: Step, s: string)
    requires IsRun(cfg, ws, steps) && Plain(steps, s) && Enabled(cfg, Last(ws), step)
    requires !IsCrash(step) && PutsReturn(step) && (step.AddShardCall? ==> step.shard.id == s)
    ensures IsRun(cfg, ws + [Next(cfg, Last(ws), step)], steps + [step]) && Plain(steps + [step], s)
  {
    hide IsRun, Next, Enabled;
    OneMore(cfg, ws, steps, step);
  }

  /** The content of one record. */
  function Only(r: Record): Logical {
    Logical(map[r.id := r], {})
  }

  lemma OneRecordImage(r: Record)
    requires r.Valid()
    ensures LogicalOf(Logged(EmptyRoot, r)) == Only(r) && Logged(EmptyRoot, r).Valid()
    ensures IsImage(Root([RawUpsert(r)], [[r]]), Only(r)) && LogicalOf(Root([RawUpsert(r)], [[r]])) == Only(r)
  {
    hide ParsePayload, RawUpsert;
    PayloadRoundTrip(r, "");
    assert [RawUpsert(r)] == [] + [RawUpsert(r)];
    ReplayAppend(Durable([]), [], RawUpsert(r));
    ReplayAppend(Durable([[r]]), [], RawUpsert(r));
    OneTable(r);
  }

  lemma OneTable(r: Record)
    ensures Durable([[r]]) == map[r.id := r]
  {
    assert [[r]][..0] == [] && [r][..0] == [];
    assert TableMap([r]) == map[r.id := r];
  }

  function Write(root: Root, node: string, s: string, r: Record): Step {
    WriteCall(node, s, Upsert(r), Logged(root, r))
  }

  /** One record is written to the ACTIVE shard; nothing stands in the way of a migration. */
  lemma WrittenIsClear(cfg: Config, a: string, b: string, s: string, ns: string, r: Record) returns (w: World)
    requires a != "" && b != "" && a != b && r.Valid()
    ensures var started := Started(cfg, a, b, s, ns);
      && Enabled(cfg, started, Write(EmptyRoot, a, s, r)) && w == Next(cfg, started, Write(EmptyRoot, a, s, r))
      && w.shards == started.shards && w.nodes == started.nodes
    ensures Tidy(w) && RootsValid(w) && Clear(cfg, w, s, b) && w.migs == map[] && Content(cfg, w, a, s) == Only(r)
  {
    hide LogicalOf, RawUpsert, Layout.Dir;
    var started := Started(cfg, a, b, s, ns);
    WriteIsPossible(cfg, started, a, s, r);
    OneRecordImage(r);
    w := Next(cfg, started, Write(EmptyRoot, a, s, r));
    assert w == started.(roots := map[(cfg.layout.Dir(a), s) := Logged(EmptyRoot, r)]);
  }

  /** The migration of shard `s` from `a` to `b`, where `a` has just that record. */
  ghost predicate Moves(cfg: Config, w: World, id: string, a: string, b: string, s: string, r: Record) {
    && id in w.migs && w.migs[id].source == a && w.migs[id].target == b && w.migs[id].shardId == s
    && Content(cfg, w, a, s) == Only(r)
  }

  /** The hypotheses of the loss lemmas are met in a run from an empty cluster: one prepared migration
      of an ACTIVE shard that has a record, and later the same migration verified. */
  lemma ReadyIsReached(cfg: Config, a: string, b: string, s: string, ns: string, id: string, r: Record)
    returns (ws: seq<World>, steps: seq<Step>, k: nat)
    requires cfg.layout.Separate() && a != "" && b != "" && a != b && r.Valid()
    ensures IsRun(cfg, ws, steps) && ws[0] == Nothing && k < |ws| && Plain(steps, s)
    ensures ReadyToCopy(cfg, ws[k], id) && Moves(cfg, ws[k], id, a, b, s, r)
    ensures ReadyToCommit(cfg, Last(ws), id) && Moves(cfg, Last(ws), id, a, b, s, r)
    ensures Content(cfg, Last(ws), b, s) == Only(r)
    ensures WriteAdmitted(Last(ws), a, s) && RootAt(cfg, Last(ws), a, s).Valid()
  {
    hide IsRun, Next, Enabled, Succeeds, Clear, LogicalOf, IsImage, RawUpsert, Tidy, Layout.Separate, Handed, ReadyToCopy, ReadyToCommit,
         DigestOf, StoredRoot, Root.Valid, RootsValid;
    ws, steps := StartedIsReached(cfg, a, b, s, ns);
    var w := WrittenIsClear(cfg, a, b, s, ns, r);
    OneMore(cfg, ws, steps, Write(EmptyRoot, a, s, r));
    ws, steps := ws + [w], steps + [Write(EmptyRoot, a, s, r)];
    OneRecordImage(r);
    var root := Root([RawUpsert(r)], [[r]]);
    var w1, w2, w3, w4, _ := UndisturbedMigrationCompletes(cfg, w, s, b, id, root);
    StoredIsValid(cfg, w, a, s);
    GrowBySuccess(cfg, ws, steps, CreateCall(ns, s, b, id, Quiet), w1, s);
    ws, steps := ws + [w1], steps + [CreateCall(ns, s, b, id, Quiet)];
    GrowBySuccess(cfg, ws, steps, PrepareCall(id, Quiet), w2, s);
    ws, steps := ws + [w2], steps + [PrepareCall(id, Quiet)];
    k := |ws| - 1;
    GrowBySuccess(cfg, ws, steps, StartCopyCall(id, Lands(root)), w3, s);
    ws, steps := ws + [w3], steps + [StartCopyCall(id, Lands(root))];
    GrowBySuccess(cfg, ws, steps, VerifyCall(id, Quiet), w4, s);
    ws, steps := ws + [w4], steps + [VerifyCall(id, Quiet)];
    assert ws[k] == w2;
    ReadyMoves(cfg, w, w2, a, b, s, id, r);
    ReadyMoves(cfg, w, w4, a, b, s, id, r);
  }

  lemma ReadyMoves(cfg: Config, w: World, w': World, a: string, b: string, s: string, id: string, r: Record)
    requires s in w.shards && w.shards[s].nodeId == a && Content(cfg, w, a, s) == Only(r)
    requires ReadyToCopy(cfg, w', id) || ReadyToCommit(cfg, w', id)
    requires w'.migs[id].shardId == s && w'.migs[id].target == b && w'.shards == w.shards
    requires RootAt(cfg, w', a, s) == RootAt(cfg, w, a, s)
    ensures Moves(cfg, w', id, a, b, s, r)
  {
    hide LogicalOf, MemberError;
  }

  /** A write the owner of the ACTIVE shard took behind the copy is not at the new owner. */
  lemma LateWriteIsLost(cfg: Config, a: string, b: string, s: string, ns: string, id: string, r: Record, late: Record)
    returns (ws: seq<World>, steps: seq<Step>, k: nat)
    requires cfg.layout.Separate() && a != "" && b != "" && a != b && r.Valid() && late.Valid() && late != r
    ensures IsRun(cfg, ws, steps) && ws[0] == Nothing
    ensures k < |steps| && steps[k].WriteCall? && steps[k].shardId == s && steps[k].op == Upsert(late)
    ensures HandedOverAs(cfg, Last(ws), id, Only(r))
  {
    hide IsRun, Next, Enabled, LogicalOf, ReadyToCopy, ReadyToCommit, Layout.Separate, HandedOverAs, RawUpsert, StoredRoot, Root.Valid,
         WriteAdmitted, MemberError;
    ws, steps, k := ReadyIsReached(cfg, a, b, s, ns, id, r);
    var w := Last(ws);
    var write := Write(RootAt(cfg, w, a, s), a, s, late);
    WriteIsPossible(cfg, w, a, s, late);
    assert Apply(Only(r), Upsert(late)).records[late.id] == late && (late.id in Only(r).records ==> Only(r).records[late.id] == r);
    WriteBehindTheCopyIsLost(cfg, w, id, Upsert(late), Logged(RootAt(cfg, w, a, s), late));
    k := |steps|;
    OneMore(cfg, ws, steps, write);
    ws, steps := ws + [Next(cfg, w, write)], steps + [write];
    OneMore(cfg, ws, steps, CommitCall(id, Quiet));
    ws, steps := ws + [Next(cfg, Last(ws), CommitCall(id, Quiet))], steps + [CommitCall(id, Quiet)];
  }

  lemma RunPrefix(cfg: Config, ws: seq<World>, steps: seq<Step>, k: nat)
    requires IsRun(cfg, ws, steps) && k <= |steps|
    ensures IsRun(cfg, ws[..k + 1], steps[..k])
  {
    hide Next, Enabled, Tidy;
  }

  lemma RunLength(cfg: Config, ws: seq<World>, steps: seq<Step>)
    requires IsRun(cfg, ws, steps)
    ensures |ws| == |steps| + 1
  {
  }

  /** The owner held a record, the process died inside the copy, and the new owner has nothing. */
  lemma TornCopyLoses(cfg: Config, a: string, b: string, s: string, ns: string, id: string, r: Record)
    returns (ws: seq<World>, steps: seq<Step>, k: nat)
    requires cfg.layout.Separate() && a != "" && b != "" && a != b && r.Valid()
    ensures IsRun(cfg, ws, steps) && ws[0] == Nothing
    ensures k < |ws| && s in ws[k].shards && Content(cfg, ws[k], ws[k].shards[s].nodeId, s) == Only(r)
    ensures HandedOverAs(cfg, Last(ws), id, LogicalOf(EmptyRoot)) && Last(ws).migs[id].shardId == s
  {
    hide IsRun, Next, Enabled, LogicalOf, ReadyToCommit, Layout.Separate, RawUpsert, StoredRoot, MemberError;
    ws, steps, k := ReadyIsReached(cfg, a, b, s, ns, id, r);
    RunLength(cfg, ws, steps);
    RunPrefix(cfg, ws, steps, k);
    ws, steps := ws[..k + 1], steps[..k];
    var crash := CrashInCopy(id, Some(EmptyRoot));
    TornCopyIsCommitted(cfg, ws[k], id, EmptyRoot);
    OneMore(cfg, ws, steps, crash);
    ws, steps := ws + [Next(cfg, ws[k], crash)], steps + [crash];
    OneMore(cfg, ws, steps, VerifyCall(id, Quiet));
    ws, steps := ws + [Next(cfg, Last(ws), VerifyCall(id, Quiet))], steps + [VerifyCall(id, Quiet)];
    OneMore(cfg, ws, steps, CommitCall(id, Quiet));
    ws, steps := ws + [Next(cfg, Last(ws), CommitCall(id, Quiet))], steps + [CommitCall(id, Quiet)];
    SubjectStays(cfg, ws, steps, k, id);
  }

  lemma SubjectStays(cfg: Config, ws: seq<World>, steps: seq<Step>, k: nat, id: string)
    requires IsRun(cfg, ws, steps) && k < |ws| && id in ws[k].migs
    ensures id in Last(ws).migs && Last(ws).migs[id].shardId == ws[k].migs[id].shardId
  {
    hide Next, Enabled;
    RunKeepsSubject(cfg, ws, steps, k, |steps|, id);
  }

  /** The owner held a record, the process died inside a cancel, and the new owner has nothing. */
  lemma CutCancelLoses(cfg: Config, a: string, b: string, s: string, ns: string, id: string, r: Record)
    returns (ws: seq<World>, steps: seq<Step>, k: nat)
    requires cfg.layout.Separate() && a != "" && b != "" && a != b && r.Valid()
    ensures IsRun(cfg, ws, steps) && ws[0] == Nothing
    ensures k < |ws| && s in ws[k].shards && Content(cfg, ws[k], ws[k].shards[s].nodeId, s) == Only(r)
    ensures HandedOverAs(cfg, Last(ws), id, LogicalOf(EmptyRoot)) && Last(ws).migs[id].shardId == s
  {
    hide IsRun, Next, Enabled, LogicalOf, ReadyToCopy, Layout.Separate, RawUpsert, StoredRoot, MemberError;
    ws, steps, k := ReadyIsReached(cfg, a, b, s, ns, id, r);
    k := |ws| - 1;
    var crash := CrashInCancel(id, None);
    CutCancelIsCommitted(cfg, ws[k], id);
    OneMore(cfg, ws, steps, crash);
    ws, steps := ws + [Next(cfg, ws[k], crash)], steps + [crash];
    OneMore(cfg, ws, steps, CommitCall(id, Quiet));
    ws, steps := ws + [Next(cfg, Last(ws), CommitCall(id, Quiet))], steps + [CommitCall(id, Quiet)];
    SubjectStays(cfg, ws, steps, k, id);
  }

  /** A FAILED migration can have taken its shard over: the process died behind the put of the owner, and the
      operator failed what was left in COMMITTING. */
  lemma FailedMigrationTookOver(cfg: Config, a: string, b: string, s: string, ns: string, id: string, r: Record, reason: string)
    returns (ws: seq<World>, steps: seq<Step>)
    requires cfg.layout.Separate() && a != "" && b != "" && a != b && r.Valid()
    ensures IsRun(cfg, ws, steps) && ws[0] == Nothing
    ensures id in Last(ws).migs && Last(ws).migs[id].state == Failed && Last(ws).migs[id].shardId == s
    ensures s in Last(ws).shards && Last(ws).shards[s].nodeId == b == Last(ws).migs[id].target
  {
    hide IsRun, Next, Enabled, LogicalOf, ReadyToCopy, ReadyToCommit, Layout.Separate, RawUpsert, StoredRoot, MemberError;
    var k: nat;
    ws, steps, k := ReadyIsReached(cfg, a, b, s, ns, id, r);
    var w, cut := Last(ws), CrashInCommit(id, OwnerStored);
    CutThenFailed(cfg, w, id, reason);
    OneMore(cfg, ws, steps, cut);
    ws, steps := ws + [Next(cfg, w, cut)], steps + [cut];
    OneMore(cfg, ws, steps, FailCall(id, reason, Quiet));
    ws, steps := ws + [Next(cfg, Last(ws), FailCall(id, reason, Quiet))], steps + [FailCall(id, reason, Quiet)];
  }

  lemma CutThenFailed(cfg: Config, w: World, id: string, reason: string)
    requires ReadyToCommit(cfg, w, id)
    ensures Enabled(cfg, w, CrashInCommit(id, OwnerStored))
    ensures var cut := Next(cfg, w, CrashInCommit(id, OwnerStored));
      && Enabled(cfg, cut, FailCall(id, reason, Quiet))
      && (var w', m := Next(cfg, cut, FailCall(id, reason, Quiet)), w.migs[id];
          && id in w'.migs && w'.migs[id].state == Failed && w'.migs[id].shardId == m.shardId && w'.migs[id].target == m.target
          && m.shardId in w'.shards && w'.shards[m.shardId].nodeId == m.target)
  {
    hide MemberError, Without;
  }

  // ----- a commit whose file writes fail -----

  /** How many puts a run makes. */
  ghost function PutsOf(cfg: Config, ws: seq<World>, steps: seq<Step>, n: nat): nat
    requires IsRun(cfg, ws, steps) && n <= |steps|
  {
    if n == 0 then 0 else PutsOf(cfg, ws, steps, n - 1) + |StepPuts(cfg, ws[n - 1], steps[n - 1])|
  }

  /** A run of plain calls, over a file that takes their writes. */
  lemma {:induction false} Filed(m: Machine, ws: seq<World>, steps: seq<Step>, s: string, n: nat) returns (ps: seq<Plane>, es: seq<PlaneEvent>)
    requires m.hash.Injective() && IsRun(m.cfg, ws, steps) && n <= |steps| && Fit(Metadata(ws[0])) && Plain(steps, s) && !Reserved(s)
    ensures IsPlaneRun(m, ps, es) && |es| == n && ps[0].w == ws[0] && Last(ps).w == ws[n] && Last(ps).writes == PutsOf(m.cfg, ws, steps, n)
    ensures ps[0].file == Document(m.hash, Metadata(ws[0]))
  {
    hide Next, Enabled, Fit, Document, StepPuts, FileAfter, Reserved;
    if n == 0 {
      ps, es := [Plane(ws[0], Document(m.hash, Metadata(ws[0])), 0)], [];
    } else {
      ps, es := Filed(m, ws, steps, s, n - 1);
      assert steps[n - 1] in steps;
      OneMoreEvent(m, ps, es, Calling(steps[n - 1]));
      ps, es := ps + [Then(m, Last(ps), Calling(steps[n - 1]))], es + [Calling(steps[n - 1])];
    }
  }

  lemma OneMoreEvent(m: Machine, ps: seq<Plane>, es: seq<PlaneEvent>, e: PlaneEvent)
    requires IsPlaneRun(m, ps, es) && Occurs(m, Last(ps), e)
    ensures IsPlaneRun(m, ps + [Then(m, Last(ps), e)], es + [e])
  {
    hide Occurs, Then, Fit, Document, Hash.Injective;
    var ps', es' := ps + [Then(m, Last(ps), e)], es + [e];
    forall i | 0 <= i < |es'| ensures Occurs(m, ps'[i], es'[i]) && ps'[i + 1] == Then(m, ps'[i], es'[i]) {
      if i < |es| {
        assert ps'[i] == ps[i] && ps'[i + 1] == ps[i + 1] && es'[i] == es[i];
      }
    }
  }

  /** Every file can be listed. */
  lemma {:induction false} Listing(file: map<string, Doc>) returns (items: seq<KeyDoc>)
    ensures Lists(items, file)
    decreases |file|
  {
    if file == map[] {
      items := [];
    } else {
      var k :| k in file;
      var rest := Listing(file - {k});
      items := [KeyDoc(k, file[k])] + rest;
      forall i | 0 <= i < |rest| ensures rest[i].key != k {
        assert KeyDoc(rest[i].key, rest[i].value) in rest;
      }
      forall x, j ensures KeyDoc(x, j) in items <==> x in file && file[x] == j {
        assert KeyDoc(x, j) in rest <==> x in file - {k} && (file - {k})[x] == j;
      }
    }
  }

  /** A run from an empty cluster: the file takes no write from the commit on, the commit completes and
      removes the source, and the process that starts next reads the source as owner, with nothing there. */
  lemma UnwrittenCommitLoses(cfg: Config, hash: Hash, a: string, b: string, s: string, ns: string, id: string, r: Record)
    returns (m: Machine, ps: seq<Plane>, es: seq<PlaneEvent>, k: nat)
    requires cfg.layout.Separate() && a != "" && b != "" && a != b && r.Valid() && hash.Injective() && !Reserved(s)
    ensures m.cfg == cfg && m.hash == hash && IsPlaneRun(m, ps, es) && ps[0].w == Nothing && |es| == k + 2
    ensures es[k] == Calling(CommitCall(id, Quiet)) && es[k + 1].Restarting?
    ensures HandedOverAs(cfg, ps[k + 1].w, id, Only(r)) && ps[k + 1].w.migs[id].shardId == s
    ensures s in ps[k + 2].w.shards && ps[k + 2].w.shards[s].nodeId == a
    ensures Content(cfg, ps[k + 2].w, a, s) == LogicalOf(EmptyRoot)
  {
    hide Next, Enabled, LogicalOf, ReadyToCopy, ReadyToCommit, Fit, Document, LoadInto, FileAfter, CommitPuts, StoredRoot, Reserved, Commit,
         IsRun, IsPlaneRun, Plain, HandedOverAs, Layout.Separate, RawUpsert, MemberError;
    var ws, steps, _ := ReadyIsReached(cfg, a, b, s, ns, id, r);
    RunLength(cfg, ws, steps);
    var w, n := Last(ws), PutsOf(cfg, ws, steps, |steps|);
    m := Machine(cfg, hash, k => k < n);
    NothingIsFit();
    ps, es := Filed(m, ws, steps, s, |steps|);
    k := |es|;
    PlaneLength(m, ps, es);
    WrittenFileIsCurrent(m, ps, es, k);
    var p := Last(ps);
    CommitOccurs(m, p, id);
    CommitHandsOverWhatItFinds(cfg, w, id);
    OneMoreEvent(m, ps, es, Calling(CommitCall(id, Quiet)));
    var p1 := Then(m, p, Calling(CommitCall(id, Quiet)));
    ps, es := ps + [p1], es + [Calling(CommitCall(id, Quiet))];
    var items := Listing(p1.file);
    CommitFileIff(m, w, p.writes, id, items);
    OneMoreEvent(m, ps, es, Restarting(items));
    var p2 := Then(m, p1, Restarting(items));
    ps, es := ps + [p2], es + [Restarting(items)];
    CommitRoots(cfg, w, id);
    SameRootsSameContent(cfg, p1.w, p2.w, a, s);
  }

  lemma NothingIsFit()
    ensures Fit(Metadata(Nothing))
  {
  }

  lemma PlaneLength(m: Machine, ps: seq<Plane>, es: seq<PlaneEvent>)
    requires IsPlaneRun(m, ps, es)
    ensures |ps| == |es| + 1
  {
  }

  lemma CommitOccurs(m: Machine, p: Plane, id: string)
    requires ReadyToCommit(m.cfg, p.w, id)
    ensures Occurs(m, p, Calling(CommitCall(id, Quiet)))
    ensures var p' := Then(m, p, Calling(CommitCall(id, Quiet)));
      && p'.w == Commit(m.cfg, p.w, id, Quiet).world && id in p'.w.migs && p'.w.migs[id].shardId == p.w.migs[id].shardId
      && p'.file == FileAfter(m.hash, m.disk, p.file, p.writes, CommitPuts(m.cfg, p.w, id, Quiet))
  {
    CommitShape(m.cfg, p.w, id, Quiet);
    hide Commit, CommitPuts, FileAfter;
  }
}
