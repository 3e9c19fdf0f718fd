/** The control plane with its file: calls write it, processes die and load it, writes can fail. */
module DurablePlane {
  import opened Wrappers
  import opened Recovery
  import opened Transfer
  import opened Protocol
  import opened Persistence
  import opened StaleGuard
  import opened MigrationSafety
  import opened DataSafety
  import opened MigrationLimits
  import C = ControlObjects

  // ----- what a step puts -----

  /** No put raises: the file-backed store swallows its failed writes. */
  predicate Returns(env: Env) {
    env.put0 && env.put1 && env.put2 && env.put3
  }

  predicate PutsReturn(step: Step) {
    match step
    case CreateCall(_, _, _, _, env) => Returns(env)
    case PrepareCall(_, env) => Returns(env)
    case StartCopyCall(_, env) => Returns(env)
    case VerifyCall(_, env) => Returns(env)
    case CommitCall(_, env) => Returns(env)
    case CancelCall(_, env) => Returns(env)
    case FailCall(_, _, env) => Returns(env)
    case AddShardCall(_, ok) => ok
    case MoveShardCall(_, _, ok) => ok
    case ChangeOwnerCall(_, _, _, ok) => ok
    case RegisterCall(_, _, ok) => ok
    case MoveNodeCall(_, _, ok) => ok
    case _ => true
  }

  /** The contents a step puts, in their order. These are the ones the managers are proved to write. */
  ghost function StepPuts(cfg: Config, w: World, step: Step): seq<Contents>
    requires Enabled(cfg, w, step)
  {
    match step
    case PrepareCall(id, env) => PreparePuts(w, id, env)
    case StartCopyCall(id, env) => StartCopyPuts(cfg, w, id, env)
    case VerifyCall(id, env) => VerifyPuts(cfg, w, id, env)
    case CommitCall(id, env) => CommitPuts(cfg, w, id, env)
    case WriteCall(_, _, _, _) => []
    case Rearrange(_, _, _) => []
    case CrashInCopy(_, _) => [Metadata(Next(cfg, w, step))]
    case CrashInCommit(id, point) =>
      [Metadata(CutCommit(cfg, w, id, CommittingStored))]
      + if point.CommittingStored? then [] else [Metadata(CutCommit(cfg, w, id, OwnerStored))]
    case CrashInCancel(_, _) => []
    case _ => OnePut(Run1(cfg, w, step))
  }

  /** The last thing a step puts is what it leaves; a step that puts nothing changes nothing that is kept. */
  ghost predicate PutsCover(cfg: Config, w: World, step: Step)
    requires Enabled(cfg, w, step)
  {
    var puts := StepPuts(cfg, w, step);
    Metadata(Next(cfg, w, step)) == if puts == [] then Metadata(w) else Last(puts)
  }

  lemma StepEndsInPut(cfg: Config, w: World, step: Step)
    requires Tidy(w) && Enabled(cfg, w, step) && PutsReturn(step)
    ensures PutsCover(cfg, w, step)
  {
    hide LogicalOf, DigestOf, VerifyPasses, EndCopy, ValidMember, OwnershipAccepted, MemberError, StoredRoot;
    match step
    case PrepareCall(id, env) => PrepareEndsInPut(w, id, env);
    case StartCopyCall(id, env) => StartCopyEndsInPut(cfg, w, id, env);
    case VerifyCall(id, env) => VerifyEndsInPut(cfg, w, id, env);
    case CommitCall(id, env) => CommitEndsInPut(cfg, w, id, env);
    case WriteCall(node, shardId, _, root) => WithRootShape(cfg, w, node, shardId, Some(root));
    case Rearrange(node, shardId, root) => WithRootShape(cfg, w, node, shardId, Some(root));
    case CrashInCopy(_, _) =>
    case CrashInCommit(id, point) => CutEndsInPut(cfg, w, id, point);
    case CrashInCancel(id, left) => WithRootShape(cfg, w, w.migs[id].target, w.migs[id].shardId, left);
    case CreateCall(_, _, _, _, _) => CreateEndsInPut(cfg, w, step);
    case CancelCall(id, env) => CancelEndsInPut(cfg, w, id, env);
    case _ => OtherEndsInPut(cfg, w, step);
  }

  /** A call of a manager that changed the world and wrote the file as its contract says, for the step it is
      proved to be: the file says what the store holds if the last of its writes succeeded, or if it put
      nothing and the file said so before. */
  lemma CallKeepsFile(store: C.InMemoryEtcd, cfg: Config, w: World, step: Step, f: map<string, Doc>, n: nat)
    requires Tidy(w) && Enabled(cfg, w, step) && PutsReturn(step)
    requires store.Held() == Metadata(Next(cfg, w, step)) && store.Wrote(f, n, StepPuts(cfg, w, step))
    ensures store.writes > n && store.disk(store.writes - 1) ==> store.Synced()
    ensures store.writes == n && f == Document(store.hash, Metadata(w)) ==> store.Synced()
  {
    hide Next, Enabled, StepPuts, Document, PutsReturn, C.InMemoryEtcd.Held;
    StepEndsInPut(cfg, w, step);
  }

  lemma PrepareEndsInPut(w: World, id: string, env: Env)
    requires Returns(env)
    ensures var puts := PreparePuts(w, id, env);
      Metadata(Prepare(w, id, env).world) == if puts == [] then Metadata(w) else Last(puts)
  {
  }

  lemma StartCopyEndsInPut(cfg: Config, w: World, id: string, env: Env)
    requires Returns(env)
    ensures var puts := StartCopyPuts(cfg, w, id, env);
      Metadata(StartCopy(cfg, w, id, env).world) == if puts == [] then Metadata(w) else Last(puts)
  {
    hide LogicalOf, DigestOf, VerifyPasses, WithRoot;
  }

  lemma VerifyEndsInPut(cfg: Config, w: World, id: string, env: Env)
    requires Returns(env)
    ensures var puts := VerifyPuts(cfg, w, id, env);
      Metadata(Verify(cfg, w, id, env).world) == if puts == [] then Metadata(w) else Last(puts)
  {
    hide LogicalOf, DigestOf, VerifyPasses, RootAt;
  }

  lemma CommitEndsInPut(cfg: Config, w: World, id: string, env: Env)
    requires Returns(env)
    ensures var puts := CommitPuts(cfg, w, id, env);
      Metadata(Commit(cfg, w, id, env).world) == if puts == [] then Metadata(w) else Last(puts)
  {
    hide ValidMember, OwnershipAccepted, Handed, WithRoot;
  }

  lemma CutEndsInPut(cfg: Config, w: World, id: string, point: CommitPoint)
    requires Enter(w, id, Verifying, true).Entered?
    ensures Metadata(CutCommit(cfg, w, id, point))
         == Metadata(CutCommit(cfg, w, id, if point.CommittingStored? then CommittingStored else OwnerStored))
  {
    hide Enter, Handed;
  }

  lemma CreateEndsInPut(cfg: Config, w: World, step: Step)
    requires Tidy(w) && Enabled(cfg, w, step) && step.CreateCall? && PutsReturn(step)
    ensures PutsCover(cfg, w, step)
  {
    hide ValidMember;
  }

  lemma CancelEndsInPut(cfg: Config, w: World, id: string, env: Env)
    requires Returns(env)
    ensures var a := Cancel(cfg, w, id, env);
      Metadata(a.world) == if OnePut(a) == [] then Metadata(w) else Last(OnePut(a))
  {
    hide WithRoot;
  }

  lemma OtherEndsInPut(cfg: Config, w: World, step: Step)
    requires Tidy(w) && Enabled(cfg, w, step) && PutsReturn(step)
    requires step.FailCall? || step.AddShardCall? || step.MoveShardCall? || step.ChangeOwnerCall? || step.RegisterCall? || step.MoveNodeCall?
    ensures PutsCover(cfg, w, step)
  {
    hide MemberError;
  }

  // ----- what can be read back -----

  /** Records sit under their own ids, and no shard under a reserved key. */
  ghost predicate Fit(c: Contents) {
    && (forall i :: i in c.shards ==> c.shards[i].id == i && !Reserved(i))
    && (forall i :: i in c.migs ==> c.migs[i].id == i)
  }

  /** The step creates no shard under a reserved key. */
  predicate Unreserved(step: Step) {
    step.AddShardCall? ==> !Reserved(step.shard.id)
  }

  /** Only the creation of a shard brings in a shard id. */
  lemma StepKeepsIds(cfg: Config, w: World, step: Step)
    requires Tidy(w) && Enabled(cfg, w, step)
    ensures Next(cfg, w, step).shards.Keys <= w.shards.Keys + (if step.AddShardCall? then {step.shard.id} else {})
  {
    hide Prepare, StartCopy, Verify, Commit, Cancel, ForceFail, WithRoot, Enter, CutCommit;
    if Subject(step).Some? {
      CallShape(cfg, w, step);
    } else if step.CreateCall? {
      CreateShape(cfg, w, step);
    } else if step.WriteCall? {
      WithRootShape(cfg, w, step.node, step.shardId, Some(step.root));
    } else if step.Rearrange? {
      WithRootShape(cfg, w, step.node, step.shardId, Some(step.root));
    }
  }

  lemma StepKeepsFit(cfg: Config, w: World, step: Step)
    requires Enabled(cfg, w, step) && Fit(Metadata(w)) && Unreserved(step)
    ensures Tidy(w) && Fit(Metadata(Next(cfg, w, step)))
  {
    hide Next, Enabled, Reserved;
    StepMovesForward(cfg, w, step);
    StepKeepsIds(cfg, w, step);
    var w' := Next(cfg, w, step);
    forall i | i in w'.shards ensures !Reserved(i) {
      assert i in w.shards.Keys + (if step.AddShardCall? then {step.shard.id} else {});
    }
  }

  lemma MarkedIsFit(w: World, m: MigrationRec, s: ShardRec)
    requires Fit(Metadata(w)) && s.id in w.shards
    ensures Fit(Metadata(WithMig(w, m))) && Fit(Metadata(WithShard(WithMig(w, m), s)))
  {
    hide Reserved;
  }

  /** Whatever a step puts can be read back. */
  lemma PutsAreFit(cfg: Config, w: World, step: Step, c: Contents)
    requires Enabled(cfg, w, step) && Fit(Metadata(w)) && Unreserved(step) && c in StepPuts(cfg, w, step)
    ensures Fit(c)
  {
    StepKeepsFit(cfg, w, step);
    if !step.StartCopyCall? && !step.VerifyCall? && !step.CommitCall? && !step.CrashInCommit? {
      OnePutIsFit(cfg, w, step, c);
    }
    hide Fit, Prepare, StartCopy, Verify, Commit, StartCopyPuts, VerifyPuts, CommitPuts, Cancel, ForceFail, Create, WithRoot, CutCommit, AddShard,
         MoveShard, ChangeOwner, Register, MoveNode, Metadata, Enter, LogicalOf, WriteAdmitted, DeleteAdmitted, OwnershipAccepted, ValidMember,
         PreparePuts;
    match step
    case StartCopyCall(id, env) => StartCopyPutsAreFit(cfg, w, id, env, c);
    case VerifyCall(id, env) => VerifyPutsAreFit(cfg, w, id, env, c);
    case CommitCall(id, env) => CommitPutsAreFit(cfg, w, id, env, c);
    case CrashInCommit(id, point) => CutPutsAreFit(cfg, w, id, point, c);
    case _ =>
  }

  /** A step with one put puts what it leaves. */
  lemma OnePutIsFit(cfg: Config, w: World, step: Step, c: Contents)
    requires Enabled(cfg, w, step) && Fit(Metadata(Next(cfg, w, step))) && c in StepPuts(cfg, w, step)
    requires !step.StartCopyCall? && !step.VerifyCall? && !step.CommitCall? && !step.CrashInCommit?
    ensures Fit(c)
  {
    hide Fit, Enter, Cancel, ForceFail, Create, WithRoot, AddShard, MoveShard, ChangeOwner, Register, MoveNode, Metadata, LogicalOf,
         WriteAdmitted, DeleteAdmitted, StartCopyPuts, VerifyPuts, CommitPuts, StartCopy, Verify, Commit, CutCommit, SourceProblem;
  }

  lemma StartCopyPutsAreFit(cfg: Config, w: World, id: string, env: Env, c: Contents)
    requires Fit(Metadata(w)) && Fit(Metadata(StartCopy(cfg, w, id, env).world)) && c in StartCopyPuts(cfg, w, id, env)
    ensures Fit(c)
  {
    StartedOnFit(cfg, w, id, env);
    if Enter(w, id, Preparing, env.put0).Entered? {
      MarkedIsFit(w, w.migs[id].Moved(Copying), w.shards[w.migs[id].shardId]);
    }
    hide Fit, StartCopy;
  }

  lemma StartedOnFit(cfg: Config, w: World, id: string, env: Env)
    ensures Enter(w, id, Preparing, env.put0).Refused? ==> StartCopy(cfg, w, id, env) == Enter(w, id, Preparing, env.put0).answer
    ensures Enter(w, id, Copying, env.put0).Refused? ==> Verify(cfg, w, id, env) == Enter(w, id, Copying, env.put0).answer
    ensures Enter(w, id, Verifying, env.put0).Refused? ==> Commit(cfg, w, id, env) == Enter(w, id, Verifying, env.put0).answer
  {
    hide Enter;
  }

  lemma VerifyPutsAreFit(cfg: Config, w: World, id: string, env: Env, c: Contents)
    requires Fit(Metadata(w)) && Fit(Metadata(Verify(cfg, w, id, env).world)) && c in VerifyPuts(cfg, w, id, env)
    ensures Fit(c)
  {
    StartedOnFit(cfg, w, id, env);
    if Enter(w, id, Copying, env.put0).Entered? {
      MarkedIsFit(w, w.migs[id].Moved(Verifying), w.shards[w.migs[id].shardId]);
    }
    hide Fit, Verify;
  }

  lemma CommitPutsAreFit(cfg: Config, w: World, id: string, env: Env, c: Contents)
    requires Fit(Metadata(w)) && Fit(Metadata(Commit(cfg, w, id, env).world)) && c in CommitPuts(cfg, w, id, env)
    ensures Fit(c)
  {
    StartedOnFit(cfg, w, id, env);
    if Enter(w, id, Verifying, env.put0).Entered? {
      var m, s := w.migs[id], w.shards[w.migs[id].shardId];
      HandedOf(s, m.target);
      MarkedIsFit(w, m.Moved(Committing), Handed(s, m.target));
    }
    hide Fit, Commit, Handed, ValidMember, OwnershipAccepted;
  }

  lemma CutPutsAreFit(cfg: Config, w: World, id: string, point: CommitPoint, c: Contents)
    requires Fit(Metadata(w)) && Enter(w, id, Verifying, true).Entered?
    requires c == Metadata(CutCommit(cfg, w, id, CommittingStored)) || c == Metadata(CutCommit(cfg, w, id, OwnerStored))
    ensures Fit(c)
  {
    var m, s := w.migs[id], w.shards[w.migs[id].shardId];
    HandedOf(s, m.target);
    MarkedIsFit(w, m.Moved(Committing), Handed(s, m.target));
    hide Fit, Handed;
  }

  lemma HandedOf(s: ShardRec, target: string)
    ensures Handed(s, target).id == s.id
  {
  }

  // ----- histories with restarts -----

  datatype Plane = Plane(w: World, file: map<string, Doc>, writes: nat)

  /** A call; a process that dies inside one, and a new one that loads the file; a restart between calls.
      `items` is the order in which the file lists what it holds. */
  datatype PlaneEvent = Calling(step: Step) | Dying(step: Step, items: seq<KeyDoc>) | Restarting(items: seq<KeyDoc>)

  datatype Machine = Machine(cfg: Config, hash: Hash, disk: nat -> bool)

  /** The world of a process that loaded these items. */
  function Reloaded(m: Machine, w: World, items: seq<KeyDoc>): World {
    var c := LoadInto(m.hash, Persistence.Empty, items);
    w.(shards := c.shards, nodes := c.nodes, migs := c.migs)
  }

  ghost function Written(m: Machine, p: Plane, step: Step): map<string, Doc>
    requires Enabled(m.cfg, p.w, step)
  {
    FileAfter(m.hash, m.disk, p.file, p.writes, StepPuts(m.cfg, p.w, step))
  }

  ghost predicate Occurs(m: Machine, p: Plane, e: PlaneEvent) {
    match e
    case Calling(step) => Enabled(m.cfg, p.w, step) && !IsCrash(step) && PutsReturn(step) && Unreserved(step)
    case Dying(step, items) => Enabled(m.cfg, p.w, step) && IsCrash(step) && Lists(items, Written(m, p, step))
    case Restarting(items) => Lists(items, p.file)
  }

  ghost function Then(m: Machine, p: Plane, e: PlaneEvent): Plane
    requires Occurs(m, p, e)
  {
    match e
    case Calling(step) => Plane(Next(m.cfg, p.w, step), Written(m, p, step), p.writes + |StepPuts(m.cfg, p.w, step)|)
    case Dying(step, items) =>
      Plane(Reloaded(m, Next(m.cfg, p.w, step), items), Written(m, p, step), p.writes + |StepPuts(m.cfg, p.w, step)|)
    case Restarting(items) => p.(w := Reloaded(m, p.w, items))
  }

  /** A history that starts with a file that says what the store holds, an empty one for example. */
  ghost predicate IsPlaneRun(m: Machine, ps: seq<Plane>, es: seq<PlaneEvent>) {
    && m.hash.Injective() && |ps| == |es| + 1
    && Fit(Metadata(ps[0].w)) && ps[0].file == Document(m.hash, Metadata(ps[0].w))
    && forall i :: 0 <= i < |es| ==> Occurs(m, ps[i], es[i]) && ps[i + 1] == Then(m, ps[i], es[i])
  }

  /** The contents of the last of these puts that was written, or the ones before them. */
  function SavedAfter(disk: nat -> bool, c: Contents, n: nat, puts: seq<Contents>): Contents
    decreases |puts|
  {
    if puts == [] then c
    else if disk(n + |puts| - 1) then Last(puts)
    else SavedAfter(disk, c, n, puts[..|puts| - 1])
  }

  ghost function SavedThen(m: Machine, saved: Contents, p: Plane, e: PlaneEvent): Contents
    requires Occurs(m, p, e)
  {
    if e.Restarting? then saved else SavedAfter(m.disk, saved, p.writes, StepPuts(m.cfg, p.w, e.step))
  }

  /** The contents of the last put of the history that was written. */
  ghost function SavedBy(m: Machine, ps: seq<Plane>, es: seq<PlaneEvent>, n: nat): Contents
    requires IsPlaneRun(m, ps, es) && n <= |es|
  {
    if n == 0 then Metadata(ps[0].w) else SavedThen(m, SavedBy(m, ps, es, n - 1), ps[n - 1], es[n - 1])
  }

  lemma {:induction false} FileIsSaved(m: Machine, saved: Contents, n: nat, puts: seq<Contents>)
    requires Fit(saved) && forall c :: c in puts ==> Fit(c)
    ensures FileAfter(m.hash, m.disk, Document(m.hash, saved), n, puts) == Document(m.hash, SavedAfter(m.disk, saved, n, puts))
    ensures Fit(SavedAfter(m.disk, saved, n, puts))
    decreases |puts|
  {
    hide Document, Fit;
    if puts != [] {
      assert Last(puts) in puts;
      FileIsSaved(m, saved, n, puts[..|puts| - 1]);
    }
  }

  lemma LoadsSaved(m: Machine, saved: Contents, items: seq<KeyDoc>)
    requires m.hash.Injective() && Fit(saved) && Lists(items, Document(m.hash, saved))
    ensures LoadInto(m.hash, Persistence.Empty, items) == saved
  {
    hide LoadInto, Document, Lists;
    forall id | id in saved.shards ensures !("migration::" <= id) && !("cluster::node::" <= id) {
      ReservedIff(id);
    }
    hide Reserved;
    RestartIsInvisibleIff(m.hash, saved, items);
  }

  lemma StepSaves(m: Machine, p: Plane, e: PlaneEvent, saved: Contents)
    requires m.hash.Injective() && Occurs(m, p, e) && Fit(Metadata(p.w)) && Fit(saved) && p.file == Document(m.hash, saved)
    ensures var saved', p' := SavedThen(m, saved, p, e), Then(m, p, e);
      Fit(saved') && Fit(Metadata(p'.w)) && p'.file == Document(m.hash, saved')
      && (!e.Calling? ==> Metadata(p'.w) == saved')
  {
    hide Fit, Document, LoadInto, Enabled, Next, StepPuts, Unreserved, Lists, FileAfter, SavedAfter;
    if e.Restarting? {
      LoadsSaved(m, saved, e.items);
    } else {
      assert Unreserved(e.step) by { CrashIsUnreserved(e.step); }
      forall c | c in StepPuts(m.cfg, p.w, e.step) ensures Fit(c) {
        PutsAreFit(m.cfg, p.w, e.step, c);
      }
      FileIsSaved(m, saved, p.writes, StepPuts(m.cfg, p.w, e.step));
      StepKeepsFit(m.cfg, p.w, e.step);
      if e.Dying? {
        LoadsSaved(m, SavedThen(m, saved, p, e), e.items);
      }
    }
  }

  lemma CrashIsUnreserved(step: Step)
    ensures IsCrash(step) ==> Unreserved(step)
  {
  }

  /** At every moment of every history, whatever writes failed, a restart loads exactly the contents of the
      last put that was written. */
  lemma {:induction false} RestartAnywhere(m: Machine, ps: seq<Plane>, es: seq<PlaneEvent>, n: nat)
    requires IsPlaneRun(m, ps, es) && n <= |es|
    ensures Fit(Metadata(ps[n].w)) && Fit(SavedBy(m, ps, es, n)) && ps[n].file == Document(m.hash, SavedBy(m, ps, es, n))
    ensures forall items :: Lists(items, ps[n].file) ==> LoadInto(m.hash, Persistence.Empty, items) == SavedBy(m, ps, es, n)
  {
    hide Occurs, Then, Fit, Document, LoadInto, Lists, SavedThen;
    if n > 0 {
      RestartAnywhere(m, ps, es, n - 1);
      StepSaves(m, ps[n - 1], es[n - 1], SavedBy(m, ps, es, n - 1));
    }
    forall items | Lists(items, ps[n].file) ensures LoadInto(m.hash, Persistence.Empty, items) == SavedBy(m, ps, es, n) {
      LoadsSaved(m, SavedBy(m, ps, es, n), items);
    }
  }

  lemma StepIsCurrent(m: Machine, p: Plane, step: Step, saved: Contents)
    requires Occurs(m, p, Calling(step)) && Fit(Metadata(p.w))
    ensures var puts, saved' := StepPuts(m.cfg, p.w, step), SavedThen(m, saved, p, Calling(step));
      && (puts != [] && m.disk(p.writes + |puts| - 1) ==> saved' == Metadata(Next(m.cfg, p.w, step)))
      && (puts == [] && saved == Metadata(p.w) ==> saved' == Metadata(Next(m.cfg, p.w, step)))
  {
    hide Fit, Enabled, Next, StepPuts, SavedAfter, Unreserved, PutsReturn, IsCrash, Metadata;
    FitIsTidy(p.w);
    StepEndsInPut(m.cfg, p.w, step);
    LastWritten(m.disk, saved, p.writes, StepPuts(m.cfg, p.w, step));
  }

  lemma LastWritten(disk: nat -> bool, saved: Contents, n: nat, puts: seq<Contents>)
    ensures puts == [] ==> SavedAfter(disk, saved, n, puts) == saved
    ensures puts != [] && disk(n + |puts| - 1) ==> SavedAfter(disk, saved, n, puts) == Last(puts)
  {
  }

  /** After any event whose last put was written, and after any restart, the file says what the store
      holds; an event that puts nothing leaves it so. */
  lemma FileIsCurrent(m: Machine, ps: seq<Plane>, es: seq<PlaneEvent>, n: nat)
    requires IsPlaneRun(m, ps, es) && n < |es|
    ensures !es[n].Calling? ==> SavedBy(m, ps, es, n + 1) == Metadata(ps[n + 1].w)
    ensures es[n].Calling? && ps[n + 1].writes > ps[n].writes && m.disk(ps[n + 1].writes - 1) ==>
      SavedBy(m, ps, es, n + 1) == Metadata(ps[n + 1].w)
    ensures es[n].Calling? && ps[n + 1].writes == ps[n].writes && SavedBy(m, ps, es, n) == Metadata(ps[n].w) ==>
      SavedBy(m, ps, es, n + 1) == Metadata(ps[n + 1].w)
  {
    hide Fit, Document, LoadInto, Enabled, Next, StepPuts, Lists, FileAfter, Unreserved, SavedAfter;
    RestartAnywhere(m, ps, es, n);
    assert Occurs(m, ps[n], es[n]) && ps[n + 1] == Then(m, ps[n], es[n]);
    StepSaves(m, ps[n], es[n], SavedBy(m, ps, es, n));
    if es[n].Calling? {
      StepIsCurrent(m, ps[n], es[n].step, SavedBy(m, ps, es, n));
    }
  }

  lemma FitIsTidy(w: World)
    requires Fit(Metadata(w))
    ensures Tidy(w)
  {
  }

  // ----- histories whose writes succeed -----

  /** Every write of the file so far succeeded. */
  predicate AllWritten(m: Machine, n: nat) {
    forall k :: 0 <= k < n ==> m.disk(k)
  }

  /** What a process finds after a restart or a death is what the state machine says was there. */
  ghost predicate Stutters(m: Machine, p: Plane, e: PlaneEvent, p': Plane)
    requires Occurs(m, p, e)
  {
    p'.w == if e.Restarting? then p.w else Next(m.cfg, p.w, e.step)
  }

  lemma WrittenPuts(disk: nat -> bool, saved: Contents, n: nat, puts: seq<Contents>)
    requires forall k :: 0 <= k < n + |puts| ==> disk(k)
    ensures SavedAfter(disk, saved, n, puts) == if puts == [] then saved else Last(puts)
  {
  }

  lemma WrittenStepStutters(m: Machine, p: Plane, e: PlaneEvent)
    requires m.hash.Injective() && Occurs(m, p, e) && Fit(Metadata(p.w)) && p.file == Document(m.hash, Metadata(p.w))
    requires AllWritten(m, Then(m, p, e).writes)
    ensures Stutters(m, p, e, Then(m, p, e)) && SavedThen(m, Metadata(p.w), p, e) == Metadata(Then(m, p, e).w)
  {
    hide Fit, Document, LoadInto, Enabled, Next, StepPuts, Lists, FileAfter, Unreserved, PutsReturn;
    StepSaves(m, p, e, Metadata(p.w));
    if !e.Restarting? {
      CrashPutsReturn(e.step);
      FitIsTidy(p.w);
      StepEndsInPut(m.cfg, p.w, e.step);
      WrittenPuts(m.disk, Metadata(p.w), p.writes, StepPuts(m.cfg, p.w, e.step));
    }
  }

  lemma CrashPutsReturn(step: Step)
    ensures IsCrash(step) ==> PutsReturn(step)
  {
  }

  lemma WritesGrow(m: Machine, p: Plane, e: PlaneEvent)
    requires Occurs(m, p, e)
    ensures Then(m, p, e).writes >= p.writes
  {
    hide StepPuts, Next, Enabled, Lists;
  }

  /** As long as every write succeeded the file is the document of the control plane, a restart changes
      nothing, and a death leaves what the state machine says. */
  lemma {:induction false} WrittenFileIsCurrent(m: Machine, ps: seq<Plane>, es: seq<PlaneEvent>, n: nat)
    requires IsPlaneRun(m, ps, es) && n <= |es| && AllWritten(m, ps[n].writes)
    ensures Fit(Metadata(ps[n].w)) && ps[n].file == Document(m.hash, Metadata(ps[n].w))
    ensures forall k :: 0 <= k < n ==> Stutters(m, ps[k], es[k], ps[k + 1])
  {
    hide Occurs, Then, Fit, Document, Stutters;
    if n > 0 {
      WritesGrow(m, ps[n - 1], es[n - 1]);
      WrittenFileIsCurrent(m, ps, es, n - 1);
      WrittenStepStutters(m, ps[n - 1], es[n - 1]);
      StepSaves(m, ps[n - 1], es[n - 1], Metadata(ps[n - 1].w));
    }
  }

  /** The steps of a history, restarts left out. */
  function StepsOf(es: seq<PlaneEvent>): seq<Step> {
    if es == [] then []
    else StepsOf(es[..|es| - 1]) + if Last(es).Restarting? then [] else [Last(es).step]
  }

  /** A history with restarts whose writes succeed is a history of the state machine: every theorem about
      runs holds of what is loaded from the file. */
  lemma {:induction false} WrittenRunIsARun(m: Machine, ps: seq<Plane>, es: seq<PlaneEvent>, n: nat) returns (ws: seq<World>)
    requires IsPlaneRun(m, ps, es) && n <= |es| && AllWritten(m, ps[n].writes)
    ensures IsRun(m.cfg, ws, StepsOf(es[..n])) && ws[0] == ps[0].w && Last(ws) == ps[n].w
  {
    hide Next, Enabled, Fit, Document, Reloaded, Written, StepPuts;
    if n == 0 {
      ws := [ps[0].w];
      FitIsTidy(ps[0].w);
      assert es[..0] == [];
    } else {
      WritesGrow(m, ps[n - 1], es[n - 1]);
      ws := WrittenRunIsARun(m, ps, es, n - 1);
      WrittenFileIsCurrent(m, ps, es, n);
      assert Occurs(m, ps[n - 1], es[n - 1]) && Stutters(m, ps[n - 1], es[n - 1], ps[n]);
      assert es[..n][..n - 1] == es[..n - 1] && Last(es[..n]) == es[n - 1];
      if !es[n - 1].Restarting? {
        OneMore(m.cfg, ws, StepsOf(es[..n - 1]), es[n - 1].step);
        ws := ws + [ps[n].w];
      }
    }
  }

  lemma OneMore(cfg: Config, ws: seq<World>, steps: seq<Step>, step: Step)
    requires IsRun(cfg, ws, steps) && Enabled(cfg, Last(ws), step)
    ensures IsRun(cfg, ws + [Next(cfg, Last(ws), step)], steps + [step])
  {
    hide Next, Enabled, Tidy;
    var ws', steps' := ws + [Next(cfg, Last(ws), step)], steps + [step];
    forall i | 0 <= i < |steps'| ensures Enabled(cfg, ws'[i], steps'[i]) && ws'[i + 1] == Next(cfg, ws'[i], steps'[i]) {
      if i < |steps| {
        assert ws'[i] == ws[i] && ws'[i + 1] == ws[i + 1] && steps'[i] == steps[i];
      }
    }
  }

  // ----- the owner named in the file -----

  /** The state machine is deterministic. */
  lemma {:induction false} SameRun(cfg: Config, ws: seq<World>, ws': seq<World>, steps: seq<Step>, n: nat)
    requires IsRun(cfg, ws, steps) && IsRun(cfg, ws', steps) && ws[0] == ws'[0] && n <= |steps|
    ensures ws[n] == ws'[n]
  {
    hide Next, Enabled, Tidy;
    if n > 0 {
      SameRun(cfg, ws, ws', steps, n - 1);
    }
  }

  /** Data follows the file: in a history with restarts whose writes succeed and whose commits on the shard
      were rechecked, the owner that the next process will read has the shard's full content. */
  lemma DataFollowsTheFile(m: Machine, ps: seq<Plane>, es: seq<PlaneEvent>, ls: seq<Logical>, s: string, ws: seq<World>, items: seq<KeyDoc>)
    requires IsPlaneRun(m, ps, es) && AllWritten(m, Last(ps).writes) && m.cfg.layout.Separate()
    requires IsDataRun(m.cfg, ws, ls, StepsOf(es), s) && ws[0] == ps[0].w && Lists(items, Last(ps).file)
    requires forall i :: 0 <= i < |StepsOf(es)| ==> Rechecked(m.cfg, ws[i], StepsOf(es)[i], s)
    ensures var c := LoadInto(m.hash, Persistence.Empty, items);
      s in c.shards ==> Content(m.cfg, Last(ps).w, c.shards[s].nodeId, s) == Last(ls)
  {
    hide Fit, Document, LoadInto, Lists, Content, StepsOf, Occurs, Then, Rechecked;
    var ws' := WrittenRunIsARun(m, ps, es, |es|);
    assert es[..|es|] == es;
    SameRun(m.cfg, ws, ws', StepsOf(es), |StepsOf(es)|);
    WrittenFileIsCurrent(m, ps, es, |es|);
    DataFollowsOwnership(m.cfg, ws, ls, StepsOf(es), s, |StepsOf(es)|);
    LoadsSaved(m, Metadata(Last(ps).w), items);
  }

  // ----- a commit whose writes fail -----

  /** A commit goes on when a write of the file fails: it then removes the source although the file may still
      name it. Where the target holds what the source held, the owner that the next process reads has the
      content if and only if the write of the shard or the one of COMPLETED behind it succeeded, or there
      was nothing to lose. */
  lemma CommitFileIff(m: Machine, w: World, n: nat, id: string, items: seq<KeyDoc>)
    requires m.hash.Injective() && m.cfg.layout.Separate() && Fit(Metadata(w)) && ReadyToCommit(m.cfg, w, id)
    requires var k := w.migs[id]; Content(m.cfg, w, k.target, k.shardId) == Content(m.cfg, w, k.source, k.shardId)
    requires Lists(items, FileAfter(m.hash, m.disk, Document(m.hash, Metadata(w)), n, CommitPuts(m.cfg, w, id, Quiet)))
    ensures var w', k, c := Commit(m.cfg, w, id, Quiet).world, w.migs[id], LoadInto(m.hash, Persistence.Empty, items);
      && k.shardId in c.shards
      && c.shards[k.shardId].nodeId == (if m.disk(n + 1) || m.disk(n + 2) then k.target else k.source)
      && (Content(m.cfg, w', c.shards[k.shardId].nodeId, k.shardId) == Content(m.cfg, w, k.source, k.shardId)
          <==> m.disk(n + 1) || m.disk(n + 2) || Content(m.cfg, w, k.source, k.shardId) == LogicalOf(EmptyRoot))
  {
    var k := w.migs[id];
    hide Content, LogicalOf, Document, LoadInto, Lists, FileAfter, CommitPuts, Commit, Fit, ReadyToCommit, Layout.Separate;
    var c0, c1, c2 := CommitSteps(m.cfg, w, id);
    CommitRoots(m.cfg, w, id);
    LoadsThree(m, Metadata(w), n, c0, c1, c2, items);
  }

  /** The same of a process that dies behind the cleanup of the source, before COMPLETED is put: now the write
      of the shard alone decides. */
  lemma CutCommitFileIff(m: Machine, p: Plane, id: string, items: seq<KeyDoc>)
    requires m.hash.Injective() && m.cfg.layout.Separate() && Fit(Metadata(p.w)) && ReadyToCommit(m.cfg, p.w, id)
    requires var k := p.w.migs[id]; Content(m.cfg, p.w, k.target, k.shardId) == Content(m.cfg, p.w, k.source, k.shardId)
    requires p.file == Document(m.hash, Metadata(p.w)) && Occurs(m, p, Dying(CrashInCommit(id, SourceGone), items))
    ensures var w', k := Then(m, p, Dying(CrashInCommit(id, SourceGone), items)).w, p.w.migs[id];
      && k.shardId in w'.shards && w'.shards[k.shardId].nodeId == (if m.disk(p.writes + 1) then k.target else k.source)
      && (Content(m.cfg, w', w'.shards[k.shardId].nodeId, k.shardId) == Content(m.cfg, p.w, k.source, k.shardId)
          <==> m.disk(p.writes + 1) || Content(m.cfg, p.w, k.source, k.shardId) == LogicalOf(EmptyRoot))
  {
    hide LogicalOf, Document, LoadInto, Lists, FileAfter, CutCommit, Fit, ReadyToCommit, Layout.Separate, Occurs, Then, StoredRoot;
    DyingLoads(m, p, id, items);
    CutLoads(m, p.w, p.writes, id, items);
    CutRoots(m.cfg, p.w, id);
  }

  lemma DyingLoads(m: Machine, p: Plane, id: string, items: seq<KeyDoc>)
    requires Occurs(m, p, Dying(CrashInCommit(id, SourceGone), items)) && p.file == Document(m.hash, Metadata(p.w))
    ensures Enter(p.w, id, Verifying, true).Entered?
    ensures var w', c := Then(m, p, Dying(CrashInCommit(id, SourceGone), items)).w, LoadInto(m.hash, Persistence.Empty, items);
      w'.roots == CutCommit(m.cfg, p.w, id, SourceGone).roots && w'.shards == c.shards
    ensures Lists(items, FileAfter(m.hash, m.disk, Document(m.hash, Metadata(p.w)), p.writes, CutPuts(m.cfg, p.w, id)))
  {
    hide Document, LoadInto, Lists, FileAfter, CutCommit, Enabled, Next, StepPuts, Enter, CutPuts;
    CutIsStep(m.cfg, p.w, id);
  }

  lemma CutIsStep(cfg: Config, w: World, id: string)
    requires Enabled(cfg, w, CrashInCommit(id, SourceGone))
    ensures Enter(w, id, Verifying, true).Entered?
    ensures Next(cfg, w, CrashInCommit(id, SourceGone)) == CutCommit(cfg, w, id, SourceGone)
    ensures StepPuts(cfg, w, CrashInCommit(id, SourceGone)) == CutPuts(cfg, w, id)
  {
    hide Enter, CutCommit, ValidMember, OwnershipAccepted;
  }

  function CutPuts(cfg: Config, w: World, id: string): seq<Contents>
    requires Enter(w, id, Verifying, true).Entered?
  {
    [Metadata(CutCommit(cfg, w, id, CommittingStored))] + [Metadata(CutCommit(cfg, w, id, OwnerStored))]
  }

  lemma CutLoads(m: Machine, w: World, n: nat, id: string, items: seq<KeyDoc>)
    requires m.hash.Injective() && Fit(Metadata(w)) && ReadyToCommit(m.cfg, w, id) && Enter(w, id, Verifying, true).Entered?
    requires Lists(items, FileAfter(m.hash, m.disk, Document(m.hash, Metadata(w)), n, CutPuts(m.cfg, w, id)))
    ensures var k, c := w.migs[id], LoadInto(m.hash, Persistence.Empty, items);
      k.shardId in c.shards && c.shards[k.shardId].nodeId == (if m.disk(n + 1) then k.target else k.source)
  {
    hide Document, LoadInto, Lists, FileAfter, CutCommit, Fit, ReadyToCommit, Enter;
    var c0, c1 := CutSteps(m.cfg, w, id);
    assert CutPuts(m.cfg, w, id) == [c0, c1];
    LoadsTwo(m, Metadata(w), n, c0, c1, items);
  }

  lemma LoadsTwo(m: Machine, saved: Contents, n: nat, c0: Contents, c1: Contents, items: seq<KeyDoc>)
    requires m.hash.Injective() && Fit(saved) && Fit(c0) && Fit(c1)
    requires Lists(items, FileAfter(m.hash, m.disk, Document(m.hash, saved), n, [c0, c1]))
    ensures LoadInto(m.hash, Persistence.Empty, items) == if m.disk(n + 1) then c1 else if m.disk(n) then c0 else saved
  {
    hide Document, LoadInto, Lists, Fit, FileAfter;
    assert [c0, c1][..1] == [c0] && [c0][..0] == [];
    FileIsSaved(m, saved, n, [c0, c1]);
    LoadsSaved(m, SavedAfter(m.disk, saved, n, [c0, c1]), items);
    assert SavedAfter(m.disk, saved, n, [c0]) == if m.disk(n) then c0 else saved;
  }

  lemma CutSteps(cfg: Config, w: World, id: string) returns (c0: Contents, c1: Contents)
    requires Fit(Metadata(w)) && ReadyToCommit(cfg, w, id)
    requires Enter(w, id, Verifying, true).Entered?
    ensures c0 == Metadata(CutCommit(cfg, w, id, CommittingStored)) && c1 == Metadata(CutCommit(cfg, w, id, OwnerStored))
    ensures Fit(c0) && Fit(c1)
    ensures var k := w.migs[id];
      && k.shardId in w.shards && w.shards[k.shardId].nodeId == k.source
      && c0.shards == w.shards && k.shardId in c1.shards && c1.shards[k.shardId].nodeId == k.target
  {
    var m, s := w.migs[id], w.shards[w.migs[id].shardId];
    c0 := Metadata(CutCommit(cfg, w, id, CommittingStored));
    c1 := Metadata(CutCommit(cfg, w, id, OwnerStored));
    MarkedIsFit(w, m.Moved(Committing), Handed(s, m.target));
    hide Fit, ValidMember, OwnershipAccepted, Without;
  }

  lemma CutRoots(cfg: Config, w: World, id: string)
    requires Enter(w, id, Verifying, true).Entered?
    requires cfg.layout.Separate() && ReadyToCommit(cfg, w, id)
    ensures var w', k := CutCommit(cfg, w, id, SourceGone), w.migs[id];
      && Content(cfg, w', k.source, k.shardId) == LogicalOf(EmptyRoot)
      && Content(cfg, w', k.target, k.shardId) == Content(cfg, w, k.target, k.shardId)
  {
    hide LogicalOf, Layout.Dir, OwnershipAccepted, ValidMember, Without;
    var k := w.migs[id];
    assert cfg.layout.Dir(k.source) != cfg.layout.Dir(k.target);
    var w' := CutCommit(cfg, w, id, SourceGone);
    assert RootAt(cfg, w', k.source, k.shardId) == EmptyRoot;
    assert RootAt(cfg, w', k.target, k.shardId) == RootAt(cfg, w, k.target, k.shardId);
  }

  lemma LoadsThree(m: Machine, saved: Contents, n: nat, c0: Contents, c1: Contents, c2: Contents, items: seq<KeyDoc>)
    requires m.hash.Injective() && Fit(saved) && Fit(c0) && Fit(c1) && Fit(c2)
    requires Lists(items, FileAfter(m.hash, m.disk, Document(m.hash, saved), n, [c0, c1, c2]))
    ensures LoadInto(m.hash, Persistence.Empty, items)
         == if m.disk(n + 2) then c2 else if m.disk(n + 1) then c1 else if m.disk(n) then c0 else saved
  {
    hide Document, LoadInto, Lists, Fit, FileAfter;
    var puts := [c0, c1, c2];
    assert puts[..2] == [c0, c1] && [c0, c1][..1] == [c0] && [c0][..0] == [];
    FileIsSaved(m, saved, n, puts);
    LoadsSaved(m, SavedAfter(m.disk, saved, n, puts), items);
    assert SavedAfter(m.disk, saved, n, [c0]) == if m.disk(n) then c0 else saved;
    assert SavedAfter(m.disk, saved, n, [c0, c1]) == if m.disk(n + 1) then c1 else SavedAfter(m.disk, saved, n, [c0]);
  }

  /** The three contents a commit puts: the shard has its new owner from the second on. */
  lemma CommitSteps(cfg: Config, w: World, id: string) returns (c0: Contents, c1: Contents, c2: Contents)
    requires Fit(Metadata(w)) && ReadyToCommit(cfg, w, id)
    ensures CommitPuts(cfg, w, id, Quiet) == [c0, c1, c2] && Fit(c0) && Fit(c1) && Fit(c2)
    ensures var k := w.migs[id];
      && k.shardId in w.shards && w.shards[k.shardId].nodeId == k.source
      && c0.shards == w.shards && k.shardId in c1.shards && c2.shards == c1.shards && c1.shards[k.shardId].nodeId == k.target
  {
    var m, s := w.migs[id], w.shards[w.migs[id].shardId];
    c0 := Metadata(WithMig(w, m.Moved(Committing)));
    c1 := Metadata(WithShard(WithMig(w, m.Moved(Committing)), Handed(s, m.target)));
    c2 := Metadata(Commit(cfg, w, id, Quiet).world);
    MarkedIsFit(w, m.Moved(Committing), Handed(s, m.target));
    CommitIsFit(cfg, w, id);
    hide Fit, ValidMember, OwnershipAccepted, WithRoot, Without;
  }

  lemma CommitIsFit(cfg: Config, w: World, id: string)
    requires Fit(Metadata(w)) && ReadyToCommit(cfg, w, id)
    ensures Fit(Metadata(Commit(cfg, w, id, Quiet).world))
  {
    StepKeepsFit(cfg, w, CommitCall(id, Quiet));
    hide Fit, Commit;
  }

  lemma CommitRoots(cfg: Config, w: World, id: string)
    requires cfg.layout.Separate() && ReadyToCommit(cfg, w, id)
    ensures var w', k := Commit(cfg, w, id, Quiet).world, w.migs[id];
      && Content(cfg, w', k.source, k.shardId) == LogicalOf(EmptyRoot)
      && Content(cfg, w', k.target, k.shardId) == Content(cfg, w, k.target, k.shardId)
  {
    hide LogicalOf, Layout.Dir, OwnershipAccepted, ValidMember, Without;
    var k := w.migs[id];
    assert cfg.layout.Dir(k.source) != cfg.layout.Dir(k.target);
    var w' := Commit(cfg, w, id, Quiet).world;
    assert RootAt(cfg, w', k.source, k.shardId) == EmptyRoot;
    assert RootAt(cfg, w', k.target, k.shardId) == RootAt(cfg, w, k.target, k.shardId);
  }
}
