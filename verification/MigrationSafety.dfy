/** What every run of the migration protocol keeps: one migration per shard, honest terminal
    states, and shard data that follows ownership. */
module MigrationSafety {
  import opened Wrappers
  import opened Records
  import opened Recovery
  import opened Transfer
  import opened Protocol
  import opened StaleGuard

  ghost predicate Live(w: World, id: string) {
    id in w.migs && !w.migs[id].Terminal()
  }

  ghost predicate OneLivePerShard(w: World) {
    forall a, b :: Live(w, a) && Live(w, b) && w.migs[a].shardId == w.migs[b].shardId ==> a == b
  }

  predicate IsCrash(step: Step) {
    step.CrashInCopy? || step.CrashInCommit? || step.CrashInCancel?
  }

  // ----- how a migration record moves -----

  lemma EnteredIsLive(w: World, id: string, expected: MigState, putOk: bool)
    requires expected == Pending || expected == Preparing || expected == Copying || expected == Verifying
    ensures id in w.migs && (w.migs[id].Terminal() || w.migs[id].state == Committing) ==>
      Enter(w, id, expected, putOk) == Refused(Answer(w, Raised(WrongState)))
  {
  }

  /** Terminal records never change; an interrupted commit can only be failed. */
  lemma DeadEnds(cfg: Config, w: World, step: Step, id: string)
    requires Tidy(w) && Enabled(cfg, w, step) && id in w.migs
    ensures id in Next(cfg, w, step).migs
    ensures w.migs[id].Terminal() ==> Next(cfg, w, step).migs[id] == w.migs[id]
    ensures w.migs[id].state == Committing ==>
      Next(cfg, w, step).migs[id] == w.migs[id] || Next(cfg, w, step).migs[id].Terminal()
  {
    StepKeepsSubject(cfg, w, step, id);
    hide Enter, WithRoot;
    if Subject(step) == Some(id) && (w.migs[id].Terminal() || w.migs[id].state == Committing) {
      match step
      case PrepareCall(_, env) => EnteredIsLive(w, id, Pending, env.put0);
      case StartCopyCall(_, env) => EnteredIsLive(w, id, Preparing, env.put0);
      case VerifyCall(_, env) => EnteredIsLive(w, id, Copying, env.put0);
      case CommitCall(_, env) => EnteredIsLive(w, id, Verifying, env.put0);
      case CrashInCopy(_, _) => EnteredIsLive(w, id, Preparing, true);
      case CrashInCommit(_, _) => EnteredIsLive(w, id, Verifying, true);
      case _ =>
    }
  }

  // ----- atomic calls -----

  /** No record rests in COMMITTING; from COPYING to COMPLETED both digests are there and equal. */
  ghost predicate Honest(m: MigrationRec) {
    && m.state != Committing
    && (m.state == Pending || m.state == Preparing ==> m.sourceDigest == None)
    && (m.state == Copying || m.state == Verifying || m.state == Completed ==>
          m.sourceDigest.Some? && m.targetDigest == m.sourceDigest)
  }

  lemma PrepareHonest(w: World, id: string, env: Env)
    requires Tidy(w) && id in w.migs && Honest(w.migs[id])
    ensures id in Prepare(w, id, env).world.migs && Honest(Prepare(w, id, env).world.migs[id])
  {
  }

  lemma StartCopyHonest(cfg: Config, w: World, id: string, env: Env)
    requires Tidy(w) && id in w.migs && Honest(w.migs[id])
    ensures id in StartCopy(cfg, w, id, env).world.migs && Honest(StartCopy(cfg, w, id, env).world.migs[id])
  {
    hide EndCopy, WithRoot, DigestOf, LogicalOf, VerifyPasses;
    var m := w.migs[id];
    EndCopyShape(m.Moved(Copying), DigestOf(LogicalOf(RootAt(cfg, w, m.source, m.shardId))), env);
  }

  lemma VerifyHonest(cfg: Config, w: World, id: string, env: Env)
    requires Tidy(w) && id in w.migs && Honest(w.migs[id])
    ensures id in Verify(cfg, w, id, env).world.migs && Honest(Verify(cfg, w, id, env).world.migs[id])
  {
    hide DigestOf, LogicalOf, RootAt;
  }

  lemma CommitHonest(cfg: Config, w: World, id: string, env: Env)
    requires Tidy(w) && id in w.migs && Honest(w.migs[id])
    ensures var w' := Commit(cfg, w, id, env).world;
      && id in w'.migs && Honest(w'.migs[id])
      && (w'.shards != w.shards ==> w'.migs[id].state == Completed)
  {
    EnterShape(w, id, Verifying, env.put0);
    EnterStops(w, id, Verifying, env.put0);
    var m := w.migs[id];
    if m.shardId in w.shards {
      var owned := WithShard(w, Handed(w.shards[m.shardId], m.target));
      WithRootShape(cfg, owned, m.source, m.shardId, Left(env.cleanup));
    }
    hide Enter, WithRoot, ValidMember, OwnershipAccepted, Without, Handed, SourceProblem;
  }

  lemma EndingsHonest(cfg: Config, w: World, id: string, reason: string, env: Env)
    requires Tidy(w) && id in w.migs && Honest(w.migs[id])
    ensures id in Cancel(cfg, w, id, env).world.migs && Honest(Cancel(cfg, w, id, env).world.migs[id])
    ensures id in ForceFail(w, id, reason, env).world.migs && Honest(ForceFail(w, id, reason, env).world.migs[id])
  {
  }

  ghost predicate AtomicInv(w: World) {
    && Tidy(w) && OneLivePerShard(w)
    && forall id :: id in w.migs ==> Honest(w.migs[id])
  }

  lemma CallHonest(cfg: Config, w: World, step: Step, id: string)
    requires Tidy(w) && Enabled(cfg, w, step) && !IsCrash(step) && Subject(step) == Some(id)
    requires id in w.migs && Honest(w.migs[id])
    ensures id in Next(cfg, w, step).migs && Honest(Next(cfg, w, step).migs[id])
    ensures Next(cfg, w, step).shards != w.shards ==> Next(cfg, w, step).migs[id].state == Completed
  {
    CallShape(cfg, w, step);
    hide Prepare, StartCopy, Verify, Commit, Cancel, ForceFail, Honest, Enabled;
    match step
    case PrepareCall(_, env) => PrepareHonest(w, id, env);
    case StartCopyCall(_, env) => StartCopyHonest(cfg, w, id, env);
    case VerifyCall(_, env) => VerifyHonest(cfg, w, id, env);
    case CommitCall(_, env) => CommitHonest(cfg, w, id, env);
    case CancelCall(_, env) => EndingsHonest(cfg, w, id, "", env);
    case FailCall(_, reason, env) => EndingsHonest(cfg, w, id, reason, env);
  }

  /** One migration in progress per shard survives every step, interrupted ones included. */
  lemma StepKeepsOneLive(cfg: Config, w: World, step: Step)
    requires Tidy(w) && Enabled(cfg, w, step) && OneLivePerShard(w)
    ensures OneLivePerShard(Next(cfg, w, step))
  {
    var w' := Next(cfg, w, step);
    if step.CreateCall? {
      CreateShape(cfg, w, step);
    } else {
      forall a | Live(w', a) ensures Live(w, a) && w.migs[a].shardId == w'.migs[a].shardId {
        MigrationsAreOld(cfg, w, step, a);
        DeadEnds(cfg, w, step, a);
        StepKeepsSubject(cfg, w, step, a);
      }
    }
  }

  lemma MigrationsAreOld(cfg: Config, w: World, step: Step, id: string)
    requires Tidy(w) && Enabled(cfg, w, step) && !step.CreateCall? && id in Next(cfg, w, step).migs
    ensures id in w.migs
  {
    hide Next, Enabled;
    if Subject(step).Some? {
      CallShape(cfg, w, step);
    } else {
      AdminShape(cfg, w, step);
    }
  }

  lemma StepKeepsAtomicInv(cfg: Config, w: World, step: Step)
    requires AtomicInv(w) && Enabled(cfg, w, step) && !IsCrash(step)
    ensures AtomicInv(Next(cfg, w, step))
  {
    var w' := Next(cfg, w, step);
    StepMovesForward(cfg, w, step);
    StepKeepsOneLive(cfg, w, step);
    hide Next, Enabled, OneLivePerShard;
    forall id | id in w'.migs ensures Honest(w'.migs[id]) {
      if step.CreateCall? {
        CreateShape(cfg, w, step);
      } else {
        MigrationsAreOld(cfg, w, step, id);
        if Subject(step) == Some(id) {
          CallHonest(cfg, w, step, id);
        } else {
          StepKeepsSubject(cfg, w, step, id);
        }
      }
    }
  }

  /** The run invariant: at every point of every run of calls that return or raise, each shard
      has at most one migration in progress, no migration rests in COMMITTING, and a completed
      one has both digests, equal. */
  lemma {:induction false} RunKeepsAtomicInv(cfg: Config, ws: seq<World>, steps: seq<Step>, n: nat)
    requires IsRun(cfg, ws, steps) && n <= |steps| && AtomicInv(ws[0])
    requires forall k :: 0 <= k < n ==> !IsCrash(steps[k])
    ensures AtomicInv(ws[n])
  {
    hide Next, Enabled, AtomicInv;
    if n > 0 {
      RunKeepsAtomicInv(cfg, ws, steps, n - 1);
      StepKeepsAtomicInv(cfg, ws[n - 1], steps[n - 1]);
    }
  }

  lemma {:induction false} TerminalAbsorbs(cfg: Config, ws: seq<World>, steps: seq<Step>, i: nat, j: nat, id: string)
    requires IsRun(cfg, ws, steps) && i <= j <= |steps|
    requires id in ws[i].migs && ws[i].migs[id].Terminal()
    ensures id in ws[j].migs && ws[j].migs[id] == ws[i].migs[id]
  {
    hide Next, Enabled;
    if i < j {
      TerminalAbsorbs(cfg, ws, steps, i, j - 1, id);
      RunMovesForward(cfg, ws, steps, i, j - 1);
      DeadEnds(cfg, ws[j - 1], steps[j - 1], id);
    }
  }

  /** A commit that returns or raises changes shards only on its way to COMPLETED. */
  lemma CommitChangesToComplete(cfg: Config, w: World, id: string, env: Env)
    requires Tidy(w) && id in w.migs
    ensures var w' := Commit(cfg, w, id, env).world;
      id in w'.migs && (w'.shards != w.shards ==> w'.migs[id].state == Completed)
  {
    EnterShape(w, id, Verifying, env.put0);
    EnterStops(w, id, Verifying, env.put0);
    var m := w.migs[id];
    if m.shardId in w.shards {
      WithRootShape(cfg, WithShard(w, Handed(w.shards[m.shardId], m.target)), m.source, m.shardId, Left(env.cleanup));
    }
    hide Enter, WithRoot, ValidMember, OwnershipAccepted, Without, Handed, SourceProblem;
  }

  /** A process that dies inside a commit, after the shard was stored with its new owner. */
  predicate CutBehindOwner(step: Step) {
    step.CrashInCommit? && !step.point.CommittingStored?
  }

  /** A migration that ended FAILED or CANCELLED never changed an owner, a replica list or a version, in any
      history, crashes included: with the one exception of a commit cut behind the put of the owner. */
  lemma UnfinishedMigrationsChangedNothing(cfg: Config, ws: seq<World>, steps: seq<Step>, k: nat, id: string)
    requires IsRun(cfg, ws, steps) && k < |steps| && Subject(steps[k]) == Some(id)
    requires id in ws[|steps|].migs && (ws[|steps|].migs[id].state == Failed || ws[|steps|].migs[id].state == Cancelled)
    ensures ws[k + 1].shards != ws[k].shards <==> CutBehindOwner(steps[k])
  {
    RunMovesForward(cfg, ws, steps, 0, k);
    CallShape(cfg, ws[k], steps[k]);
    hide Next, Enabled;
    if CutBehindOwner(steps[k]) {
      CutChanges(cfg, ws[k], steps[k], id);
    } else if ws[k + 1].shards != ws[k].shards {
      assert HandsOver(ws[k], ws[k + 1], id);
      OnlyCommitsChange(cfg, ws[k], steps[k], id);
      TerminalAbsorbs(cfg, ws, steps, k + 1, |steps|, id);
    }
  }

  lemma CutChanges(cfg: Config, w: World, step: Step, id: string)
    requires Tidy(w) && Enabled(cfg, w, step) && Subject(step) == Some(id) && CutBehindOwner(step)
    ensures Next(cfg, w, step).shards != w.shards
  {
    CrashInCommitShape(cfg, w, id, step.point);
    var m, w' := w.migs[id], Next(cfg, w, step);
    hide Next, Enabled;
    assert w'.shards[m.shardId].version != w.shards[m.shardId].version;
  }

  lemma OnlyCommitsChange(cfg: Config, w: World, step: Step, id: string)
    requires Tidy(w) && Enabled(cfg, w, step) && Subject(step) == Some(id) && id in w.migs && !CutBehindOwner(step)
    requires HandsOver(w, Next(cfg, w, step), id) && Next(cfg, w, step).shards != w.shards
    ensures id in Next(cfg, w, step).migs && Next(cfg, w, step).migs[id].state == Completed
  {
    CallShape(cfg, w, step);
    NoOwnMigration(w, Next(cfg, w, step), id);
    if step.CommitCall? {
      CommitChangesToComplete(cfg, w, id, step.env);
    } else {
      CrashInCommitShape(cfg, w, id, step.point);
    }
    hide Commit, CutCommit, HandsOver, OnlyMigration;
  }

  lemma NoOwnMigration(w: World, w': World, id: string)
    requires w'.shards != w.shards
    ensures !OnlyMigration(w, w', id)
  {
  }
}
