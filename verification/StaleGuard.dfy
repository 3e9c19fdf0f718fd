/** What each call may touch, and the version guard as a compare-and-swap on the shard record. */
module StaleGuard {
  import opened Wrappers
  import opened Protocol
  import opened Transfer

  /** Only the state, the bookkeeping and the digests of a migration ever change. */
  ghost predicate SameSubject(m: MigrationRec, m': MigrationRec) {
    && m'.id == m.id && m'.namespace == m.namespace && m'.shardId == m.shardId && m'.source == m.source
    && m'.target == m.target && m'.sourceVersion == m.sourceVersion && m'.clusterId == m.clusterId
  }

  /** At most the record of one migration changed. */
  ghost predicate OnlyMigration(w: World, w': World, id: string) {
    && w'.shards == w.shards && w'.nodes == w.nodes
    && (w'.migs == w.migs
        || (id in w.migs && id in w'.migs && SameSubject(w.migs[id], w'.migs[id]) && w'.migs == w.migs[id := w'.migs[id]]))
  }

  /** The guard of every step that leads to a commit, and of the commit itself. */
  ghost predicate Current(w: World, id: string) {
    && id in w.migs && w.migs[id].shardId in w.shards
    && SourceProblem(w, w.migs[id]) == None
  }

  /** The one change of ownership: the shard of a current migration is handed to its target. */
  ghost predicate HandsOver(w: World, w': World, id: string) {
    && Current(w, id)
    && w'.nodes == w.nodes
    && (var m := w.migs[id]; w'.shards == w.shards[m.shardId := Handed(w.shards[m.shardId], m.target)])
    && id in w'.migs && SameSubject(w.migs[id], w'.migs[id]) && w'.migs == w.migs[id := w'.migs[id]]
    && w.migs[id].state == Verifying && (w'.migs[id].state == Completed || w'.migs[id].state == Committing)
  }

  lemma NoProblemIsCurrent(w: World, id: string)
    requires id in w.migs && SourceProblem(w, w.migs[id]) == None
    ensures Current(w, id)
  {
  }

  lemma StaleShape(w: World, id: string)
    requires Tidy(w) && id in w.migs
    ensures forall why :: OnlyMigration(w, WithMig(w, w.migs[id].Fail(why)), id) && WithMig(w, w.migs[id].Fail(why)).roots == w.roots
    ensures OnlyMigration(w, w, id)
  {
  }

  lemma EnterShape(w: World, id: string, expected: MigState, putOk: bool)
    requires Tidy(w)
    ensures match Enter(w, id, expected, putOk)
      case Refused(a) => a.outcome != Done && OnlyMigration(w, a.world, id) && a.world.roots == w.roots
      case Entered(m, s) => Current(w, id) && m == w.migs[id] && s == w.shards[m.shardId] && m.state == expected
  {
    hide MigCanMove;
    if id in w.migs {
      if SourceProblem(w, w.migs[id]) == None {
        NoProblemIsCurrent(w, id);
      }
      StaleShape(w, id);
    }
    hide SourceProblem, Current, OnlyMigration, WithMig, MigrationRec.Fail;
  }

  lemma EnterStops(w: World, id: string, expected: MigState, putOk: bool)
    requires Tidy(w) && id in w.migs
    requires expected == Pending || expected == Preparing || expected == Copying || expected == Verifying
    ensures match Enter(w, id, expected, putOk)
      case Refused(a) => id in a.world.migs && (a.world == w || a.world.migs[id].state == Failed)
      case Entered(_, _) => true
  {
  }

  lemma PrepareShape(w: World, id: string, env: Env)
    requires Tidy(w)
    ensures OnlyMigration(w, Prepare(w, id, env).world, id) && Prepare(w, id, env).world.roots == w.roots
  {
    hide Enter;
    EnterShape(w, id, Pending, env.put0);
  }

  /** A copy ends in COPYING with both digests recorded and equal, or in FAILED. */
  lemma EndCopyShape(copying: MigrationRec, digest: Digest, env: Env)
    requires copying.state == Copying
    ensures var end := EndCopy(copying, digest, env);
      && SameSubject(copying, end.m)
      && (end.outcome == Done ==>
            end.m.state == Copying && end.m.sourceDigest == end.m.targetDigest == Some(digest)
            && end.touched && end.left.Some? && VerifyPasses(end.left.value, Some(digest)))
      && (end.outcome != Done ==> end.m.state == Failed)
      && (ValidEnv(env) ==> ValidLeft(end.left))
  {
    hide VerifyPasses;
  }

  lemma StartCopyShape(cfg: Config, w: World, id: string, env: Env)
    requires Tidy(w)
    ensures OnlyMigration(w, StartCopy(cfg, w, id, env).world, id)
  {
    hide Enter, EndCopy;
    EnterShape(w, id, Preparing, env.put0);
    if id in w.migs {
      EndCopyShape(w.migs[id].Moved(Copying), DigestOf(LogicalOf(RootAt(cfg, w, w.migs[id].source, w.migs[id].shardId))), env);
    }
  }

  lemma VerifyShape(cfg: Config, w: World, id: string, env: Env)
    requires Tidy(w)
    ensures OnlyMigration(w, Verify(cfg, w, id, env).world, id) && Verify(cfg, w, id, env).world.roots == w.roots
  {
    hide Enter;
    EnterShape(w, id, Copying, env.put0);
  }

  lemma EndingsShape(cfg: Config, w: World, id: string, reason: string, env: Env)
    requires Tidy(w)
    ensures OnlyMigration(w, Cancel(cfg, w, id, env).world, id)
    ensures OnlyMigration(w, ForceFail(w, id, reason, env).world, id)
  {
  }

  lemma CommitShape(cfg: Config, w: World, id: string, env: Env)
    requires Tidy(w)
    ensures var w' := Commit(cfg, w, id, env).world;
      (OnlyMigration(w, w', id) && w'.roots == w.roots) || HandsOver(w, w', id)
  {
    hide Enter;
    EnterShape(w, id, Verifying, env.put0);
  }

  lemma UntouchedShape(w: World, w': World, id: string)
    requires w'.shards == w.shards && w'.nodes == w.nodes && w'.migs == w.migs
    ensures OnlyMigration(w, w', id)
  {
  }

  lemma CrashInCopyShape(cfg: Config, w: World, id: string, left: Option<Root>)
    requires Tidy(w) && Enabled(cfg, w, CrashInCopy(id, left))
    ensures OnlyMigration(w, Next(cfg, w, CrashInCopy(id, left)), id)
  {
    hide Enter;
    EnterShape(w, id, Preparing, true);
  }

  lemma CrashInCommitShape(cfg: Config, w: World, id: string, point: CommitPoint)
    requires Tidy(w) && Enabled(cfg, w, CrashInCommit(id, point))
    ensures var w' := Next(cfg, w, CrashInCommit(id, point));
      if point.CommittingStored? then OnlyMigration(w, w', id) && w'.roots == w.roots else HandsOver(w, w', id)
  {
    hide Enter;
    EnterShape(w, id, Verifying, true);
  }

  /** The migration a call works on. */
  function Subject(step: Step): Option<string> {
    match step
    case PrepareCall(id, _) => Some(id)
    case StartCopyCall(id, _) => Some(id)
    case VerifyCall(id, _) => Some(id)
    case CommitCall(id, _) => Some(id)
    case CancelCall(id, _) => Some(id)
    case FailCall(id, _, _) => Some(id)
    case CrashInCopy(id, _) => Some(id)
    case CrashInCommit(id, _) => Some(id)
    case CrashInCancel(id, _) => Some(id)
    case _ => None
  }

  /** A call on a migration changes that migration's record alone, or hands its shard over. */
  lemma CallShape(cfg: Config, w: World, step: Step)
    requires Tidy(w) && Enabled(cfg, w, step) && Subject(step).Some?
    ensures var id, w' := Subject(step).value, Next(cfg, w, step);
      OnlyMigration(w, w', id) || (HandsOver(w, w', id) && (step.CommitCall? || step.CrashInCommit?))
  {
    hide Prepare, StartCopy, Verify, Commit, Cancel, ForceFail, OnlyMigration, HandsOver;
    match step
    case PrepareCall(id, env) => PrepareShape(w, id, env);
    case StartCopyCall(id, env) => StartCopyShape(cfg, w, id, env);
    case VerifyCall(id, env) => VerifyShape(cfg, w, id, env);
    case CommitCall(id, env) => CommitShape(cfg, w, id, env);
    case CancelCall(id, env) => EndingsShape(cfg, w, id, "", env);
    case FailCall(id, reason, env) => EndingsShape(cfg, w, id, reason, env);
    case CrashInCopy(id, left) => CrashInCopyShape(cfg, w, id, left);
    case CrashInCommit(id, point) => CrashInCommitShape(cfg, w, id, point);
    case CrashInCancel(id, left) => UntouchedShape(w, Next(cfg, w, step), id);
  }

  /** A shard record is as it was, or its version has grown. */
  ghost predicate Forward(w: World, w': World) {
    forall i :: i in w.shards ==>
      && i in w'.shards
      && (w'.shards[i] == w.shards[i] || w'.shards[i].version > w.shards[i].version)
  }

  /** A creation adds one PENDING migration of a migratable shard with no other in progress,
      or changes nothing. */
  lemma CreateShape(cfg: Config, w: World, step: Step)
    requires Tidy(w) && step.CreateCall? && Enabled(cfg, w, step)
    ensures var w' := Next(cfg, w, step);
      w' == w
      || (&& w'.shards == w.shards && w'.roots == w.roots && w'.nodes == w.nodes
          && step.newId in w'.migs && w'.migs == w.migs[step.newId := w'.migs[step.newId]]
          && (var m := w'.migs[step.newId];
              && m.id == step.newId && m.state == Pending && m.shardId == step.shardId && m.shardId in w.shards
              && m.source == w.shards[m.shardId].nodeId && m.sourceVersion == w.shards[m.shardId].version
              && m.source != m.target && m.sourceDigest == None && Migratable(w.shards[m.shardId].state)
              && (forall i :: i in w.migs && w.migs[i].shardId == m.shardId ==> w.migs[i].Terminal())))
  {
    hide ValidMember;
  }

  /** A shard put that adds a shard or raises its version, and touches nothing else. */
  ghost predicate Advanced(w: World, w': World) {
    w'.migs == w.migs && w'.roots == w.roots && Tidy(w') && Forward(w, w')
  }

  lemma PutAdvances(w: World, s: ShardRec)
    requires Tidy(w) && (s.id !in w.shards || s.version > w.shards[s.id].version)
    ensures Advanced(w, WithShard(w, s)) && Advanced(w, w)
  {
  }

  lemma AddShardShape(w: World, s: ShardRec, putOk: bool)
    requires Tidy(w) && s.id !in w.shards
    ensures Advanced(w, AddShard(w, s, putOk).world)
  {
    PutAdvances(w, s.(state := Creating));
    hide MemberError, WithShard, Advanced;
  }

  lemma MoveShardShape(w: World, shardId: string, to: ShardState, putOk: bool)
    requires Tidy(w)
    ensures Advanced(w, MoveShard(w, shardId, to, putOk).world)
  {
    if shardId in w.shards {
      var s := w.shards[shardId];
      PutAdvances(w, s.(state := to, version := s.version + 1));
    }
    hide ShardCanMove, WithShard;
  }

  lemma ChangeOwnerShape(w: World, shardId: string, owner: string, replicas: Option<seq<string>>, putOk: bool)
    requires Tidy(w)
    ensures Advanced(w, ChangeOwner(w, shardId, owner, replicas, putOk).world)
  {
    if shardId in w.shards {
      var s := w.shards[shardId];
      var rs := if replicas.Some? then replicas.value else s.replicas;
      PutAdvances(w, s.(version := s.version + 1));
      PutAdvances(w, s.(nodeId := owner, replicas := rs, version := s.version + 1));
    }
    hide MemberError, WithShard;
  }

  lemma AdminShape(cfg: Config, w: World, step: Step)
    requires Tidy(w) && Enabled(cfg, w, step) && Subject(step) == None && !step.CreateCall?
    ensures var w' := Next(cfg, w, step); w'.migs == w.migs && Tidy(w') && Forward(w, w')
  {
    hide AddShard, MoveShard, ChangeOwner, Register, MoveNode, WithRoot;
    match step
    case AddShardCall(s, ok) => AddShardShape(w, s, ok);
    case MoveShardCall(shardId, to, ok) => MoveShardShape(w, shardId, to, ok);
    case ChangeOwnerCall(shardId, owner, replicas, ok) => ChangeOwnerShape(w, shardId, owner, replicas, ok);
    case RegisterCall(node, clusterId, ok) => RegisterShape(cfg, w, node, clusterId, ok);
    case MoveNodeCall(node, to, ok) => MoveNodeShape(cfg, w, node, to, ok);
    case WriteCall(node, shardId, _, root) => WithRootShape(cfg, w, node, shardId, Some(root));
    case Rearrange(node, shardId, root) => WithRootShape(cfg, w, node, shardId, Some(root));
    case _ =>
  }

  lemma RegisterShape(cfg: Config, w: World, node: string, clusterId: Option<string>, putOk: bool)
    ensures var w' := Register(cfg, w, node, clusterId, putOk).world;
      w'.migs == w.migs && w'.shards == w.shards && w'.roots == w.roots
  {
  }

  lemma MoveNodeShape(cfg: Config, w: World, node: string, to: NodeState, putOk: bool)
    ensures var w' := MoveNode(cfg, w, node, to, putOk).world;
      w'.migs == w.migs && w'.shards == w.shards && w'.roots == w.roots
  {
  }

  lemma WithRootShape(cfg: Config, w: World, node: string, shard: string, root: Option<Root>)
    ensures var w' := WithRoot(cfg, w, node, shard, root);
      w'.migs == w.migs && w'.shards == w.shards && w'.nodes == w.nodes
  {
  }

  lemma StepMovesForward(cfg: Config, w: World, step: Step)
    requires Tidy(w) && Enabled(cfg, w, step)
    ensures Tidy(Next(cfg, w, step)) && Forward(w, Next(cfg, w, step))
  {
    hide Next, Enabled;
    if Subject(step).Some? {
      CallShape(cfg, w, step);
    } else if step.CreateCall? {
      CreateShape(cfg, w, step);
    } else {
      AdminShape(cfg, w, step);
    }
  }

  lemma {:induction false} RunMovesForward(cfg: Config, ws: seq<World>, steps: seq<Step>, i: nat, j: nat)
    requires IsRun(cfg, ws, steps) && i <= j <= |steps|
    ensures Tidy(ws[j]) && Forward(ws[i], ws[j])
  {
    hide Next, Enabled;
    if j > 0 {
      RunMovesForward(cfg, ws, steps, if i < j then i else j - 1, j - 1);
      StepMovesForward(cfg, ws[j - 1], steps[j - 1]);
    }
  }

  /** Records of migrations stay, and keep their subject. */
  lemma {:induction false} RunKeepsSubject(cfg: Config, ws: seq<World>, steps: seq<Step>, i: nat, j: nat, id: string)
    requires IsRun(cfg, ws, steps) && i <= j <= |steps| && id in ws[i].migs
    ensures id in ws[j].migs && SameSubject(ws[i].migs[id], ws[j].migs[id])
  {
    hide Next, Enabled;
    if i < j {
      RunKeepsSubject(cfg, ws, steps, i, j - 1, id);
      RunMovesForward(cfg, ws, steps, i, j - 1);
      StepKeepsSubject(cfg, ws[j - 1], steps[j - 1], id);
    }
  }

  lemma StepKeepsSubject(cfg: Config, w: World, step: Step, id: string)
    requires Tidy(w) && Enabled(cfg, w, step) && id in w.migs
    ensures id in Next(cfg, w, step).migs && SameSubject(w.migs[id], Next(cfg, w, step).migs[id])
    ensures Subject(step) != Some(id) ==> Next(cfg, w, step).migs[id] == w.migs[id]
  {
    if step.CreateCall? {
      assert step.newId != id;
    }
    hide Next, Enabled;
    if Subject(step).Some? {
      CallShape(cfg, w, step);
    } else if step.CreateCall? {
      CreateShape(cfg, w, step);
    } else {
      AdminShape(cfg, w, step);
    }
  }

  /** The shard's record is the same in both worlds: state, owner, replicas and version. */
  ghost predicate SameShard(w: World, w': World, s: string) {
    s in w.shards && s in w'.shards && w'.shards[s] == w.shards[s]
  }

  /** The version guard: a migration that is current has found its shard's record unchanged at every
      moment since its creation. */
  lemma CurrentSinceCreation(cfg: Config, ws: seq<World>, steps: seq<Step>, i: nat, j: nat, k: nat, id: string)
    requires IsRun(cfg, ws, steps) && i < j <= |steps| && i <= k <= j
    requires steps[i].CreateCall? && steps[i].newId == id && id in ws[i + 1].migs
    requires Current(ws[j], id)
    ensures var sid := ws[j].migs[id].shardId;
      SameShard(ws[i], ws[k], sid) && ws[j].migs[id].source == ws[i].shards[sid].nodeId
  {
    RunMovesForward(cfg, ws, steps, i, i);
    RunMovesForward(cfg, ws, steps, i, k);
    RunMovesForward(cfg, ws, steps, i + 1, j);
    RunMovesForward(cfg, ws, steps, k, j);
    RunKeepsSubject(cfg, ws, steps, i + 1, j, id);
    CreateShape(cfg, ws[i], steps[i]);
    hide Next, Enabled;
  }

  /** Compare-and-swap: whatever happened between its creation and the moment a migration is
      let through to take ownership, nothing touched its shard: no transition, no owner
      change, not even one that failed and was rolled back, and no other migration. */
  lemma CommitSeesTheShardOfItsCreation(cfg: Config, ws: seq<World>, steps: seq<Step>, i: nat, j: nat, k: nat, id: string)
    requires IsRun(cfg, ws, steps) && i < j < |steps| && i <= k <= j
    requires steps[i].CreateCall? && steps[i].newId == id && id in ws[i + 1].migs
    requires Subject(steps[j]) == Some(id) && ws[j + 1].shards != ws[j].shards
    ensures steps[j].CommitCall? || steps[j].CrashInCommit?
    ensures HandsOver(ws[j], ws[j + 1], id)
    ensures var sid := ws[j].migs[id].shardId;
      SameShard(ws[i], ws[k], sid) && ws[j].migs[id].source == ws[i].shards[sid].nodeId
  {
    RunMovesForward(cfg, ws, steps, i, j);
    CallShape(cfg, ws[j], steps[j]);
    assert HandsOver(ws[j], ws[j + 1], id);
    hide Next, Enabled;
    CurrentSinceCreation(cfg, ws, steps, i, j, k, id);
  }

  // ----- a record that reads COMPLETED -----

  lemma PrepareNeverCompletes(w: World, id: string, env: Env)
    requires id in w.migs && w.migs[id].id == id && w.migs[id].state != Completed
    ensures id in Prepare(w, id, env).world.migs && Prepare(w, id, env).world.migs[id].state != Completed
  {
  }

  lemma CopyNeverCompletes(cfg: Config, w: World, id: string, env: Env)
    requires Tidy(w) && id in w.migs && w.migs[id].state != Completed
    ensures id in StartCopy(cfg, w, id, env).world.migs && StartCopy(cfg, w, id, env).world.migs[id].state != Completed
  {
    hide Enter, EndCopy, LogicalOf, DigestOf, WithRoot;
    EnterShape(w, id, Preparing, env.put0);
    EnterStops(w, id, Preparing, env.put0);
    var m := w.migs[id];
    EndCopyShape(m.Moved(Copying), DigestOf(LogicalOf(RootAt(cfg, w, m.source, m.shardId))), env);
  }

  lemma VerifyNeverCompletes(cfg: Config, w: World, id: string, env: Env)
    requires Tidy(w) && id in w.migs && w.migs[id].state != Completed
    ensures id in Verify(cfg, w, id, env).world.migs && Verify(cfg, w, id, env).world.migs[id].state != Completed
  {
    hide Enter, LogicalOf, DigestOf, VerifyPasses;
    EnterShape(w, id, Copying, env.put0);
    EnterStops(w, id, Copying, env.put0);
  }

  lemma EndingsNeverComplete(cfg: Config, w: World, id: string, reason: string, env: Env)
    requires Tidy(w) && id in w.migs && w.migs[id].state != Completed
    ensures id in Cancel(cfg, w, id, env).world.migs && Cancel(cfg, w, id, env).world.migs[id].state != Completed
    ensures id in ForceFail(w, id, reason, env).world.migs && ForceFail(w, id, reason, env).world.migs[id].state != Completed
  {
  }

  lemma CommitCompletes(cfg: Config, w: World, id: string, env: Env)
    requires Tidy(w) && id in w.migs && w.migs[id].state != Completed
    ensures id in Commit(cfg, w, id, env).world.migs
    ensures Commit(cfg, w, id, env).world.migs[id].state == Completed ==> HandsOver(w, Commit(cfg, w, id, env).world, id)
  {
    CommitShape(cfg, w, id, env);
    hide Enter, WithRoot, ValidMember, OwnershipAccepted, Handed;
    EnterShape(w, id, Verifying, env.put0);
    EnterStops(w, id, Verifying, env.put0);
  }

  lemma CrashesNeverComplete(cfg: Config, w: World, step: Step, id: string)
    requires Tidy(w) && Enabled(cfg, w, step) && id in w.migs && w.migs[id].state != Completed
    requires step.CrashInCopy? || step.CrashInCommit? || step.CrashInCancel?
    requires step.id == id
    ensures id in Next(cfg, w, step).migs && Next(cfg, w, step).migs[id].state != Completed
  {
    hide Enter, ValidMember, OwnershipAccepted, Handed;
    match step
    case CrashInCopy(_, _) => EnterShape(w, id, Preparing, true);
    case CrashInCommit(_, _) => EnterShape(w, id, Verifying, true);
    case CrashInCancel(_, _) =>
  }

  /** A record comes to read COMPLETED only in the commit that hands its shard over. */
  lemma OnlyHandOversComplete(cfg: Config, w: World, step: Step, id: string)
    requires Tidy(w) && Enabled(cfg, w, step) && id in w.migs && w.migs[id].state != Completed
    ensures id in Next(cfg, w, step).migs
    ensures Next(cfg, w, step).migs[id].state == Completed ==> step.CommitCall? && step.id == id && HandsOver(w, Next(cfg, w, step), id)
  {
    StepKeepsSubject(cfg, w, step, id);
    if Subject(step) == Some(id) {
      OwnCallCompletes(cfg, w, step, id);
    }
    hide Next, Enabled;
  }

  lemma OwnCallCompletes(cfg: Config, w: World, step: Step, id: string)
    requires Tidy(w) && Enabled(cfg, w, step) && id in w.migs && w.migs[id].state != Completed && Subject(step) == Some(id)
    ensures id in Next(cfg, w, step).migs
    ensures Next(cfg, w, step).migs[id].state == Completed ==> step.CommitCall? && HandsOver(w, Next(cfg, w, step), id)
  {
    hide Prepare, StartCopy, Verify, Commit, Cancel, ForceFail, HandsOver;
    match step
    case PrepareCall(_, env) => PrepareNeverCompletes(w, id, env);
    case StartCopyCall(_, env) => CopyNeverCompletes(cfg, w, id, env);
    case VerifyCall(_, env) => VerifyNeverCompletes(cfg, w, id, env);
    case CommitCall(_, env) => CommitCompletes(cfg, w, id, env);
    case CancelCall(_, env) => EndingsNeverComplete(cfg, w, id, "", env);
    case FailCall(_, reason, env) => EndingsNeverComplete(cfg, w, id, reason, env);
    case _ => CrashesNeverComplete(cfg, w, step, id);
  }

  /** A record that was not COMPLETED and later is became so at some step. */
  lemma {:induction false} CompletedAt(cfg: Config, ws: seq<World>, steps: seq<Step>, i: nat, n: nat, id: string) returns (j: nat)
    requires IsRun(cfg, ws, steps) && i <= n <= |steps| && id in ws[i].migs && ws[i].migs[id].state != Completed
    requires id in ws[n].migs && ws[n].migs[id].state == Completed
    ensures i <= j < n && steps[j].CommitCall? && steps[j].id == id && HandsOver(ws[j], ws[j + 1], id)
    decreases n
  {
    hide Next, Enabled, HandsOver;
    RunMovesForward(cfg, ws, steps, i, n - 1);
    RunKeepsSubject(cfg, ws, steps, i, n - 1, id);
    if ws[n - 1].migs[id].state == Completed {
      j := CompletedAt(cfg, ws, steps, i, n - 1, id);
    } else {
      j := n - 1;
      OnlyHandOversComplete(cfg, ws[n - 1], steps[n - 1], id);
      assert ws[j + 1].migs[id].state == Completed;
    }
  }

  /** Compare-and-swap, from the record: a migration that reads COMPLETED took its shard over in one
      commit, and from its creation to that commit nothing touched the shard. */
  lemma CompletedMeansUntouched(cfg: Config, ws: seq<World>, steps: seq<Step>, i: nat, n: nat, id: string) returns (j: nat)
    requires IsRun(cfg, ws, steps) && i < n <= |steps|
    requires steps[i].CreateCall? && steps[i].newId == id && id in ws[i + 1].migs
    requires id in ws[n].migs && ws[n].migs[id].state == Completed
    ensures i < j < n && steps[j].CommitCall? && steps[j].id == id && HandsOver(ws[j], ws[j + 1], id)
    ensures var sid := ws[n].migs[id].shardId;
      && sid == ws[j].migs[id].shardId && sid in ws[i].shards && ws[j].migs[id].source == ws[i].shards[sid].nodeId
      && forall k :: i <= k <= j ==> SameShard(ws[i], ws[k], sid)
  {
    RunMovesForward(cfg, ws, steps, i, i);
    CreateShape(cfg, ws[i], steps[i]);
    assert ws[i + 1].migs[id].state == Pending;
    hide Next, Enabled, HandsOver;
    j := CompletedAt(cfg, ws, steps, i + 1, n, id);
    assert Current(ws[j], id) by { OverIsCurrent(ws[j], ws[j + 1], id); }
    RunMovesForward(cfg, ws, steps, i, j);
    RunKeepsSubject(cfg, ws, steps, j, n, id);
    CurrentSinceCreation(cfg, ws, steps, i, j, j, id);
    hide Current;
    forall k | i <= k <= j ensures SameShard(ws[i], ws[k], ws[j].migs[id].shardId) {
      CurrentSinceCreation(cfg, ws, steps, i, j, k, id);
    }
  }

  lemma OverIsCurrent(w: World, w': World, id: string)
    requires HandsOver(w, w', id)
    ensures Current(w, id)
  {
  }
}
