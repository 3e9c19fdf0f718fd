/** What the control plane promises in terms of its records alone: who may own a shard, which moves there are,
    and exactly when each call goes through. */
module ControlLaws {
  import opened Wrappers
  import opened Protocol
  import opened Transfer
  import opened StaleGuard

  // ----- who may own a shard -----

  /** A new owner is a member that was not removed, and none of the replicas. One that a migration brings in is the
      target of that migration and of this cluster, the replicas it keeps are members too, and nothing else of the
      shard but its version changes. */
  ghost predicate Welcome(cfg: Config, w: World, step: Step, s: ShardRec) {
    && s.nodeId != "" && s.nodeId in w.nodes && w.nodes[s.nodeId].state != Removed && s.nodeId !in s.replicas
    && (Subject(step).Some? ==>
          var id := Subject(step).value;
          && w.nodes[s.nodeId].clusterId == cfg.clusterId
          && (forall r :: r in s.replicas ==> r in w.nodes && w.nodes[r].state != Removed)
          && id in w.migs && w.migs[id].shardId == s.id && w.migs[id].target == s.nodeId && w.migs[id].state == Verifying
          && s.id in w.shards && w.shards[s.id].nodeId == w.migs[id].source
          && (w.shards[s.id].state == Active || w.shards[s.id].state == Draining)
          && s.state == w.shards[s.id].state && s.namespace == w.shards[s.id].namespace
          && s.version == w.shards[s.id].version + 1
          && (forall r :: r in s.replicas <==> r in w.shards[s.id].replicas && r != s.nodeId))
  }

  lemma CommitWelcomes(cfg: Config, w: World, id: string, env: Env, sid: string)
    requires Tidy(w) && sid in Commit(cfg, w, id, env).world.shards
    requires sid in w.shards ==> w.shards[sid].nodeId != Commit(cfg, w, id, env).world.shards[sid].nodeId
    ensures Welcome(cfg, w, CommitCall(id, env), Commit(cfg, w, id, env).world.shards[sid])
  {
    CommitShape(cfg, w, id, env);
    hide WithRoot, Without;
    if id in w.migs && w.migs[id].shardId in w.shards {
      WithRootShape(cfg, WithShard(w, Handed(w.shards[w.migs[id].shardId], w.migs[id].target)), w.migs[id].source, w.migs[id].shardId,
                    Left(env.cleanup));
    }
  }

  lemma CutWelcomes(cfg: Config, w: World, id: string, point: CommitPoint, sid: string)
    requires Tidy(w) && Enabled(cfg, w, CrashInCommit(id, point)) && sid in CutCommit(cfg, w, id, point).shards
    requires sid in w.shards ==> w.shards[sid].nodeId != CutCommit(cfg, w, id, point).shards[sid].nodeId
    ensures Welcome(cfg, w, CrashInCommit(id, point), CutCommit(cfg, w, id, point).shards[sid])
  {
    hide Without;
  }

  lemma OtherCallsWelcome(cfg: Config, w: World, step: Step, sid: string)
    requires Tidy(w) && Enabled(cfg, w, step) && !step.CommitCall? && !step.CrashInCommit? && sid in Next(cfg, w, step).shards
    requires sid in w.shards ==> w.shards[sid].nodeId != Next(cfg, w, step).shards[sid].nodeId
    ensures Welcome(cfg, w, step, Next(cfg, w, step).shards[sid])
  {
    if Subject(step).Some? {
      CallShape(cfg, w, step);
    } else if step.CreateCall? {
      CreateShape(cfg, w, step);
    }
    hide Prepare, StartCopy, Verify, Commit, Cancel, ForceFail, Create, CutCommit, Enter;
  }

  /** At every step of every history, crashes included: whoever comes to own a shard is welcome. */
  lemma NewOwnersAreMembers(cfg: Config, ws: seq<World>, steps: seq<Step>, k: nat, sid: string)
    requires IsRun(cfg, ws, steps) && k < |steps| && sid in ws[k + 1].shards
    requires sid in ws[k].shards ==> ws[k].shards[sid].nodeId != ws[k + 1].shards[sid].nodeId
    ensures Welcome(cfg, ws[k], steps[k], ws[k + 1].shards[sid])
  {
    RunMovesForward(cfg, ws, steps, 0, k);
    hide Commit, CutCommit, Welcome, Enter;
    match steps[k]
    case CommitCall(id, env) => CommitWelcomes(cfg, ws[k], id, env, sid);
    case CrashInCommit(id, point) => CutWelcomes(cfg, ws[k], id, point, sid);
    case _ => OtherCallsWelcome(cfg, ws[k], steps[k], sid);
  }

  /** An owner, and not among the replicas. */
  ghost predicate OwnedApart(w: World) {
    forall i :: i in w.shards ==> w.shards[i].nodeId != "" && w.shards[i].nodeId !in w.shards[i].replicas
  }

  /** Only an owner change rewrites the replicas of a shard that keeps its owner: no call does. */
  lemma OwnerKeepsReplicas(cfg: Config, w: World, step: Step, sid: string)
    requires Tidy(w) && Enabled(cfg, w, step) && sid in w.shards && sid in Next(cfg, w, step).shards
    requires w.shards[sid].nodeId == Next(cfg, w, step).shards[sid].nodeId && OwnedApart(w)
    ensures w.shards[sid].nodeId !in Next(cfg, w, step).shards[sid].replicas
  {
    if Subject(step).Some? {
      CallShape(cfg, w, step);
    } else if step.CreateCall? {
      CreateShape(cfg, w, step);
    }
    hide Prepare, StartCopy, Verify, Commit, Cancel, ForceFail, Create, CutCommit, Enter, Without;
  }

  /** Over every history each shard has an owner, apart from its replicas. */
  lemma {:induction false} OwnersStandApart(cfg: Config, ws: seq<World>, steps: seq<Step>, n: nat)
    requires IsRun(cfg, ws, steps) && n <= |steps| && OwnedApart(ws[0])
    ensures OwnedApart(ws[n])
  {
    hide Next, Enabled;
    if n > 0 {
      OwnersStandApart(cfg, ws, steps, n - 1);
      RunMovesForward(cfg, ws, steps, 0, n - 1);
      forall i | i in ws[n].shards ensures ws[n].shards[i].nodeId != "" && ws[n].shards[i].nodeId !in ws[n].shards[i].replicas {
        if i in ws[n - 1].shards && ws[n - 1].shards[i].nodeId == ws[n].shards[i].nodeId {
          OwnerKeepsReplicas(cfg, ws[n - 1], steps[n - 1], i);
        } else {
          NewOwnersAreMembers(cfg, ws, steps, n - 1, i);
        }
      }
    }
  }

  // ----- creations and commits -----

  /** A creation adds a record exactly when the shard is there, in that namespace, ACTIVE or DRAINING, its owner and
      the target are two members of this cluster that were not removed, and no other migration of it is in progress. */
  lemma CreatedIff(cfg: Config, w: World, namespace: string, shardId: string, target: string, newId: string, env: Env)
    requires Tidy(w) && newId !in w.migs
    ensures var a := Create(cfg, w, namespace, shardId, target, newId, env);
      && (newId in a.world.migs <==>
            && env.put0 && shardId in w.shards && w.shards[shardId].namespace == namespace
            && (w.shards[shardId].state == Active || w.shards[shardId].state == Draining)
            && (var source := w.shards[shardId].nodeId;
                && source != "" && source != target
                && source in w.nodes && w.nodes[source].state != Removed && w.nodes[source].clusterId == cfg.clusterId
                && target in w.nodes && w.nodes[target].state != Removed && w.nodes[target].clusterId == cfg.clusterId)
            && (forall i :: i in w.migs && w.migs[i].shardId == shardId ==>
                  (w.migs[i].state == Completed || w.migs[i].state == Failed || w.migs[i].state == Cancelled)))
      && (newId in a.world.migs <==> a.outcome == Done)
      && (newId !in a.world.migs ==> a.world == w)
      && (newId in a.world.migs ==>
            var m := a.world.migs[newId];
            && m.id == newId && m.namespace == namespace && m.shardId == shardId && m.target == target && m.state == Pending
            && m.source == w.shards[shardId].nodeId && m.sourceVersion == w.shards[shardId].version
            && m.clusterId == cfg.clusterId && m.error == None && m.version == 1
            && m.sourceDigest == None && m.targetDigest == None && !m.finalized)
  {
  }

  /** Every record of a history was created between two members. */
  lemma CreationsAreBetweenMembers(cfg: Config, ws: seq<World>, steps: seq<Step>, k: nat, id: string)
    requires IsRun(cfg, ws, steps) && k < |steps| && id !in ws[k].migs && id in ws[k + 1].migs
    ensures steps[k].CreateCall? && steps[k].newId == id
    ensures var m, nodes := ws[k + 1].migs[id], ws[k].nodes;
      && m.source != m.target && m.clusterId == cfg.clusterId
      && m.source in nodes && nodes[m.source].state != Removed && nodes[m.source].clusterId == cfg.clusterId
      && m.target in nodes && nodes[m.target].state != Removed && nodes[m.target].clusterId == cfg.clusterId
  {
    RunMovesForward(cfg, ws, steps, 0, k);
    var w, step := ws[k], steps[k];
    hide Prepare, StartCopy, Verify, Commit, Cancel, ForceFail, CutCommit, Enter;
    if Subject(step).Some? {
      CallShape(cfg, w, step);
    } else if step.CreateCall? {
      CreatedIff(cfg, w, step.namespace, step.shardId, step.target, step.newId, step.env);
    } else {
      AdminShape(cfg, w, step);
    }
  }

  /** The guard of every step of a migration: in the expected state, and its shard as it was captured. */
  ghost predicate Guarded(w: World, id: string, expected: MigState) {
    && id in w.migs && w.migs[id].state == expected && w.migs[id].shardId in w.shards
    && var s := w.shards[w.migs[id].shardId];
      && (s.state == Active || s.state == Draining) && s.nodeId == w.migs[id].source && s.version == w.migs[id].sourceVersion
  }

  /** What a step does whose guard fails: it answers why, and a record that is stale reads FAILED from then on. */
  ghost predicate Stopped(w: World, id: string, expected: MigState, put: bool, a: Answer) {
    if id !in w.migs then a == Answer(w, Raised(NotFound))
    else if w.migs[id].state != expected then a == Answer(w, Raised(WrongState))
    else
      && a.outcome == Raised(if put then SourceInvalid else StoreFailed)
      && a.world.shards == w.shards && a.world.nodes == w.nodes && a.world.roots == w.roots
      && id in a.world.migs && a.world.migs == w.migs[id := a.world.migs[id]]
      && (exists why :: a.world.migs[id] == w.migs[id].(state := Failed, version := w.migs[id].version + 1, error := Some(why)))
  }

  lemma EnterIff(w: World, id: string, expected: MigState, put: bool)
    requires Tidy(w)
    requires expected == Pending || expected == Preparing || expected == Copying || expected == Verifying
    ensures match Enter(w, id, expected, put)
      case Entered(m, s) => Guarded(w, id, expected) && m == w.migs[id] && s == w.shards[m.shardId]
      case Refused(a) => !Guarded(w, id, expected) && Stopped(w, id, expected, put, a)
  {
    if id in w.migs && SourceProblem(w, w.migs[id]).Some? {
      var m, why := w.migs[id], SourceProblem(w, w.migs[id]).value;
      assert m.Fail(why).error == Some(why);
    }
  }

  /** A commit whose target is unknown, removed or of another cluster changes nothing. */
  lemma CommitRefusesStrangers(cfg: Config, w: World, id: string, env: Env)
    requires Tidy(w) && Guarded(w, id, Verifying)
    requires var t := w.migs[id].target;
      t !in w.nodes || w.nodes[t].state == Removed || w.nodes[t].clusterId != cfg.clusterId
    ensures Commit(cfg, w, id, env) == Answer(w, Raised(TargetInvalid))
  {
    EnterIff(w, id, Verifying, env.put0);
    hide Enter;
  }

  /** The ownership a commit would put is acceptable: all the replicas it keeps are members. */
  ghost predicate KeepsMembers(w: World, id: string)
    requires id in w.migs && w.migs[id].shardId in w.shards
  {
    && w.migs[id].target != ""
    && forall r :: r in w.shards[w.migs[id].shardId].replicas && r != w.migs[id].target ==> r in w.nodes && w.nodes[r].state != Removed
  }

  /** Exactly when a commit hands the shard over, and what it then leaves. */
  lemma CommittedIff(cfg: Config, w: World, id: string, env: Env)
    requires Tidy(w)
    ensures var a := Commit(cfg, w, id, env);
      && (a.world.shards != w.shards <==>
            && Guarded(w, id, Verifying) && env.put0 && env.put1 && KeepsMembers(w, id)
            && (var t := w.migs[id].target; t in w.nodes && w.nodes[t].state != Removed && w.nodes[t].clusterId == cfg.clusterId))
      && (a.world.shards != w.shards ==>
            var m, m' := w.migs[id], a.world.migs[id];
            && id in a.world.migs && a.world.migs == w.migs[id := m'] && a.world.nodes == w.nodes
            && m'.state == Completed && m'.version == m.version + 2 && (m'.finalized <==> env.cleanup.Cleaned?)
            && (env.cleanup.Cleaned? ==> m'.error == m.error) && (!env.cleanup.Cleaned? ==> m'.error.Some?)
            && m'.sourceDigest == m.sourceDigest && m'.targetDigest == m.targetDigest
            && a.outcome == (if env.put3 then Done else Raised(StoreFailed))
            && a.world.roots == (match if env.cleanup.Cleaned? then None else env.cleanup.left {
                 case None => w.roots - {(cfg.layout.Dir(m.source), m.shardId)}
                 case Some(root) => w.roots[(cfg.layout.Dir(m.source), m.shardId) := root] }))
  {
    EnterIff(w, id, Verifying, env.put0);
    hide Enter, Without;
    if Guarded(w, id, Verifying) {
      var s := w.shards[w.migs[id].shardId];
      assert w.shards[s.id := Handed(s, w.migs[id].target)][s.id].version != w.shards[s.id].version;
    }
  }

  /** A record moved on by this many moves. */
  ghost predicate OneMigration(w: World, w': World, id: string) {
    id in w.migs && id in w'.migs && w'.migs == w.migs[id := w'.migs[id]] && w'.shards == w.shards && w'.nodes == w.nodes
  }

  /** A commit that is let through and is then refused by the ownership checks or the put of the shard reads FAILED. */
  lemma CommitFallsBack(cfg: Config, w: World, id: string, env: Env)
    requires Tidy(w) && Guarded(w, id, Verifying)
    requires var t := w.migs[id].target; t in w.nodes && w.nodes[t].state != Removed && w.nodes[t].clusterId == cfg.clusterId
    ensures var a := Commit(cfg, w, id, env);
      && (!env.put0 ==> a == Answer(w, Raised(StoreFailed)))
      && (env.put0 && !(KeepsMembers(w, id) && env.put1) ==>
            && OneMigration(w, a.world, id) && a.world.roots == w.roots && a.outcome == Raised(if env.put2 then CommitFailed else StoreFailed)
            && a.world.migs[id].state == Failed && a.world.migs[id].version == w.migs[id].version + 2 && a.world.migs[id].error.Some?
            && a.world.migs[id].sourceDigest == w.migs[id].sourceDigest && a.world.migs[id].finalized == w.migs[id].finalized)
  {
    EnterIff(w, id, Verifying, env.put0);
    hide Enter, Without;
  }

  /** What a process leaves that dies inside a commit, behind each of its durable writes. */
  lemma CutCommitLeaves(cfg: Config, w: World, id: string, point: CommitPoint)
    requires Tidy(w) && Guarded(w, id, Verifying) && Enter(w, id, Verifying, true).Entered?
    ensures var w', m := CutCommit(cfg, w, id, point), w.migs[id];
      && w'.nodes == w.nodes && id in w'.migs && w'.migs == w.migs[id := w'.migs[id]]
      && w'.migs[id] == m.(state := Committing, version := m.version + 1)
      && m.shardId in w'.shards && w'.shards == w.shards[m.shardId := w'.shards[m.shardId]]
      && (point == CommittingStored ==> w'.shards == w.shards)
      && (point != CommittingStored ==> w'.shards[m.shardId].nodeId == m.target && w'.shards[m.shardId].version == m.sourceVersion + 1)
      && (point == CommittingStored || point == OwnerStored ==> w'.roots == w.roots)
      && (point == SourceGone ==> w'.roots == w.roots - {(cfg.layout.Dir(m.source), m.shardId)})
      && (point.SourcePartlyGone? ==>
            w'.roots == match point.left {
              case None => w.roots - {(cfg.layout.Dir(m.source), m.shardId)}
              case Some(root) => w.roots[(cfg.layout.Dir(m.source), m.shardId) := root] })
  {
    hide Enter, Without;
  }

  // ----- the other calls on a migration -----

  lemma PreparedIff(w: World, id: string, env: Env)
    requires Tidy(w)
    ensures var a := Prepare(w, id, env);
      if !Guarded(w, id, Pending) then Stopped(w, id, Pending, env.put0, a)
      else if !env.put0 then a == Answer(w, Raised(StoreFailed))
      else
        && OneMigration(w, a.world, id) && a.world.roots == w.roots && a.outcome == Done
        && a.world.migs[id] == w.migs[id].(state := Preparing, version := w.migs[id].version + 1)
  {
    EnterIff(w, id, Pending, env.put0);
    hide Enter;
  }

  /** A copy, once begun, goes through exactly when export, import, read-back and the put do and the import verifies;
      it then records the source's digest on both sides. Any other reads FAILED. */
  lemma CopyEndsIff(copying: MigrationRec, digest: Digest, env: Env)
    requires copying.state == Copying
    ensures var end := EndCopy(copying, digest, env);
      && (end.outcome == Done <==> env.copy.Landed? && !env.readFails && VerifyPasses(env.copy.root, Some(digest)) && env.put1)
      && (end.outcome == Done ==> end.m == copying.(sourceDigest := Some(digest), targetDigest := Some(digest)))
      && (end.outcome != Done ==> end.m.state == Failed && end.m.version == copying.version + 1 && end.m.error.Some?)
      && (env.copy.ExportRaises? ==> !end.touched)
      && (env.copy.Landed? ==> end.touched && end.left == Some(env.copy.root))
      && (env.copy.ImportRaises? ==> end.touched && end.left == env.copy.left)
  {
    hide VerifyPasses;
  }

  lemma CopiedIff(cfg: Config, w: World, id: string, env: Env)
    requires Tidy(w)
    ensures var a := StartCopy(cfg, w, id, env);
      if !Guarded(w, id, Preparing) then Stopped(w, id, Preparing, env.put0, a)
      else if !env.put0 then a == Answer(w, Raised(StoreFailed))
      else
        var m := w.migs[id];
        var copying := m.(state := Copying, version := m.version + 1);
        var end := EndCopy(copying, DigestOf(LogicalOf(RootAt(cfg, w, m.source, m.shardId))), env);
        && OneMigration(w, a.world, id) && a.world.migs[id] == end.m && a.outcome == end.outcome
        && a.world.roots == (
             if !end.touched then w.roots
             else match end.left {
               case None => w.roots - {(cfg.layout.Dir(m.target), m.shardId)}
               case Some(root) => w.roots[(cfg.layout.Dir(m.target), m.shardId) := root] })
  {
    EnterIff(w, id, Preparing, env.put0);
    hide Enter, DigestOf, LogicalOf, EndCopy, Guarded, Stopped;
    if Guarded(w, id, Preparing) {
      EndCopyShape(w.migs[id].Moved(Copying), DigestOf(LogicalOf(RootAt(cfg, w, w.migs[id].source, w.migs[id].shardId))), env);
      GuardedKnows(w, id, Preparing);
    }
  }

  lemma GuardedKnows(w: World, id: string, expected: MigState)
    requires Guarded(w, id, expected)
    ensures id in w.migs && w.migs[id].state == expected && w.migs[id].shardId in w.shards
  {
  }

  /** A verification goes through exactly when the target is read, has the recorded digest, if there is one, and the
      put returns. */
  lemma VerifiedIff(cfg: Config, w: World, id: string, env: Env)
    requires Tidy(w)
    ensures var a := Verify(cfg, w, id, env);
      if !Guarded(w, id, Copying) then Stopped(w, id, Copying, env.put0, a)
      else if !env.put0 then a == Answer(w, Raised(StoreFailed))
      else
        var m := w.migs[id];
        var root := RootAt(cfg, w, m.target, m.shardId);
        && OneMigration(w, a.world, id) && a.world.roots == w.roots
        && (if env.readFails then
              a.outcome == Raised(TransferFailed) && a.world.migs[id] == m.(state := Verifying, version := m.version + 1)
            else if VerifyPasses(root, m.sourceDigest) then
              a.outcome == (if env.put1 then Done else Raised(StoreFailed))
              && a.world.migs[id] == m.(state := Verifying, version := m.version + 1, targetDigest := Some(DigestOf(LogicalOf(root))))
            else
              a.outcome == Raised(if env.put1 then VerificationFailed else StoreFailed)
              && a.world.migs[id].state == Failed && a.world.migs[id].version == m.version + 2 && a.world.migs[id].error.Some?)
  {
    EnterIff(w, id, Copying, env.put0);
    hide Enter, DigestOf, LogicalOf, VerifyPasses;
  }

  /** A migration can be cancelled up to VERIFYING, whatever became of its shard; from COPYING on that discards what
      the target has of a shard that is still there. */
  lemma CancelledIff(cfg: Config, w: World, id: string, env: Env)
    requires Tidy(w)
    ensures var a := Cancel(cfg, w, id, env);
      if id !in w.migs then a == Answer(w, Raised(NotFound))
      else if w.migs[id].state == Committing || w.migs[id].state == Completed || w.migs[id].state == Failed || w.migs[id].state == Cancelled then
        a == Answer(w, Raised(WrongState))
      else
        var m := w.migs[id];
        && OneMigration(w, a.world, id) && a.outcome == (if env.put0 then Done else Raised(StoreFailed))
        && a.world.migs[id] == m.(state := Cancelled, version := m.version + 1)
        && a.world.roots == (
             if m.state == Pending || m.state == Preparing || m.shardId !in w.shards then w.roots
             else match if env.cleanup.Cleaned? then None else env.cleanup.left {
               case None => w.roots - {(cfg.layout.Dir(m.target), m.shardId)}
               case Some(root) => w.roots[(cfg.layout.Dir(m.target), m.shardId) := root] })
  {
  }

  /** A migration that has not ended can be failed, one that was cut inside its commit included; storage stays. */
  lemma FailedIff(w: World, id: string, reason: string, env: Env)
    requires Tidy(w)
    ensures var a := ForceFail(w, id, reason, env);
      if id !in w.migs then a == Answer(w, Raised(NotFound))
      else if w.migs[id].state == Completed || w.migs[id].state == Failed || w.migs[id].state == Cancelled then
        a == Answer(w, Raised(WrongState))
      else
        var m := w.migs[id];
        && OneMigration(w, a.world, id) && a.world.roots == w.roots && a.outcome == (if env.put0 then Done else Raised(StoreFailed))
        && a.world.migs[id] == m.(state := Failed, version := m.version + 1, error := Some(reason))
  {
  }

  /** A failure is recorded on any record, and ends exactly those that had not ended. */
  lemma FailsIff(m: MigrationRec, reason: string)
    ensures var ended := m.state == Completed || m.state == Failed || m.state == Cancelled;
      m.Fail(reason) == if ended then m.(error := Some(reason))
                        else m.(state := Failed, version := m.version + 1, error := Some(reason))
  {
  }

  // ----- the moves of shards and members -----

  /** The declared moves of a shard, of a member, and of a migration. */
  ghost const SHARD_MOVES: set<(ShardState, ShardState)> :=
    {(Creating, Active), (Creating, Offline), (Active, Draining), (Active, Offline), (Draining, Active), (Draining, Offline),
     (Splitting, Retired), (Splitting, Active)}

  ghost const NODE_MOVES: set<(NodeState, NodeState)> :=
    {(Joining, Available), (Joining, Removed), (Available, Leaving), (Available, Removed), (Leaving, Available), (Leaving, Removed)}

  ghost const MIGRATION_MOVES: set<(MigState, MigState)> :=
    {(Pending, Preparing), (Preparing, Copying), (Copying, Verifying), (Verifying, Committing), (Committing, Completed),
     (Pending, Cancelled), (Preparing, Cancelled), (Copying, Cancelled), (Verifying, Cancelled),
     (Pending, Failed), (Preparing, Failed), (Copying, Failed), (Verifying, Failed), (Committing, Failed)}

  lemma DeclaredMoves()
    ensures forall a, b :: ShardCanMove(a, b) <==> (a, b) in SHARD_MOVES
    ensures forall a, b :: NodeCanMove(a, b) <==> (a, b) in NODE_MOVES
    ensures forall a, b :: MigCanMove(a, b) <==> (a, b) in MIGRATION_MOVES
  {
  }

  /** What a step may do to a shard that is there: it stays, with its id and namespace, and its state moves as
      declared, in a lifecycle call alone. */
  lemma ShardStepIsDeclared(cfg: Config, w: World, step: Step, sid: string)
    requires Tidy(w) && Enabled(cfg, w, step) && sid in w.shards
    ensures sid in Next(cfg, w, step).shards
    ensures var s, s' := w.shards[sid], Next(cfg, w, step).shards[sid];
      && s'.namespace == s.namespace
      && (s'.state != s.state ==> step.MoveShardCall? && step.shardId == sid && (s.state, s'.state) in SHARD_MOVES)
  {
    if Subject(step).Some? {
      CallShape(cfg, w, step);
    } else if step.CreateCall? {
      CreateShape(cfg, w, step);
    }
    hide Prepare, StartCopy, Verify, Commit, Cancel, ForceFail, Create, CutCommit, Enter, Without;
  }

  lemma NodeStepIsDeclared(cfg: Config, w: World, step: Step, node: string)
    requires Tidy(w) && Enabled(cfg, w, step) && node in w.nodes
    ensures node in Next(cfg, w, step).nodes
    ensures var n, n' := w.nodes[node], Next(cfg, w, step).nodes[node];
      && n'.clusterId == n.clusterId
      && (n' == n || (step.MoveNodeCall? && step.node == node && (n.state, n'.state) in NODE_MOVES && n'.version == n.version + 1
                      && n'.nodeId == n.nodeId))
  {
    if Subject(step).Some? {
      CallShape(cfg, w, step);
    } else if step.CreateCall? {
      CreateShape(cfg, w, step);
    } else if step.WriteCall? || step.Rearrange? {
      WithRootShape(cfg, w, step.node, step.shardId, Some(step.root));
    }
    hide Prepare, StartCopy, Verify, Commit, Cancel, ForceFail, Create, CutCommit, Enter, Without;
  }

  /** Over every history an OFFLINE or RETIRED shard stays so, and no shard comes back to CREATING, SPLITTING or
      into another namespace; a REMOVED member stays removed, and no member joins twice or changes its cluster. */
  lemma {:induction false} EndStatesStay(cfg: Config, ws: seq<World>, steps: seq<Step>, i: nat, j: nat, id: string)
    requires IsRun(cfg, ws, steps) && i <= j <= |steps|
    ensures id in ws[i].shards ==>
      && id in ws[j].shards && ws[j].shards[id].namespace == ws[i].shards[id].namespace
      && (ws[i].shards[id].state == Offline || ws[i].shards[id].state == Retired ==> ws[j].shards[id].state == ws[i].shards[id].state)
      && (ws[i].shards[id].state != Creating ==> ws[j].shards[id].state != Creating)
      && (ws[i].shards[id].state != Splitting ==> ws[j].shards[id].state != Splitting)
    ensures id in ws[i].nodes ==>
      && id in ws[j].nodes && ws[j].nodes[id].clusterId == ws[i].nodes[id].clusterId
      && (ws[i].nodes[id].state == Removed ==> ws[j].nodes[id] == ws[i].nodes[id])
      && (ws[i].nodes[id].state != Joining ==> ws[j].nodes[id].state != Joining)
  {
    hide Next, Enabled;
    if i < j {
      EndStatesStay(cfg, ws, steps, i, j - 1, id);
      RunMovesForward(cfg, ws, steps, 0, j - 1);
      if id in ws[i].shards {
        ShardStepIsDeclared(cfg, ws[j - 1], steps[j - 1], id);
      }
      if id in ws[i].nodes {
        NodeStepIsDeclared(cfg, ws[j - 1], steps[j - 1], id);
      }
    }
  }

  // ----- lifecycle and membership calls -----

  /** A shard is added in CREATING, under an owner that is a member and none of its replicas, or not at all. */
  lemma AddedIff(w: World, s: ShardRec, put: bool)
    ensures var a := AddShard(w, s, put);
      if s.nodeId == "" then a == Answer(w, Raised(NoOwner))
      else if s.nodeId in s.replicas then a == Answer(w, Raised(OwnershipConflict))
      else if s.nodeId !in w.nodes then a == Answer(w, Raised(UnknownNode))
      else if w.nodes[s.nodeId].state == Removed then a == Answer(w, Raised(RemovedNode))
      else if !put then a == Answer(w, Raised(StoreFailed))
      else a == Answer(w.(shards := w.shards[s.id := s.(state := Creating)]), Done)
  {
  }

  lemma MovedShardIff(w: World, id: string, to: ShardState, put: bool)
    requires Tidy(w)
    ensures var a := MoveShard(w, id, to, put);
      if id !in w.shards then a == Answer(w, Raised(NotFound))
      else if (w.shards[id].state, to) !in SHARD_MOVES then a == Answer(w, Raised(BadTransition))
      else if !put then a == Answer(w, Raised(StoreFailed))
      else a == Answer(w.(shards := w.shards[id := w.shards[id].(state := to, version := w.shards[id].version + 1)]), Done)
  {
  }

  /** An owner changes by hand only while the shard is DRAINING, to a member that is none of the replicas. */
  lemma ReownedIff(w: World, id: string, owner: string, replicas: Option<seq<string>>, put: bool)
    requires Tidy(w)
    ensures var a := ChangeOwner(w, id, owner, replicas, put);
      if id !in w.shards then a == Answer(w, Raised(NotFound))
      else
        var s := w.shards[id];
        var rs := if replicas.Some? then replicas.value else s.replicas;
        if s.state != Draining then a == Answer(w, Raised(BadTransition))
        else if owner == "" then a == Answer(w, Raised(NoOwner))
        else if owner !in w.nodes then a == Answer(w, Raised(UnknownNode))
        else if w.nodes[owner].state == Removed then a == Answer(w, Raised(RemovedNode))
        else if owner in rs then a == Answer(w, Raised(OwnershipConflict))
        else if !put then a == Answer(w.(shards := w.shards[id := s.(version := s.version + 1)]), Raised(StoreFailed))
        else a == Answer(w.(shards := w.shards[id := s.(nodeId := owner, replicas := rs, version := s.version + 1)]), Done)
  {
  }

  /** A member registers once, JOINING, in this cluster; and moves as declared, within it. */
  lemma MembersIff(cfg: Config, w: World, node: string, cluster: Option<string>, to: NodeState, put: bool)
    ensures var a := Register(cfg, w, node, cluster, put);
      if node in w.nodes then a == Answer(w, Raised(DuplicateNode))
      else if !(cluster == None || cluster == Some("") || cluster == Some(cfg.clusterId)) then a == Answer(w, Raised(ClusterMismatch))
      else if !put then a == Answer(w, Raised(StoreFailed))
      else a == Answer(w.(nodes := w.nodes[node := NodeRec(node, cfg.clusterId, Joining, 1)]), Done)
    ensures var a := MoveNode(cfg, w, node, to, put);
      if node !in w.nodes then a == Answer(w, Raised(UnknownNode))
      else if w.nodes[node].clusterId != cfg.clusterId then a == Answer(w, Raised(ClusterMismatch))
      else if (w.nodes[node].state, to) !in NODE_MOVES then a == Answer(w, Raised(BadTransition))
      else if !put then a == Answer(w, Raised(StoreFailed))
      else a == Answer(w.(nodes := w.nodes[node := w.nodes[node].(state := to, version := w.nodes[node].version + 1)]), Done)
  {
  }

  // ----- writes -----

  /** A write reaches storage only at the owner of an ACTIVE shard; that of an upsert is a member that was not
      removed, at every step of every history. */
  lemma WritesAreAtTheOwner(cfg: Config, ws: seq<World>, steps: seq<Step>, k: nat)
    requires IsRun(cfg, ws, steps) && k < |steps| && steps[k].WriteCall?
    ensures var s, node := steps[k].shardId, steps[k].node;
      && s in ws[k].shards && ws[k].shards[s].state == Active && ws[k].shards[s].nodeId == node != ""
      && (steps[k].op.Upsert? ==> node in ws[k].nodes && ws[k].nodes[node].state != Removed)
  {
  }

  /** And any such node may write. */
  lemma AdmittedIff(w: World, node: string, s: string)
    ensures WriteAdmitted(w, node, s) <==>
      && s in w.shards && w.shards[s].state == Active && w.shards[s].nodeId == node && node != ""
      && node in w.nodes && w.nodes[node].state != Removed
    ensures DeleteAdmitted(w, node, s) <==> s in w.shards && w.shards[s].state == Active && w.shards[s].nodeId == node && node != ""
  {
  }
}
