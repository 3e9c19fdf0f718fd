/** A migration whose shard takes no write behind the copy needs no recheck: the protocol's own guards are
    enough. A DRAINING shard takes none. */
module CarefulMigration {
  import opened Wrappers
  import opened Records
  import opened Recovery
  import opened Transfer
  import opened Protocol
  import opened StaleGuard
  import opened MigrationSafety
  import opened DataSafety

  predicate Copied(m: MigrationRec) {
    m.state == Copying || m.state == Verifying
  }

  predicate Early(m: MigrationRec) {
    m.state == Pending || m.state == Preparing
  }

  /** A call on the migration with care: the process does not die inside a cancel, and the commit
      of a verified copy has the source's digest on record. */
  ghost predicate WithCare(w: World, step: Step, id: string) {
    Subject(step) == Some(id) && id in w.migs ==>
      && !step.CrashInCancel?
      && (w.migs[id].state == Verifying && (step.CommitCall? || step.CrashInCommit?) ==> w.migs[id].sourceDigest.Some?)
  }

  /** No write is admitted behind the copy of a migration that would still be let through. */
  ghost predicate Unwritten(w: World, step: Step, id: string) {
    step.WriteCall? && id in w.migs && step.shardId == w.migs[id].shardId && Copied(w.migs[id]) ==> !Current(w, id)
  }

  /** How a record that stays in progress can have changed in a call on it. */
  ghost predicate Progress(cfg: Config, w: World, w': World, id: string)
    requires id in w.migs && id in w'.migs
  {
    var m, m' := w.migs[id], w'.migs[id];
    // nothing moved but the state, or the copy was cut short, or the copy succeeded
    || (&& w'.roots == w.roots && m'.sourceDigest == m.sourceDigest && (Copied(m') ==> Copied(m))
        && (Early(m') ==> Early(m)))
    || (m.state == Preparing && m'.state == Copying && m'.sourceDigest == m.sourceDigest)
    || (&& m.state == Preparing && m'.state == Copying && Current(w, id)
        && VerifyPasses(RootAt(cfg, w', m.target, m.shardId), Some(DigestOf(Content(cfg, w, m.source, m.shardId))))
        && RootAt(cfg, w', m.target, m.shardId).Valid())
  }

  lemma StartCopyProgress(cfg: Config, w: World, id: string, env: Env)
    requires Tidy(w) && id in w.migs && ValidEnv(env)
    requires Live(StartCopy(cfg, w, id, env).world, id)
    ensures Progress(cfg, w, StartCopy(cfg, w, id, env).world, id)
  {
    hide EndCopy, WithRoot, LogicalOf, DigestOf, VerifyPasses, Layout.Dir;
    EnterShape(w, id, Preparing, env.put0);
    var m := w.migs[id];
    var digest := DigestOf(LogicalOf(RootAt(cfg, w, m.source, m.shardId)));
    EndCopyShape(m.Moved(Copying), digest, env);
    var end := EndCopy(m.Moved(Copying), digest, env);
    WithRootTouches(cfg, w, m.target, m.shardId, end.left);
    WithRootShape(cfg, w, m.target, m.shardId, end.left);
    EndCopyLeaves(m.Moved(Copying), digest, env);
  }

  lemma EndCopyLeaves(copying: MigrationRec, digest: Digest, env: Env)
    requires ValidEnv(env) && copying.state == Copying
    ensures EndCopy(copying, digest, env).left.Some? ==> EndCopy(copying, digest, env).left.value.Valid()
  {
    hide VerifyPasses;
  }

  lemma VerifyProgress(cfg: Config, w: World, id: string, env: Env)
    requires Tidy(w) && id in w.migs && Live(Verify(cfg, w, id, env).world, id)
    ensures Progress(cfg, w, Verify(cfg, w, id, env).world, id)
  {
    hide VerifyPasses, DigestOf, LogicalOf, RootAt, SourceProblem;
  }

  lemma CommitProgress(cfg: Config, w: World, id: string, env: Env)
    requires Tidy(w) && id in w.migs && Live(Commit(cfg, w, id, env).world, id)
    ensures Commit(cfg, w, id, env).world.migs[id].state != Committing ==> Progress(cfg, w, Commit(cfg, w, id, env).world, id)
  {
    CommitShape(cfg, w, id, env);
    CommitDigest(cfg, w, id, env);
    hide Commit, SameSubject, VerifyPasses;
  }

  lemma CommitDigest(cfg: Config, w: World, id: string, env: Env)
    requires Tidy(w) && id in w.migs
    ensures var w' := Commit(cfg, w, id, env).world;
      id in w'.migs && (!w'.migs[id].Terminal() ==> w' == w)
  {
    hide Enter, WithRoot, ValidMember, OwnershipAccepted, Handed;
    EnterShape(w, id, Verifying, env.put0);
    EnterStops(w, id, Verifying, env.put0);
    var m := w.migs[id];
    if m.shardId in w.shards {
      WithRootShape(cfg, WithShard(w, Handed(w.shards[m.shardId], m.target)), m.source, m.shardId, Left(env.cleanup));
    }
  }

  /** Every call keeps the record's story straight. */
  lemma CallProgress(cfg: Config, w: World, step: Step, id: string)
    requires Tidy(w) && Enabled(cfg, w, step) && Subject(step) == Some(id) && id in w.migs && !step.CrashInCancel?
    requires Live(Next(cfg, w, step), id) && Next(cfg, w, step).migs[id].state != Committing
    ensures Progress(cfg, w, Next(cfg, w, step), id)
  {
    hide Progress, StartCopy, Verify, Commit;
    match step
    case PrepareCall(_, env) => PrepareProgress(cfg, w, id, env);
    case StartCopyCall(_, env) => StartCopyProgress(cfg, w, id, env);
    case VerifyCall(_, env) => VerifyProgress(cfg, w, id, env);
    case CommitCall(_, env) => CommitProgress(cfg, w, id, env);
    case CancelCall(_, env) => CancelProgress(cfg, w, id, env);
    case FailCall(_, _, _) => assert false;
    case CrashInCopy(_, left) => CrashInCopyProgress(cfg, w, id, left);
    case CrashInCommit(_, point) => CutEndsCommitting(cfg, w, id, point);
  }

  lemma PrepareProgress(cfg: Config, w: World, id: string, env: Env)
    requires Tidy(w) && id in w.migs && Live(Prepare(w, id, env).world, id)
    ensures Progress(cfg, w, Prepare(w, id, env).world, id)
  {
    hide SourceProblem, VerifyPasses, DigestOf, LogicalOf;
  }

  lemma CancelProgress(cfg: Config, w: World, id: string, env: Env)
    requires Tidy(w) && id in w.migs && Live(Cancel(cfg, w, id, env).world, id)
    ensures Progress(cfg, w, Cancel(cfg, w, id, env).world, id)
  {
    hide VerifyPasses, DigestOf, LogicalOf;
  }

  lemma CrashInCopyProgress(cfg: Config, w: World, id: string, left: Option<Root>)
    requires Tidy(w) && id in w.migs && Enabled(cfg, w, CrashInCopy(id, left))
    requires Live(Next(cfg, w, CrashInCopy(id, left)), id)
    ensures Progress(cfg, w, Next(cfg, w, CrashInCopy(id, left)), id)
  {
    hide VerifyPasses, DigestOf, LogicalOf, Enter, WithRoot;
    EnterShape(w, id, Preparing, true);
    WithRootShape(cfg, w, w.migs[id].target, w.migs[id].shardId, left);
  }

  lemma CutEndsCommitting(cfg: Config, w: World, id: string, point: CommitPoint)
    requires Tidy(w) && id in w.migs && Enabled(cfg, w, CrashInCommit(id, point))
    ensures CutCommit(cfg, w, id, point).migs[id].state == Committing
  {
  }

  lemma VerifiedIsContent(cfg: Config, w: World, root: Root, node: string, shard: string)
    requires RootsValid(w) && root.Valid() && VerifyPasses(root, Some(DigestOf(Content(cfg, w, node, shard))))
    ensures LogicalOf(root) == Content(cfg, w, node, shard)
  {
    LogicalIsSane(RootAt(cfg, w, node, shard));
    VerificationIsExactIff(root, Content(cfg, w, node, shard), Some(DigestOf(Content(cfg, w, node, shard))));
  }

  // ----- the way of one migration, from its creation to its commit -----

  /** The step that took the migration from PREPARING to COPYING. */
  ghost predicate CopiesAt(ws: seq<World>, steps: seq<Step>, c: nat, id: string)
    requires |ws| == |steps| + 1
  {
    && c < |steps| && Subject(steps[c]) == Some(id)
    && id in ws[c].migs && ws[c].migs[id].state == Preparing
    && id in ws[c + 1].migs && ws[c + 1].migs[id].state == Copying
  }

  /** In progress: before the copy there is no digest, and a recorded digest means that the target holds
      what was exported. */
  ghost predicate OnCourse(cfg: Config, w: World, id: string, exported: Logical) {
    && Live(w, id)
    && var m := w.migs[id];
      && m.state != Committing && m.source != m.target
      && (Early(m) ==> m.sourceDigest == None)
      && (Copied(m) && m.sourceDigest.Some? ==> Content(cfg, w, m.target, m.shardId) == exported)
  }

  /** A call that is not the copy leaves the course; the copy that landed starts it. */
  lemma ProgressKeepsCourse(cfg: Config, w: World, w': World, id: string, exported: Logical)
    requires OnCourse(cfg, w, id, exported) && RootsValid(w) && Live(w', id) && w'.migs[id].state != Committing
    requires SameSubject(w.migs[id], w'.migs[id]) && Progress(cfg, w, w', id)
    ensures var m, m' := w.migs[id], w'.migs[id];
      if Early(m) && !Early(m') then m.state == Preparing && m'.state == Copying && OnCourse(cfg, w', id, Content(cfg, w, m.source, m.shardId))
      else OnCourse(cfg, w', id, exported) && (Early(m') ==> Early(m))
  {
    hide LogicalOf, DigestOf, VerifyPasses, Root.Valid, StoredRoot;
    var m, m' := w.migs[id], w'.migs[id];
    if w'.roots == w.roots && m'.sourceDigest == m.sourceDigest && (Copied(m') ==> Copied(m)) && (Early(m') ==> Early(m)) {
      SameRootsSameContent(cfg, w, w', m.target, m.shardId);
    } else if m.state == Preparing && m'.state == Copying && m'.sourceDigest == m.sourceDigest {
    } else {
      VerifiedIsContent(cfg, w, RootAt(cfg, w', m.target, m.shardId), m.source, m.shardId);
    }
  }

  lemma HandoverMovesShard(w: World, w': World, id: string)
    requires id in w.migs && SameShard(w, w', w.migs[id].shardId)
    ensures !HandsOver(w, w', id)
  {
  }

  /** Before its hand-over a migration touches nothing of its shard but the target's root. */
  lemma OwnCallLeavesSource(cfg: Config, w: World, step: Step, id: string)
    requires cfg.layout.Separate() && Tidy(w) && Enabled(cfg, w, step) && id in w.migs && Subject(step) == Some(id)
    requires w.migs[id].source != w.migs[id].target && SameShard(w, Next(cfg, w, step), w.migs[id].shardId)
    ensures var m := w.migs[id]; Content(cfg, Next(cfg, w, step), m.source, m.shardId) == Content(cfg, w, m.source, m.shardId)
  {
    hide Next, Enabled, Content, TouchesOnly, Layout.Separate, HandsOver, OnlyMigration;
    var w', m := Next(cfg, w, step), w.migs[id];
    CallEffect(cfg, w, step, id);
    HandoverMovesShard(w, w', id);
    assert (m.source, m.shardId) != (m.target, m.shardId);
    UntouchedContent(cfg, w, w', m.target, m.shardId, m.source, m.shardId);
  }

  lemma RearrangedContent(cfg: Config, w: World, node: string, shardId: string, root: Root, n: string, s: string)
    requires LogicalOf(root) == Content(cfg, w, node, shardId)
    ensures Content(cfg, WithRoot(cfg, w, node, shardId, Some(root)), n, s) == Content(cfg, w, n, s)
  {
    hide LogicalOf, Layout.Dir;
  }

  /** Calls on other migrations leave the roots of a live migration's shard alone. */
  lemma OtherCallLeavesContent(cfg: Config, w: World, step: Step, other: string, id: string, node: string)
    requires cfg.layout.Separate() && Tidy(w) && Enabled(cfg, w, step) && Subject(step) == Some(other) && other != id
    requires OneLivePerShard(w) && Live(w, id)
    ensures Content(cfg, Next(cfg, w, step), node, w.migs[id].shardId) == Content(cfg, w, node, w.migs[id].shardId)
  {
    hide Next, Enabled, Content, TouchesOnly, Layout.Separate, OnlyMigration;
    var w', s := Next(cfg, w, step), w.migs[id].shardId;
    if other !in w.migs {
      UnknownSubject(cfg, w, step, other);
    } else {
      CallEffect(cfg, w, step, other);
      var o := w.migs[other];
      if w'.roots == w.roots {
        SameRootsSameContent(cfg, w, w', node, s);
      } else {
        assert Live(w, other) && o.shardId != s;
        if TouchesOnly(cfg, w, w', o.target, o.shardId) {
          UntouchedContent(cfg, w, w', o.target, o.shardId, node, s);
        } else {
          UntouchedContent(cfg, w, w', o.source, o.shardId, node, s);
        }
      }
    }
  }

  /** A write goes to the owner. */
  lemma WriteIsAtOwner(cfg: Config, w: World, step: Step)
    requires Enabled(cfg, w, step) && step.WriteCall?
    ensures step.shardId in w.shards && w.shards[step.shardId].state == Active && w.shards[step.shardId].nodeId == step.node
  {
    hide LogicalOf, MemberError;
  }

  /** Nothing but a write there, and the calls of its migration, changes what a node stores for the shard of
      a migration in progress. */
  lemma OthersLeaveContent(cfg: Config, w: World, step: Step, id: string, node: string)
    requires cfg.layout.Separate() && Tidy(w) && Enabled(cfg, w, step) && Subject(step) != Some(id)
    requires OneLivePerShard(w) && Live(w, id)
    requires !(step.WriteCall? && step.shardId == w.migs[id].shardId && step.node == node)
    ensures Content(cfg, Next(cfg, w, step), node, w.migs[id].shardId) == Content(cfg, w, node, w.migs[id].shardId)
  {
    hide Content, OneLivePerShard, WithRoot, LogicalOf, RootAt, MemberError, AddShard, MoveShard, ChangeOwner, Register, MoveNode;
    var w', s := Next(cfg, w, step), w.migs[id].shardId;
    if Subject(step).Some? {
      OtherCallLeavesContent(cfg, w, step, Subject(step).value, id, node);
    } else if step.WriteCall? {
      WithRootTouches(cfg, w, step.node, step.shardId, Some(step.root));
      UntouchedContent(cfg, w, w', step.node, step.shardId, node, s);
    } else if step.Rearrange? {
      assert LogicalOf(step.root) == Content(cfg, w, step.node, step.shardId) by { SameByDefinition(cfg, w, step.node, step.shardId); }
      RearrangedContent(cfg, w, step.node, step.shardId, step.root, node, s);
    } else {
      ControlLeavesRoots(cfg, w, step);
      SameRootsSameContent(cfg, w, w', node, s);
    }
  }

  lemma SameByDefinition(cfg: Config, w: World, node: string, shard: string)
    ensures Content(cfg, w, node, shard) == LogicalOf(RootAt(cfg, w, node, shard))
  {
  }

  /** Steps of the control plane that belong to no migration touch no root. */
  lemma ControlLeavesRoots(cfg: Config, w: World, step: Step)
    requires Tidy(w) && Enabled(cfg, w, step) && Subject(step) == None && !step.WriteCall? && !step.Rearrange?
    ensures Next(cfg, w, step).roots == w.roots
  {
    hide AddShard, MoveShard, ChangeOwner, Register, MoveNode, Create;
    match step
    case CreateCall(_, _, _, _, _) => CreateShape(cfg, w, step);
    case AddShardCall(shard, ok) => AddShardShape(w, shard, ok);
    case MoveShardCall(shardId, to, ok) => MoveShardShape(w, shardId, to, ok);
    case ChangeOwnerCall(shardId, owner, replicas, ok) => ChangeOwnerShape(w, shardId, owner, replicas, ok);
    case RegisterCall(node, clusterId, ok) => RegisterShape(cfg, w, node, clusterId, ok);
    case MoveNodeCall(node, to, ok) => MoveNodeShape(cfg, w, node, to, ok);
  }

  /** One step of a careful migration on its way. The copy exports what the source holds then. */
  lemma StepKeepsCourse(cfg: Config, w: World, step: Step, id: string, exported: Logical) returns (exported': Logical)
    requires cfg.layout.Separate() && Tidy(w) && Enabled(cfg, w, step) && OneLivePerShard(w) && RootsValid(w)
    requires OnCourse(cfg, w, id, exported) && WithCare(w, step, id)
    requires SameShard(w, Next(cfg, w, step), w.migs[id].shardId) && w.shards[w.migs[id].shardId].nodeId == w.migs[id].source
    requires Live(Next(cfg, w, step), id) && Next(cfg, w, step).migs[id].state != Committing
    ensures OnCourse(cfg, Next(cfg, w, step), id, exported')
    ensures var m, m' := w.migs[id], Next(cfg, w, step).migs[id];
      if Early(m) && !Early(m') then
        Subject(step) == Some(id) && m.state == Preparing && m'.state == Copying && exported' == Content(cfg, w, m.source, m.shardId)
      else exported' == exported && (Early(m') ==> Early(m))
  {
    hide Next, Enabled, Content, Layout.Separate, OneLivePerShard, RootsValid, Progress;
    StepKeepsSubject(cfg, w, step, id);
    var m, m' := w.migs[id], Next(cfg, w, step).migs[id];
    if Subject(step) == Some(id) {
      CallProgress(cfg, w, step, id);
      ProgressKeepsCourse(cfg, w, Next(cfg, w, step), id, exported);
      exported' := if Early(m) && !Early(m') then Content(cfg, w, m.source, m.shardId) else exported;
    } else {
      if step.WriteCall? {
        WriteIsAtOwner(cfg, w, step);
      }
      OthersLeaveContent(cfg, w, step, id, m.target);
      exported' := exported;
    }
  }

  lemma StepKeepsRootsValid(cfg: Config, w: World, step: Step)
    requires Tidy(w) && Enabled(cfg, w, step) && RootsValid(w)
    ensures RootsValid(Next(cfg, w, step))
  {
    hide TouchesOnly, WithRoot, AddShard, MoveShard, ChangeOwner, Register, MoveNode, Create, LogicalOf, RootAt, MemberError;
    var w' := Next(cfg, w, step);
    if step.WriteCall? || step.Rearrange? {
      WithRootTouches(cfg, w, step.node, step.shardId, Some(step.root));
      TouchKeepsRootsValid(cfg, w, w', step.node, step.shardId);
    } else if Subject(step) == None {
      ControlLeavesRoots(cfg, w, step);
    } else {
      hide Next, Enabled;
      CallKeepsRootsValid(cfg, w, step, Subject(step).value);
    }
  }

  lemma CallKeepsRootsValid(cfg: Config, w: World, step: Step, id: string)
    requires Tidy(w) && Enabled(cfg, w, step) && RootsValid(w) && Subject(step) == Some(id)
    ensures RootsValid(Next(cfg, w, step))
  {
    hide Next, Enabled, TouchesOnly, RootsValid, HandsOver, OnlyMigration;
    if id !in w.migs {
      UnknownSubject(cfg, w, step, id);
    } else {
      var w', m := Next(cfg, w, step), w.migs[id];
      CallEffect(cfg, w, step, id);
      TouchKeepsRootsValid(cfg, w, w', m.source, m.shardId);
      TouchKeepsRootsValid(cfg, w, w', m.target, m.shardId);
    }
  }

  lemma {:induction false} RunKeepsOneLive(cfg: Config, ws: seq<World>, steps: seq<Step>, n: nat)
    requires IsRun(cfg, ws, steps) && OneLivePerShard(ws[0]) && RootsValid(ws[0]) && n <= |steps|
    ensures Tidy(ws[n]) && OneLivePerShard(ws[n]) && RootsValid(ws[n])
  {
    hide Next, Enabled, OneLivePerShard, Tidy, RootsValid;
    if n > 0 {
      RunKeepsOneLive(cfg, ws, steps, n - 1);
      StepMovesForward(cfg, ws[n - 1], steps[n - 1]);
      StepKeepsOneLive(cfg, ws[n - 1], steps[n - 1]);
      StepKeepsRootsValid(cfg, ws[n - 1], steps[n - 1]);
    }
  }

  /** A migration in progress, and not in COMMITTING, was so at every moment since its record is there. */
  lemma {:induction false} LiveBefore(cfg: Config, ws: seq<World>, steps: seq<Step>, k: nat, j: nat, id: string)
    requires IsRun(cfg, ws, steps) && k <= j <= |steps| && id in ws[k].migs
    requires Live(ws[j], id) && ws[j].migs[id].state != Committing
    ensures Live(ws[k], id) && ws[k].migs[id].state != Committing
    decreases j - k
  {
    hide Next, Enabled;
    if k < j {
      RunMovesForward(cfg, ws, steps, 0, k);
      DeadEnds(cfg, ws[k], steps[k], id);
      LiveBefore(cfg, ws, steps, k + 1, j, id);
    }
  }

  /** The migration created at step `i`. */
  ghost predicate Creates(ws: seq<World>, steps: seq<Step>, i: nat, id: string)
    requires i < |steps| && |ws| == |steps| + 1
  {
    steps[i].CreateCall? && steps[i].newId == id && id in ws[i + 1].migs
  }

  lemma CreationIsOnCourse(cfg: Config, w: World, step: Step, exported: Logical)
    requires Tidy(w) && Enabled(cfg, w, step) && step.CreateCall? && step.newId in Next(cfg, w, step).migs
    ensures var m := Next(cfg, w, step).migs[step.newId];
      step.shardId in w.shards && m.shardId == step.shardId && m.source == w.shards[step.shardId].nodeId && Early(m)
    ensures OnCourse(cfg, Next(cfg, w, step), step.newId, exported) && Next(cfg, w, step).roots == w.roots
  {
    CreateShape(cfg, w, step);
    assert step.newId !in w.migs;
    hide Next, Enabled, Content;
  }

  /** The copy was at step `c`, the migration has been behind it since, and the target holds what was
      exported. */
  ghost predicate CopiedSince(cfg: Config, ws: seq<World>, steps: seq<Step>, i: nat, c: nat, k: nat, id: string)
    requires |ws| == |steps| + 1 && k < |ws| && id in ws[k].migs
  {
    && i < c < k && CopiesAt(ws, steps, c, id)
    && (forall q :: c < q <= k ==> id in ws[q].migs && !Early(ws[q].migs[id]))
    && OnCourse(cfg, ws[k], id, Content(cfg, ws[c], ws[k].migs[id].source, ws[k].migs[id].shardId))
  }

  /** Up to the moment a migration is let through to take ownership it stays on course. */
  lemma {:induction false} StaysOnCourse(cfg: Config, ws: seq<World>, steps: seq<Step>, i: nat, k: nat, j: nat, id: string)
    returns (c: nat)
    requires cfg.layout.Separate() && IsRun(cfg, ws, steps) && OneLivePerShard(ws[0]) && RootsValid(ws[0])
    requires i < k <= j <= |steps| && Creates(ws, steps, i, id)
    requires Current(ws[j], id) && ws[j].migs[id].state == Verifying
    requires forall q :: i < q < k ==> WithCare(ws[q], steps[q], id)
    ensures var s := steps[i].shardId;
      && SameShard(ws[i], ws[k], s) && id in ws[k].migs && ws[k].migs[id].shardId == s
      && ws[k].migs[id].source == ws[i].shards[s].nodeId && ws[k].migs[id].source != ws[k].migs[id].target
    ensures if Early(ws[k].migs[id]) then forall exported :: OnCourse(cfg, ws[k], id, exported)
            else CopiedSince(cfg, ws, steps, i, c, k, id)
    decreases k
  {
    hide Next, Enabled, OnCourse, Content, OneLivePerShard, RootsValid, Current, WithCare, Layout.Separate;
    var s := steps[i].shardId;
    RunMovesForward(cfg, ws, steps, 0, i);
    CreationIsOnCourse(cfg, ws[i], steps[i], Logical(map[], {}));
    RunKeepsSubject(cfg, ws, steps, i + 1, k, id);
    RunKeepsSubject(cfg, ws, steps, k, j, id);
    CurrentSinceCreation(cfg, ws, steps, i, j, k, id);
    CourseKnows(cfg, ws[i + 1], id, Logical(map[], {}));
    c := 0;
    if k > i + 1 {
      c := StaysOnCourse(cfg, ws, steps, i, k - 1, j, id);
      RunKeepsOneLive(cfg, ws, steps, k - 1);
      CurrentIsKnown(ws[j], id);
      LiveBefore(cfg, ws, steps, k, j, id);
      assert WithCare(ws[k - 1], steps[k - 1], id);
      var m := ws[k - 1].migs[id];
      var exported := if Early(m) then Logical(map[], {}) else Content(cfg, ws[c], m.source, m.shardId);
      var exported' := StepKeepsCourse(cfg, ws[k - 1], steps[k - 1], id, exported);
      if Early(m) && !Early(ws[k].migs[id]) {
        c := k - 1;
      }
      CourseKnows(cfg, ws[k], id, exported');
    }
  }

  /** Before the copy any course is as good. */
  lemma CourseKnows(cfg: Config, w: World, id: string, exported: Logical)
    requires OnCourse(cfg, w, id, exported)
    ensures id in w.migs && w.migs[id].source != w.migs[id].target
    ensures Early(w.migs[id]) ==> forall other :: OnCourse(cfg, w, id, other)
  {
    hide Content;
  }

  lemma CurrentIsKnown(w: World, id: string)
    requires Current(w, id)
    ensures id in w.migs
  {
  }

  /** Whenever a careful migration is let through to take ownership, its target holds what the source held
      at the copy, whatever was written since. */
  lemma VerifiedHoldsExport(cfg: Config, ws: seq<World>, steps: seq<Step>, i: nat, j: nat, id: string) returns (c: nat)
    requires cfg.layout.Separate() && IsRun(cfg, ws, steps) && OneLivePerShard(ws[0]) && RootsValid(ws[0])
    requires i < j < |steps| && Creates(ws, steps, i, id)
    requires Current(ws[j], id) && ws[j].migs[id].state == Verifying
    requires Subject(steps[j]) == Some(id) && (steps[j].CommitCall? || steps[j].CrashInCommit?)
    requires forall q :: i < q <= j ==> WithCare(ws[q], steps[q], id)
    ensures i < c < j && CopiesAt(ws, steps, c, id) && forall q :: c < q <= j ==> id in ws[q].migs && !Early(ws[q].migs[id])
    ensures var s, m := steps[i].shardId, ws[j].migs[id];
      && SameShard(ws[i], ws[j], s) && m.shardId == s && m.source == ws[i].shards[s].nodeId && m.source != m.target
      && Content(cfg, ws[j], m.target, s) == Content(cfg, ws[c], m.source, s)
  {
    hide Next, Enabled, Content, OneLivePerShard, RootsValid, Current, Layout.Separate;
    c := StaysOnCourse(cfg, ws, steps, i, j, j, id);
    assert WithCare(ws[j], steps[j], id);
  }

  /** Exactly when a careful commit keeps the data, for any writes at any time: it would pass a recheck if and
      only if the source holds what it held at the copy. */
  lemma CarefulCommitKeepsDataIff(cfg: Config, ws: seq<World>, steps: seq<Step>, i: nat, j: nat, id: string) returns (c: nat)
    requires cfg.layout.Separate() && IsRun(cfg, ws, steps) && OneLivePerShard(ws[0]) && RootsValid(ws[0])
    requires i < j < |steps| && Creates(ws, steps, i, id)
    requires Current(ws[j], id) && ws[j].migs[id].state == Verifying
    requires Subject(steps[j]) == Some(id) && (steps[j].CommitCall? || steps[j].CrashInCommit?)
    requires forall q :: i < q <= j ==> WithCare(ws[q], steps[q], id)
    ensures i < c < j && CopiesAt(ws, steps, c, id)
    ensures var s, m := steps[i].shardId, ws[j].migs[id];
      Rechecked(cfg, ws[j], steps[j], s) <==> Content(cfg, ws[j], m.source, s) == Content(cfg, ws[c], m.source, s)
  {
    hide Next, Enabled, Content, OneLivePerShard, RootsValid, Current, Layout.Separate, WithCare, DigestOf, SameShard;
    c := VerifiedHoldsExport(cfg, ws, steps, i, j, id);
    RunKeepsOneLive(cfg, ws, steps, j);
    if Rechecked(cfg, ws[j], steps[j], steps[i].shardId) {
      SameContentAfterRecheck(cfg, ws[j], ws[j].migs[id]);
    }
  }

  /** A source that takes no write keeps its content until the commit. */
  lemma {:induction false} SourceRests(cfg: Config, ws: seq<World>, steps: seq<Step>, i: nat, c: nat, k: nat, j: nat, id: string)
    requires cfg.layout.Separate() && IsRun(cfg, ws, steps) && OneLivePerShard(ws[0]) && RootsValid(ws[0])
    requires i < c <= k <= j <= |steps| && Creates(ws, steps, i, id)
    requires Current(ws[j], id) && ws[j].migs[id].state == Verifying
    requires forall q :: c <= q < k ==> !(steps[q].WriteCall? && steps[q].shardId == steps[i].shardId)
    ensures steps[i].shardId in ws[i].shards
    ensures var s := steps[i].shardId; Content(cfg, ws[k], ws[i].shards[s].nodeId, s) == Content(cfg, ws[c], ws[i].shards[s].nodeId, s)
    decreases k
  {
    hide Next, Enabled, OnCourse, Content, OneLivePerShard, RootsValid, Layout.Separate;
    var s := steps[i].shardId;
    AlongTheWay(cfg, ws, steps, i, c, j, id);
    if c < k {
      SourceRests(cfg, ws, steps, i, c, k - 1, j, id);
      AlongTheWay(cfg, ws, steps, i, k - 1, j, id);
      AlongTheWay(cfg, ws, steps, i, k, j, id);
      RunKeepsOneLive(cfg, ws, steps, k - 1);
      hide Current, SameShard;
      if Subject(steps[k - 1]) == Some(id) {
        SameShardBetween(ws[i], ws[k - 1], ws[k], s);
        OwnCallLeavesSource(cfg, ws[k - 1], steps[k - 1], id);
      } else {
        OthersLeaveContent(cfg, ws[k - 1], steps[k - 1], id, ws[i].shards[s].nodeId);
      }
    }
  }

  lemma SameShardBetween(w: World, w1: World, w2: World, s: string)
    requires SameShard(w, w1, s) && SameShard(w, w2, s)
    ensures SameShard(w1, w2, s)
  {
  }

  /** What is known of a migration between its creation and the moment it is let through. */
  lemma AlongTheWay(cfg: Config, ws: seq<World>, steps: seq<Step>, i: nat, k: nat, j: nat, id: string)
    requires IsRun(cfg, ws, steps) && i < k <= j <= |steps| && Creates(ws, steps, i, id)
    requires Current(ws[j], id) && ws[j].migs[id].state == Verifying
    ensures var s := steps[i].shardId;
      && SameShard(ws[i], ws[k], s) && Live(ws[k], id) && Current(ws[k], id) && ws[k].migs[id].shardId == s
      && ws[k].migs[id].source == ws[i].shards[s].nodeId && ws[k].migs[id].source != ws[k].migs[id].target
  {
    hide Next, Enabled, OnCourse, Content;
    RunMovesForward(cfg, ws, steps, 0, i);
    CreationIsOnCourse(cfg, ws[i], steps[i], Logical(map[], {}));
    CourseKnows(cfg, ws[i + 1], id, Logical(map[], {}));
    RunKeepsSubject(cfg, ws, steps, i + 1, k, id);
    RunKeepsSubject(cfg, ws, steps, k, j, id);
    CurrentSinceCreation(cfg, ws, steps, i, j, j, id);
    CurrentSinceCreation(cfg, ws, steps, i, j, k, id);
    LiveBefore(cfg, ws, steps, k, j, id);
  }

  /** Whenever a careful migration with no write behind its copy is let through, its target holds what the
      source holds. */
  lemma VerifiedHoldsContent(cfg: Config, ws: seq<World>, steps: seq<Step>, i: nat, j: nat, id: string)
    requires cfg.layout.Separate() && IsRun(cfg, ws, steps) && OneLivePerShard(ws[0]) && RootsValid(ws[0])
    requires i < j < |steps| && Creates(ws, steps, i, id)
    requires Current(ws[j], id) && ws[j].migs[id].state == Verifying
    requires Subject(steps[j]) == Some(id) && (steps[j].CommitCall? || steps[j].CrashInCommit?)
    requires forall q :: i < q <= j ==> WithCare(ws[q], steps[q], id) && Unwritten(ws[q], steps[q], id)
    ensures var s, m := steps[i].shardId, ws[j].migs[id];
      && SameShard(ws[i], ws[j], s) && m.shardId == s && m.source == ws[i].shards[s].nodeId && m.source != m.target
      && Content(cfg, ws[j], m.target, s) == Content(cfg, ws[j], m.source, s)
  {
    hide Next, Enabled, Content, OneLivePerShard, RootsValid, Layout.Separate, WithCare;
    var c := VerifiedHoldsExport(cfg, ws, steps, i, j, id);
    forall q | c <= q < j ensures !(steps[q].WriteCall? && steps[q].shardId == steps[i].shardId) {
      AlongTheWay(cfg, ws, steps, i, q, j, id);
      LiveBefore(cfg, ws, steps, q, j, id);
      assert Unwritten(ws[q], steps[q], id);
    }
    hide Current, SameShard;
    SourceRests(cfg, ws, steps, i, c, j, j, id);
  }

  // ----- what a COMPLETED migration means -----

  /** No acknowledged write is lost behind a quiet copy: if a careful migration ever reads COMPLETED and no
      write was admitted while it was behind its copy, then one commit took the shard over, and the new
      owner then held exactly what the old one held right before. Writes before the copy, other shards,
      their migrations, crashes and owner changes are free, and the shard may be ACTIVE throughout. */
  lemma QuietCopyLosesNothing(cfg: Config, ws: seq<World>, steps: seq<Step>, i: nat, n: nat, id: string) returns (j: nat)
    requires cfg.layout.Separate() && IsRun(cfg, ws, steps) && OneLivePerShard(ws[0]) && RootsValid(ws[0])
    requires i < n <= |steps| && Creates(ws, steps, i, id)
    requires forall q :: i < q < n ==> WithCare(ws[q], steps[q], id) && Unwritten(ws[q], steps[q], id)
    requires id in ws[n].migs && ws[n].migs[id].state == Completed
    ensures i < j < n && steps[j].CommitCall? && steps[j].id == id && Current(ws[j], id) && ws[j].migs[id].state == Verifying
    ensures var s, target := steps[i].shardId, ws[n].migs[id].target;
      && SameShard(ws[i], ws[j], s) && s in ws[j + 1].shards && ws[j + 1].shards[s].nodeId == target
      && Content(cfg, ws[j + 1], target, s) == Content(cfg, ws[j], ws[j].shards[s].nodeId, s)
  {
    hide Next, Enabled, Content, OneLivePerShard, RootsValid, WithCare, Unwritten, Layout.Separate, HandsOver, Current;
    j := CompletedMeansUntouched(cfg, ws, steps, i, n, id);
    OverIsCurrent(ws[j], ws[j + 1], id);
    VerifiedAtHandover(ws[j], ws[j + 1], id);
    VerifiedHoldsContent(cfg, ws, steps, i, j, id);
    RunKeepsSubject(cfg, ws, steps, j, n, id);
    RunMovesForward(cfg, ws, steps, 0, j);
    HandoverKeepsTarget(cfg, ws[j], steps[j], id);
  }

  lemma VerifiedAtHandover(w: World, w': World, id: string)
    requires HandsOver(w, w', id)
    ensures id in w.migs && w.migs[id].state == Verifying
  {
  }

  lemma HandoverKeepsTarget(cfg: Config, w: World, step: Step, id: string)
    requires cfg.layout.Separate() && Tidy(w) && Enabled(cfg, w, step) && Subject(step) == Some(id)
    requires HandsOver(w, Next(cfg, w, step), id) && w.migs[id].source != w.migs[id].target
    ensures var w', m := Next(cfg, w, step), w.migs[id];
      && m.shardId in w'.shards && w'.shards[m.shardId].nodeId == m.target
      && Content(cfg, w', m.target, m.shardId) == Content(cfg, w, m.target, m.shardId)
  {
    var w', m := Next(cfg, w, step), w.migs[id];
    CallEffect(cfg, w, step, id);
    NotOnlyMigration(w, w', id);
    hide Next, Enabled, Content, Layout.Separate, TouchesOnly, OnlyMigration;
    UntouchedContent(cfg, w, w', m.source, m.shardId, m.target, m.shardId);
  }

  // ----- calls that return or raise -----

  lemma {:induction false} HonestSinceCreation(cfg: Config, ws: seq<World>, steps: seq<Step>, i: nat, k: nat, id: string)
    requires IsRun(cfg, ws, steps) && i < k <= |steps| && Creates(ws, steps, i, id)
    requires forall q :: i < q < k && Subject(steps[q]) == Some(id) ==> !IsCrash(steps[q])
    ensures id in ws[k].migs && Honest(ws[k].migs[id])
    decreases k
  {
    hide Next, Enabled;
    RunMovesForward(cfg, ws, steps, 0, k - 1);
    if k == i + 1 {
      CreationIsHonest(cfg, ws[i], steps[i]);
    } else {
      HonestSinceCreation(cfg, ws, steps, i, k - 1, id);
      StepKeepsSubject(cfg, ws[k - 1], steps[k - 1], id);
      if Subject(steps[k - 1]) == Some(id) {
        CallHonest(cfg, ws[k - 1], steps[k - 1], id);
      }
    }
  }

  lemma CreationIsHonest(cfg: Config, w: World, step: Step)
    requires Tidy(w) && Enabled(cfg, w, step) && step.CreateCall? && step.newId in Next(cfg, w, step).migs
    ensures Honest(Next(cfg, w, step).migs[step.newId])
  {
    CreateShape(cfg, w, step);
    assert step.newId !in w.migs;
    hide Next, Enabled;
  }

  /** With no process dying inside a call on the migration, every call is a careful one. */
  lemma WholeCallsAreCareful(cfg: Config, ws: seq<World>, steps: seq<Step>, i: nat, n: nat, id: string)
    requires IsRun(cfg, ws, steps) && i < n <= |steps| && Creates(ws, steps, i, id)
    requires forall q :: i < q < n && Subject(steps[q]) == Some(id) ==> !IsCrash(steps[q])
    ensures forall q :: i < q < n ==> WithCare(ws[q], steps[q], id)
  {
    hide Next, Enabled;
    forall q | i < q < n ensures WithCare(ws[q], steps[q], id) {
      HonestSinceCreation(cfg, ws, steps, i, q, id);
    }
  }

  // ----- whole runs -----

  /** A record that is there now and was not at the start was created in between. */
  lemma {:induction false} BornAt(cfg: Config, ws: seq<World>, steps: seq<Step>, n: nat, id: string) returns (i: nat)
    requires IsRun(cfg, ws, steps) && n <= |steps| && id !in ws[0].migs && id in ws[n].migs
    ensures i < n && Creates(ws, steps, i, id)
    decreases n
  {
    hide Next, Enabled;
    RunMovesForward(cfg, ws, steps, 0, n - 1);
    if id in ws[n - 1].migs {
      i := BornAt(cfg, ws, steps, n - 1, id);
    } else {
      i := n - 1;
      if steps[i].CreateCall? {
        CreateShape(cfg, ws[i], steps[i]);
      } else {
        MigrationsAreOld(cfg, ws[i], steps[i], id);
      }
    }
  }

  /** Calls on the shard's migrations are careful, and no write falls behind the copy of one that would be
      let through. */
  ghost predicate Careful(w: World, step: Step, s: string) {
    forall id :: id in w.migs && w.migs[id].shardId == s ==> WithCare(w, step, id) && Unwritten(w, step, id)
  }

  /** The whole history is careful with the shard, which had no migration in progress at the start. */
  ghost predicate CarefulRun(ws: seq<World>, steps: seq<Step>, s: string)
    requires |ws| == |steps| + 1
  {
    && (forall id :: Live(ws[0], id) ==> ws[0].migs[id].shardId != s)
    && (forall q :: 0 <= q < |steps| ==> Careful(ws[q], steps[q], s))
  }

  /** In a careful history every commit on the shard would pass the recheck. */
  lemma CarefulIsRechecked(cfg: Config, ws: seq<World>, steps: seq<Step>, n: nat, s: string)
    requires cfg.layout.Separate() && IsRun(cfg, ws, steps) && OneLivePerShard(ws[0]) && RootsValid(ws[0])
    requires n < |steps| && CarefulRun(ws, steps, s)
    ensures Rechecked(cfg, ws[n], steps[n], s)
  {
    hide Next, Enabled, Content, OneLivePerShard, RootsValid, Layout.Separate, DigestOf, Current, WithCare, Unwritten;
    var w, step := ws[n], steps[n];
    if (step.CommitCall? || step.CrashInCommit?) && step.id in w.migs && w.migs[step.id].shardId == s
       && w.migs[step.id].state == Verifying && Current(w, step.id) {
      var id := step.id;
      if id in ws[0].migs {
        LiveBefore(cfg, ws, steps, 0, n, id);
        RunKeepsSubject(cfg, ws, steps, 0, n, id);
        assert false;
      } else {
        var i := BornAt(cfg, ws, steps, n, id);
        BornOnCourse(cfg, ws, steps, i, n, s, id);
        VerifiedHoldsContent(cfg, ws, steps, i, n, id);
      }
    }
  }

  lemma BornOnCourse(cfg: Config, ws: seq<World>, steps: seq<Step>, i: nat, n: nat, s: string, id: string)
    requires IsRun(cfg, ws, steps) && i < n < |steps| && CarefulRun(ws, steps, s) && Creates(ws, steps, i, id)
    requires id in ws[n].migs && ws[n].migs[id].shardId == s
    ensures forall q :: i < q <= n ==> WithCare(ws[q], steps[q], id) && Unwritten(ws[q], steps[q], id)
  {
    hide Next, Enabled, WithCare, Unwritten;
    forall q | i < q <= n ensures WithCare(ws[q], steps[q], id) && Unwritten(ws[q], steps[q], id) {
      RunKeepsSubject(cfg, ws, steps, i + 1, q, id);
      RunKeepsSubject(cfg, ws, steps, q, n, id);
      assert Careful(ws[q], steps[q], s);
    }
  }

  /** Data follows ownership over every history that is careful with the shard, without a recheck. */
  lemma CarefulRunsKeepData(cfg: Config, ws: seq<World>, ls: seq<Logical>, steps: seq<Step>, s: string, n: nat)
    requires cfg.layout.Separate() && IsDataRun(cfg, ws, ls, steps, s) && n <= |steps| && CarefulRun(ws, steps, s)
    ensures Faithful(cfg, ws[n], s, ls[n])
    ensures n < |steps| ==> Rechecked(cfg, ws[n], steps[n], s)
  {
    hide Next, Enabled, NextTruth, Rechecked, Anchored, Faithful, Tidy, RootsValid, Reowns, OneLivePerShard, CarefulRun, Layout.Separate;
    forall q | 0 <= q < |steps| ensures Rechecked(cfg, ws[q], steps[q], s) {
      CarefulIsRechecked(cfg, ws, steps, q, s);
    }
    DataFollowsOwnership(cfg, ws, ls, steps, s, n);
  }
}
