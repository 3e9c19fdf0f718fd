/** Shard data follows ownership: through every interleaving, and through a crash behind any
    single durable write. */
module DataSafety {
  import opened Wrappers
  import opened Records
  import opened Segments
  import opened Recovery
  import opened Transfer
  import opened Protocol
  import opened StaleGuard
  import opened MigrationSafety

  ghost function Content(cfg: Config, w: World, node: string, shard: string): Logical {
    LogicalOf(RootAt(cfg, w, node, shard))
  }

  ghost predicate RootsValid(w: World) {
    forall k :: k in w.roots ==> w.roots[k].Valid()
  }

  /** The node named by the shard's record holds this content. */
  ghost predicate Faithful(cfg: Config, w: World, s: string, l: Logical) {
    s in w.shards ==> Content(cfg, w, w.shards[s].nodeId, s) == l
  }

  /** The shard's migrations in progress still have its owner as their source, unless a commit was
      cut short. */
  ghost predicate Anchored(w: World, s: string) {
    forall id :: Live(w, id) && w.migs[id].shardId == s ==>
      var m := w.migs[id];
      s in w.shards && m.source != m.target && (m.state != Committing ==> w.shards[s].nodeId == m.source)
  }

  /** What the shard should contain: its content when it was added, and each write since. */
  ghost function NextTruth(cfg: Config, w: World, s: string, l: Logical, step: Step): Logical
    requires Enabled(cfg, w, step)
  {
    match step
    case WriteCall(_, shardId, op, _) => if shardId == s then Apply(l, op) else l
    case AddShardCall(shard, _) => if shard.id == s && s in Next(cfg, w, step).shards then Content(cfg, w, shard.nodeId, s) else l
    case _ => l
  }

  /** `change_owner` gave the shard another owner; it moves no data. */
  ghost predicate Reowns(cfg: Config, w: World, step: Step, s: string)
    requires Enabled(cfg, w, step)
  {
    && step.ChangeOwnerCall? && step.shardId == s && s in w.shards
    && s in Next(cfg, w, step).shards && Next(cfg, w, step).shards[s].nodeId != w.shards[s].nodeId
  }

  /** Outside one root nothing changed, and roots stay well-formed. */
  ghost predicate TouchesOnly(cfg: Config, w: World, w': World, node: string, shard: string) {
    && (forall dir, s :: (dir, s) != (cfg.layout.Dir(node), shard) ==> StoredRoot(w'.roots, dir, s) == StoredRoot(w.roots, dir, s))
    && (RootsValid(w) ==> RootsValid(w'))
  }

  lemma WithRootTouches(cfg: Config, w: World, node: string, shard: string, root: Option<Root>)
    requires ValidLeft(root)
    ensures TouchesOnly(cfg, w, WithRoot(cfg, w, node, shard, root), node, shard)
    ensures RootAt(cfg, WithRoot(cfg, w, node, shard, root), node, shard) == if root.Some? then root.value else EmptyRoot
  {
  }

  /** What a call on a migration does: it changes that record and perhaps the target's root,
      or it hands the shard over and perhaps touches the source's root. */
  ghost predicate Effect(cfg: Config, w: World, w': World, id: string)
    requires id in w.migs
  {
    var m := w.migs[id];
    || (&& OnlyMigration(w, w', id) && TouchesOnly(cfg, w, w', m.target, m.shardId)
        && (w'.roots != w.roots ==> m.state == Preparing || m.state == Copying || m.state == Verifying))
    || (HandsOver(w, w', id) && TouchesOnly(cfg, w, w', m.source, m.shardId))
  }

  lemma SameRootsEffect(cfg: Config, w: World, w': World, id: string)
    requires id in w.migs && OnlyMigration(w, w', id) && w'.roots == w.roots
    ensures Effect(cfg, w, w', id)
  {
  }

  lemma CallEffect(cfg: Config, w: World, step: Step, id: string)
    requires Tidy(w) && Enabled(cfg, w, step) && Subject(step) == Some(id) && id in w.migs
    ensures Effect(cfg, w, Next(cfg, w, step), id)
  {
    hide Prepare, StartCopy, Verify, Commit, Cancel, ForceFail, CutCommit, Effect, OnlyMigration, WithRoot, WithMig;
    var w' := Next(cfg, w, step);
    match step
    case PrepareCall(_, env) =>
      PrepareShape(w, id, env);
      SameRootsEffect(cfg, w, w', id);
    case StartCopyCall(_, env) => StartCopyTouches(cfg, w, id, env);
    case VerifyCall(_, env) =>
      VerifyShape(cfg, w, id, env);
      SameRootsEffect(cfg, w, w', id);
    case CommitCall(_, env) => CommitTouches(cfg, w, id, env);
    case CancelCall(_, env) => CancelTouches(cfg, w, id, env);
    case FailCall(_, reason, env) =>
      EndingsShape(cfg, w, id, reason, env);
      ForceFailRoots(w, id, reason, env);
      SameRootsEffect(cfg, w, w', id);
    case CrashInCopy(_, left) => CrashInCopyTouches(cfg, w, id, left);
    case CrashInCommit(_, point) => CutTouches(cfg, w, id, point);
    case CrashInCancel(_, left) => CrashInCancelTouches(cfg, w, id, left);
  }

  lemma ForceFailRoots(w: World, id: string, reason: string, env: Env)
    ensures ForceFail(w, id, reason, env).world.roots == w.roots
  {
  }

  lemma CrashInCancelTouches(cfg: Config, w: World, id: string, left: Option<Root>)
    requires Tidy(w) && id in w.migs && Enabled(cfg, w, CrashInCancel(id, left))
    ensures Effect(cfg, w, Next(cfg, w, CrashInCancel(id, left)), id)
  {
    hide TouchesOnly;
    WithRootTouches(cfg, w, w.migs[id].target, w.migs[id].shardId, left);
  }

  lemma CancelTouches(cfg: Config, w: World, id: string, env: Env)
    requires Tidy(w) && id in w.migs && ValidEnv(env)
    ensures Effect(cfg, w, Cancel(cfg, w, id, env).world, id)
  {
    hide WithRoot, OnlyMigration, TouchesOnly;
    EndingsShape(cfg, w, id, "", env);
    var m, w' := w.migs[id], Cancel(cfg, w, id, env).world;
    WithRootTouches(cfg, w, m.target, m.shardId, Left(env.cleanup));
    NothingTouched(cfg, w, w', m.target, m.shardId);
    TouchesByRoots(cfg, w, WithRoot(cfg, w, m.target, m.shardId, Left(env.cleanup)), w', m.target, m.shardId);
  }

  lemma CrashInCopyTouches(cfg: Config, w: World, id: string, left: Option<Root>)
    requires Tidy(w) && id in w.migs && Enabled(cfg, w, CrashInCopy(id, left))
    ensures Effect(cfg, w, Next(cfg, w, CrashInCopy(id, left)), id)
  {
    hide Enter, WithRoot, OnlyMigration, TouchesOnly;
    CrashInCopyShape(cfg, w, id, left);
    EnterShape(w, id, Preparing, true);
    var m, w' := w.migs[id], Next(cfg, w, CrashInCopy(id, left));
    WithRootTouches(cfg, w, m.target, m.shardId, left);
    TouchesByRoots(cfg, w, WithRoot(cfg, w, m.target, m.shardId, left), w', m.target, m.shardId);
  }

  lemma StartCopyTouches(cfg: Config, w: World, id: string, env: Env)
    requires Tidy(w) && id in w.migs && ValidEnv(env)
    ensures Effect(cfg, w, StartCopy(cfg, w, id, env).world, id)
  {
    hide EndCopy, WithRoot, LogicalOf, DigestOf, OnlyMigration, TouchesOnly;
    StartCopyShape(cfg, w, id, env);
    NothingTouched(cfg, w, w, w.migs[id].target, w.migs[id].shardId);
    var m := w.migs[id];
    var digest := DigestOf(LogicalOf(RootAt(cfg, w, m.source, m.shardId)));
    EndCopyShape(m.Moved(Copying), digest, env);
    var end := EndCopy(m.Moved(Copying), digest, env);
    WithRootTouches(cfg, w, m.target, m.shardId, end.left);
    TouchesByRoots(cfg, w, WithRoot(cfg, w, m.target, m.shardId, end.left), StartCopy(cfg, w, id, env).world, m.target, m.shardId);
    TouchesByRoots(cfg, w, w, StartCopy(cfg, w, id, env).world, m.target, m.shardId);
  }

  lemma NothingTouched(cfg: Config, w: World, w': World, node: string, shard: string)
    ensures w'.roots == w.roots ==> TouchesOnly(cfg, w, w', node, shard)
  {
  }

  lemma TouchesByRoots(cfg: Config, w: World, v: World, v': World, node: string, shard: string)
    requires TouchesOnly(cfg, w, v, node, shard)
    ensures v'.roots == v.roots ==> TouchesOnly(cfg, w, v', node, shard)
  {
  }

  lemma CommitTouches(cfg: Config, w: World, id: string, env: Env)
    requires Tidy(w) && id in w.migs && ValidEnv(env)
    ensures Effect(cfg, w, Commit(cfg, w, id, env).world, id)
  {
    hide Enter, WithRoot, OnlyMigration, HandsOver, TouchesOnly, ValidMember, OwnershipAccepted, Handed;
    CommitShape(cfg, w, id, env);
    EnterShape(w, id, Verifying, env.put0);
    var m := w.migs[id];
    NothingTouched(cfg, w, Commit(cfg, w, id, env).world, m.source, m.shardId);
    NothingTouched(cfg, w, Commit(cfg, w, id, env).world, m.target, m.shardId);
    if m.shardId in w.shards {
      var owned := WithShard(w, Handed(w.shards[m.shardId], m.target));
      WithRootTouches(cfg, owned, m.source, m.shardId, Left(env.cleanup));
      var v := WithRoot(cfg, owned, m.source, m.shardId, Left(env.cleanup));
      SameRootsTouch(cfg, owned, w, v, Commit(cfg, w, id, env).world, m.source, m.shardId);
    }
  }

  lemma SameRootsTouch(cfg: Config, v: World, w: World, v': World, w': World, node: string, shard: string)
    requires TouchesOnly(cfg, v, v', node, shard) && w.roots == v.roots
    ensures w'.roots == v'.roots ==> TouchesOnly(cfg, w, w', node, shard)
  {
  }

  lemma CutTouches(cfg: Config, w: World, id: string, point: CommitPoint)
    requires Tidy(w) && id in w.migs && Enabled(cfg, w, CrashInCommit(id, point))
    ensures Effect(cfg, w, CutCommit(cfg, w, id, point), id)
  {
    hide WithRoot, OnlyMigration, HandsOver, TouchesOnly, ValidMember, OwnershipAccepted, Handed;
    CrashInCommitShape(cfg, w, id, point);
    EnterShape(w, id, Verifying, true);
    var m := w.migs[id];
    var owned := WithShard(WithMig(w, m.Moved(Committing)), Handed(w.shards[m.shardId], m.target));
    var left := if point.SourcePartlyGone? then point.left else None;
    WithRootTouches(cfg, owned, m.source, m.shardId, left);
    NothingTouched(cfg, w, CutCommit(cfg, w, id, point), m.source, m.shardId);
    NothingTouched(cfg, w, CutCommit(cfg, w, id, point), m.target, m.shardId);
    SameRootsTouch(cfg, owned, w, WithRoot(cfg, owned, m.source, m.shardId, left), CutCommit(cfg, w, id, point), m.source, m.shardId);
  }

  // ----- any run whose commits of one shard were rechecked -----

  /** Right before a commit on the shard, the target's digest and the source's digest are the same:
      what verifying the target once more against a fresh export would establish. */
  ghost predicate Rechecked(cfg: Config, w: World, step: Step, s: string) {
    (step.CommitCall? || step.CrashInCommit?) && step.id in w.migs && w.migs[step.id].shardId == s
    && w.migs[step.id].state == Verifying && Current(w, step.id) ==>
      DigestOf(Content(cfg, w, w.migs[step.id].target, s)) == DigestOf(Content(cfg, w, w.migs[step.id].source, s))
  }

  lemma AdminKeepsOwner(cfg: Config, w: World, step: Step, s: string)
    requires Tidy(w) && Enabled(cfg, w, step) && Subject(step) == None && !step.CreateCall? && !Reowns(cfg, w, step, s)
    ensures s in w.shards ==> s in Next(cfg, w, step).shards && Next(cfg, w, step).shards[s].nodeId == w.shards[s].nodeId
    ensures !step.AddShardCall? ==> Next(cfg, w, step).shards.Keys == w.shards.Keys
    ensures !step.WriteCall? && !step.Rearrange? ==> Next(cfg, w, step).roots == w.roots
  {
    hide MemberError, ShardCanMove, NodeCanMove, Register, MoveNode, LogicalOf;
    match step
    case RegisterCall(node, clusterId, ok) => RegisterShape(cfg, w, node, clusterId, ok);
    case MoveNodeCall(node, to, ok) => MoveNodeShape(cfg, w, node, to, ok);
    case WriteCall(node, shardId, _, root) => WithRootShape(cfg, w, node, shardId, Some(root));
    case Rearrange(node, shardId, root) => WithRootShape(cfg, w, node, shardId, Some(root));
    case _ =>
  }

  /** A call that hands over another migration's shard hands over another shard. */
  lemma OtherHandover(w: World, w': World, other: string, id: string)
    requires OneLivePerShard(w) && HandsOver(w, w', other) && Live(w, id) && id != other
    ensures w.migs[id].shardId != w.migs[other].shardId
    ensures w.migs[id].shardId in w.shards ==>
      w.migs[id].shardId in w'.shards && w'.shards[w.migs[id].shardId] == w.shards[w.migs[id].shardId]
  {
    assert Live(w, other);
  }

  /** A hand-over ends its migration or leaves it in COMMITTING. */
  lemma HandoverLeaves(w: World, w': World, id: string)
    requires HandsOver(w, w', id)
    ensures Live(w', id) ==> w'.migs[id].state == Committing && w.migs[id].shardId in w'.shards
  {
  }

  lemma LiveStaysAnchored(cfg: Config, w: World, step: Step, s: string, id: string)
    requires Tidy(w) && Enabled(cfg, w, step) && Anchored(w, s) && OneLivePerShard(w)
    requires !step.CreateCall? && !Reowns(cfg, w, step, s)
    requires Live(Next(cfg, w, step), id) && Next(cfg, w, step).migs[id].shardId == s
    ensures var w', m := Next(cfg, w, step), Next(cfg, w, step).migs[id];
      s in w'.shards && m.source != m.target && (m.state != Committing ==> w'.shards[s].nodeId == m.source)
  {
    hide Next, Enabled, Reowns, OneLivePerShard, HandsOver;
    var w' := Next(cfg, w, step);
    MigrationsAreOld(cfg, w, step, id);
    DeadEnds(cfg, w, step, id);
    StepKeepsSubject(cfg, w, step, id);
    assert Live(w, id);
    if Subject(step).Some? {
      var other := Subject(step).value;
      CallShape(cfg, w, step);
      if HandsOver(w, w', other) {
        if other == id {
          HandoverLeaves(w, w', id);
        } else {
          OtherHandover(w, w', other, id);
        }
      }
    } else {
      AdminKeepsOwner(cfg, w, step, s);
    }
  }

  lemma StepKeepsAnchored(cfg: Config, w: World, step: Step, s: string)
    requires Tidy(w) && Enabled(cfg, w, step) && Anchored(w, s) && OneLivePerShard(w) && !Reowns(cfg, w, step, s)
    ensures Anchored(Next(cfg, w, step), s)
  {
    hide Next, Enabled, OneLivePerShard, Reowns;
    var w' := Next(cfg, w, step);
    if step.CreateCall? {
      CreateShape(cfg, w, step);
    } else {
      forall id | Live(w', id) && w'.migs[id].shardId == s
        ensures s in w'.shards && w'.migs[id].source != w'.migs[id].target
        ensures w'.migs[id].state != Committing ==> w'.shards[s].nodeId == w'.migs[id].source
      {
        LiveStaysAnchored(cfg, w, step, s, id);
      }
    }
  }

  /** The root of a shard at a node is not the one that was touched. */
  lemma UntouchedContent(cfg: Config, w: World, w': World, node: string, shard: string, n: string, s: string)
    requires cfg.layout.Separate() && TouchesOnly(cfg, w, w', node, shard) && (n, s) != (node, shard)
    ensures Content(cfg, w', n, s) == Content(cfg, w, n, s)
  {
    hide LogicalOf;
  }

  lemma SameRootsSameContent(cfg: Config, w: World, w': World, node: string, shard: string)
    requires w'.roots == w.roots
    ensures Content(cfg, w', node, shard) == Content(cfg, w, node, shard)
  {
  }

  lemma TargetTouchKeepsFaithful(cfg: Config, w: World, w': World, s: string, l: Logical, id: string)
    requires cfg.layout.Separate() && Anchored(w, s) && Faithful(cfg, w, s, l)
    requires id in w.migs && OnlyMigration(w, w', id) && TouchesOnly(cfg, w, w', w.migs[id].target, w.migs[id].shardId)
    requires w'.roots != w.roots ==> Live(w, id) && w.migs[id].state != Committing
    ensures Faithful(cfg, w', s, l)
  {
    hide Content, Layout.Separate, SameSubject, TouchesOnly;
    var m := w.migs[id];
    if s in w.shards {
      if w'.roots == w.roots {
        SameRootsSameContent(cfg, w, w', w.shards[s].nodeId, s);
      } else {
        UntouchedContent(cfg, w, w', m.target, m.shardId, w.shards[s].nodeId, s);
      }
    }
  }

  lemma HandoverKeepsFaithful(cfg: Config, w: World, w': World, s: string, l: Logical, id: string)
    requires cfg.layout.Separate() && Anchored(w, s) && Faithful(cfg, w, s, l)
    requires id in w.migs && HandsOver(w, w', id) && TouchesOnly(cfg, w, w', w.migs[id].source, w.migs[id].shardId)
    requires w.migs[id].shardId == s ==> Content(cfg, w, w.migs[id].target, s) == Content(cfg, w, w.migs[id].source, s)
    ensures Faithful(cfg, w', s, l)
  {
    hide Content, Layout.Separate, SameSubject, TouchesOnly, Without;
    var m := w.migs[id];
    assert Live(w, id);
    if m.shardId == s {
      UntouchedContent(cfg, w, w', m.source, s, m.target, s);
    } else if s in w.shards {
      UntouchedContent(cfg, w, w', m.source, m.shardId, w.shards[s].nodeId, s);
    }
  }

  /** A call on a migration leaves the owner with the shard's content. */
  lemma CallKeepsFaithful(cfg: Config, w: World, s: string, l: Logical, step: Step, id: string)
    requires cfg.layout.Separate() && Tidy(w) && Enabled(cfg, w, step) && Subject(step) == Some(id)
    requires Anchored(w, s) && Faithful(cfg, w, s, l) && RootsValid(w) && Rechecked(cfg, w, step, s)
    ensures Faithful(cfg, Next(cfg, w, step), s, l) && RootsValid(Next(cfg, w, step))
  {
    CallShape(cfg, w, step);
    var w' := Next(cfg, w, step);
    if id !in w.migs {
      UnknownSubject(cfg, w, step, id);
    } else {
      CallEffect(cfg, w, step, id);
      hide Next, Enabled, Anchored, Faithful, TouchesOnly, DigestOf, LogicalOf;
      if HandsOver(w, w', id) && TouchesOnly(cfg, w, w', w.migs[id].source, w.migs[id].shardId) {
        NotOnlyMigration(w, w', id);
        if w.migs[id].shardId == s {
          SameContentAfterRecheck(cfg, w, w.migs[id]);
        }
        HandoverKeepsFaithful(cfg, w, w', s, l, id);
      } else {
        TargetTouchKeepsFaithful(cfg, w, w', s, l, id);
      }
      TouchKeepsRootsValid(cfg, w, w', w.migs[id].source, w.migs[id].shardId);
      TouchKeepsRootsValid(cfg, w, w', w.migs[id].target, w.migs[id].shardId);
    }
  }

  lemma NotOnlyMigration(w: World, w': World, id: string)
    requires HandsOver(w, w', id)
    ensures !OnlyMigration(w, w', id)
  {
    var m := w.migs[id];
    assert w'.shards[m.shardId].version != w.shards[m.shardId].version;
  }

  lemma TouchKeepsRootsValid(cfg: Config, w: World, w': World, node: string, shard: string)
    requires RootsValid(w)
    ensures TouchesOnly(cfg, w, w', node, shard) ==> RootsValid(w')
  {
  }

  lemma UnknownSubject(cfg: Config, w: World, step: Step, id: string)
    requires Enabled(cfg, w, step) && Subject(step) == Some(id) && id !in w.migs
    ensures Next(cfg, w, step) == w
  {
  }

  lemma SameContentAfterRecheck(cfg: Config, w: World, m: MigrationRec)
    requires RootsValid(w)
    requires DigestOf(Content(cfg, w, m.target, m.shardId)) == DigestOf(Content(cfg, w, m.source, m.shardId))
    ensures Content(cfg, w, m.target, m.shardId) == Content(cfg, w, m.source, m.shardId)
  {
    LogicalIsSane(RootAt(cfg, w, m.target, m.shardId));
    LogicalIsSane(RootAt(cfg, w, m.source, m.shardId));
    DigestInjective(Content(cfg, w, m.target, m.shardId), Content(cfg, w, m.source, m.shardId));
  }

  lemma RootWriteKeepsFaithful(cfg: Config, w: World, s: string, l: Logical, node: string, shardId: string, root: Root)
    requires cfg.layout.Separate() && Faithful(cfg, w, s, l) && RootsValid(w) && root.Valid()
    ensures var w' := WithRoot(cfg, w, node, shardId, Some(root));
      && RootsValid(w')
      && (LogicalOf(root) == Content(cfg, w, node, shardId) || shardId != s ==> Faithful(cfg, w', s, l))
      && (shardId == s && s in w.shards && w.shards[s].nodeId == node ==> Faithful(cfg, w', s, LogicalOf(root)))
  {
    hide LogicalOf, Layout.Separate;
    WithRootShape(cfg, w, node, shardId, Some(root));
    WithRootTouches(cfg, w, node, shardId, Some(root));
    var w' := WithRoot(cfg, w, node, shardId, Some(root));
    hide WithRoot;
    if s in w.shards && (w.shards[s].nodeId, s) != (node, shardId) {
      UntouchedContent(cfg, w, w', node, shardId, w.shards[s].nodeId, s);
    }
  }

  lemma AddShardKeepsFaithful(cfg: Config, w: World, s: string, l: Logical, shard: ShardRec, ok: bool)
    requires Tidy(w) && shard.id !in w.shards && Faithful(cfg, w, s, l)
    ensures Faithful(cfg, AddShard(w, shard, ok).world, s, NextTruth(cfg, w, s, l, AddShardCall(shard, ok)))
    ensures AddShard(w, shard, ok).world.roots == w.roots
  {
    hide LogicalOf, Layout.Dir, MemberError;
  }

  lemma AdminKeepsFaithful(cfg: Config, w: World, s: string, l: Logical, step: Step)
    requires cfg.layout.Separate() && Tidy(w) && Enabled(cfg, w, step) && Subject(step) == None
    requires !step.CreateCall? && !Reowns(cfg, w, step, s)
    requires Faithful(cfg, w, s, l) && RootsValid(w)
    ensures Faithful(cfg, Next(cfg, w, step), s, NextTruth(cfg, w, s, l, step)) && RootsValid(Next(cfg, w, step))
  {
    AdminKeepsOwner(cfg, w, step, s);
    hide LogicalOf, Layout.Dir, MemberError, WithRoot, RootsValid, Reowns;
    match step
    case WriteCall(node, shardId, _, root) => RootWriteKeepsFaithful(cfg, w, s, l, node, shardId, root);
    case Rearrange(node, shardId, root) => RootWriteKeepsFaithful(cfg, w, s, l, node, shardId, root);
    case AddShardCall(shard, ok) => AddShardKeepsFaithful(cfg, w, s, l, shard, ok);
    case _ => hide Next;
  }

  lemma CreateKeepsFaithful(cfg: Config, w: World, s: string, l: Logical, step: Step)
    requires Tidy(w) && Enabled(cfg, w, step) && step.CreateCall?
    requires Faithful(cfg, w, s, l) && RootsValid(w)
    ensures Faithful(cfg, Next(cfg, w, step), s, l) && RootsValid(Next(cfg, w, step))
  {
    CreateShape(cfg, w, step);
    hide Next, LogicalOf, Layout.Dir;
  }

  /** One step of the data theorem. */
  lemma StepKeepsFaithful(cfg: Config, w: World, s: string, l: Logical, step: Step)
    requires cfg.layout.Separate() && Tidy(w) && Enabled(cfg, w, step) && !Reowns(cfg, w, step, s)
    requires Anchored(w, s) && Faithful(cfg, w, s, l) && RootsValid(w) && Rechecked(cfg, w, step, s)
    ensures Faithful(cfg, Next(cfg, w, step), s, NextTruth(cfg, w, s, l, step)) && RootsValid(Next(cfg, w, step))
  {
    hide Next, Faithful, RootsValid, Anchored, Rechecked, Enabled, Reowns;
    if Subject(step).Some? {
      CallKeepsFaithful(cfg, w, s, l, step, Subject(step).value);
    } else if step.CreateCall? {
      CreateKeepsFaithful(cfg, w, s, l, step);
    } else {
      AdminKeepsFaithful(cfg, w, s, l, step);
    }
  }

  /** A history with the content one shard should have at every point. The other shards and their
      migrations are free. */
  ghost predicate IsDataRun(cfg: Config, ws: seq<World>, ls: seq<Logical>, steps: seq<Step>, s: string) {
    && IsRun(cfg, ws, steps) && |ls| == |ws|
    && OneLivePerShard(ws[0]) && Anchored(ws[0], s) && Faithful(cfg, ws[0], s, ls[0]) && RootsValid(ws[0])
    && forall i :: 0 <= i < |steps| ==> !Reowns(cfg, ws[i], steps[i], s) && ls[i + 1] == NextTruth(cfg, ws[i], s, ls[i], steps[i])
  }

  /** Data follows ownership over every run whose commits of the shard were rechecked: with any
      migrations of ACTIVE or DRAINING shards, writers, faults, and processes dying behind any
      single durable write of a copy, a cancel or a commit, the owner on record has the full
      content. */
  lemma {:induction false} DataFollowsOwnership(cfg: Config, ws: seq<World>, ls: seq<Logical>, steps: seq<Step>, s: string, n: nat)
    requires cfg.layout.Separate() && IsDataRun(cfg, ws, ls, steps, s) && n <= |steps|
    requires forall i :: 0 <= i < n ==> Rechecked(cfg, ws[i], steps[i], s)
    ensures Tidy(ws[n]) && OneLivePerShard(ws[n]) && Anchored(ws[n], s) && Faithful(cfg, ws[n], s, ls[n]) && RootsValid(ws[n])
  {
    hide Next, Enabled, NextTruth, Rechecked, Anchored, Faithful, Tidy, OneLivePerShard, Reowns;
    if n > 0 {
      DataFollowsOwnership(cfg, ws, ls, steps, s, n - 1);
      StepMovesForward(cfg, ws[n - 1], steps[n - 1]);
      StepKeepsOneLive(cfg, ws[n - 1], steps[n - 1]);
      StepKeepsAnchored(cfg, ws[n - 1], steps[n - 1], s);
      StepKeepsFaithful(cfg, ws[n - 1], s, ls[n - 1], steps[n - 1]);
    }
  }

  /** Exactly when a hand-over keeps the data: the new owner holds what the old one held if and
      only if the two digests agreed right before. */
  lemma HandoverKeepsDataIff(cfg: Config, w: World, step: Step, id: string)
    requires cfg.layout.Separate() && Tidy(w) && RootsValid(w) && Enabled(cfg, w, step)
    requires Subject(step) == Some(id) && HandsOver(w, Next(cfg, w, step), id) && w.migs[id].source != w.migs[id].target
    ensures var w', s := Next(cfg, w, step), w.migs[id].shardId;
      Content(cfg, w', w'.shards[s].nodeId, s) == Content(cfg, w, w.shards[s].nodeId, s) <==> Rechecked(cfg, w, step, s)
  {
    var w', m := Next(cfg, w, step), w.migs[id];
    CallShape(cfg, w, step);
    CallEffect(cfg, w, step, id);
    NotOnlyMigration(w, w', id);
    assert m.source == w.shards[m.shardId].nodeId;
    hide Next, Enabled, LogicalOf, DigestOf, Layout.Dir;
    UntouchedContent(cfg, w, w', m.source, m.shardId, m.target, m.shardId);
    if Rechecked(cfg, w, step, m.shardId) {
      SameContentAfterRecheck(cfg, w, m);
    }
  }
}
