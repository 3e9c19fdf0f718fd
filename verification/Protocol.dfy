/** The control plane as a state machine: shards, cluster members, migrations, storage. */
module Protocol {
  import opened Wrappers
  import opened Records
  import opened Recovery
  import opened Transfer

  datatype ShardState = Creating | Active | Draining | Offline | Splitting | Retired

  predicate ShardCanMove(from: ShardState, to: ShardState) {
    match from
    case Creating => to == Active || to == Offline
    case Active => to == Draining || to == Offline
    case Draining => to == Active || to == Offline
    case Offline => false
    case Splitting => to == Retired || to == Active
    case Retired => false
  }

  datatype ShardRec = ShardRec(
    id: string, namespace: string, nodeId: string, state: ShardState, replicas: seq<string>, version: int)

  datatype NodeState = Joining | Available | Leaving | Removed

  predicate NodeCanMove(from: NodeState, to: NodeState) {
    match from
    case Joining => to == Available || to == Removed
    case Available => to == Leaving || to == Removed
    case Leaving => to == Available || to == Removed
    case Removed => false
  }

  datatype NodeRec = NodeRec(nodeId: string, clusterId: string, state: NodeState, version: int)

  datatype MigState = Pending | Preparing | Copying | Verifying | Committing | Completed | Failed | Cancelled

  predicate MigCanMove(from: MigState, to: MigState) {
    match from
    case Pending => to == Preparing || to == Cancelled || to == Failed
    case Preparing => to == Copying || to == Cancelled || to == Failed
    case Copying => to == Verifying || to == Cancelled || to == Failed
    case Verifying => to == Committing || to == Cancelled || to == Failed
    case Committing => to == Completed || to == Failed
    case _ => false
  }

  datatype MigrationRec = MigrationRec(
    id: string, namespace: string, shardId: string, source: string, target: string, state: MigState,
    sourceVersion: int, clusterId: string, error: Option<string>, version: int,
    sourceDigest: Option<Digest>, targetDigest: Option<Digest>, finalized: bool)
  {
    predicate Terminal() {
      state == Completed || state == Failed || state == Cancelled
    }

    function Moved(to: MigState): MigrationRec {
      this.(state := to, version := version + 1)
    }

    /** `_fail`: FAILED when that move is allowed, the error recorded either way. */
    function Fail(reason: string): MigrationRec {
      (if MigCanMove(state, Failed) then Moved(Failed) else this).(error := Some(reason))
    }
  }

  datatype World = World(
    shards: map<string, ShardRec>, migs: map<string, MigrationRec>, nodes: map<string, NodeRec>, roots: Storage)

  datatype Config = Config(clusterId: string, layout: Layout)

  datatype Error =
    | NotFound | Invalid | Conflict | WrongState | SourceInvalid | TargetInvalid
    | VerificationFailed | CommitFailed | NoOwner | OwnershipConflict | UnknownNode | RemovedNode
    | ClusterMismatch | DuplicateNode | BadTransition | StoreFailed | TransferFailed

  datatype Outcome = Done | Raised(error: Error)

  datatype Answer = Answer(world: World, outcome: Outcome)

  /** What the storage under a copy did: raised somewhere, or left this content at the target. */
  datatype Copy = ExportRaises | ImportRaises(left: Option<Root>) | Landed(root: Root)

  datatype Cleanup = Cleaned | CleanupRaises(left: Option<Root>)

  /** How the environment answers the puts, the copy, the read-back and the cleanup of one call. */
  datatype Env = Env(put0: bool, put1: bool, put2: bool, put3: bool, copy: Copy, readFails: bool, cleanup: Cleanup)

  predicate Migratable(s: ShardState) {
    s == Active || s == Draining
  }

  function MemberError(w: World, node: string): Option<Error> {
    if node !in w.nodes then Some(UnknownNode)
    else if w.nodes[node].state == Removed then Some(RemovedNode)
    else None
  }

  /** Known, not removed, of this cluster. */
  predicate ValidMember(cfg: Config, w: World, node: string) {
    MemberError(w, node) == None && w.nodes[node].clusterId == cfg.clusterId
  }

  function WithMig(w: World, m: MigrationRec): World {
    w.(migs := w.migs[m.id := m])
  }

  function WithShard(w: World, s: ShardRec): World {
    w.(shards := w.shards[s.id := s])
  }

  function WithRoot(cfg: Config, w: World, node: string, shard: string, root: Option<Root>): World {
    var k := (cfg.layout.Dir(node), shard);
    match root
    case None => w.(roots := w.roots - {k})
    case Some(r) => w.(roots := w.roots[k := r])
  }

  function RootAt(cfg: Config, w: World, node: string, shard: string): Root {
    StoredRoot(w.roots, cfg.layout.Dir(node), shard)
  }

  function SourceProblem(w: World, m: MigrationRec): Option<string> {
    if m.shardId !in w.shards then Some("shard no longer exists")
    else
      var s := w.shards[m.shardId];
      if !Migratable(s.state) then Some("shard is not migratable")
      else if s.nodeId != m.source then Some("stale: owner changed")
      else if s.version != m.sourceVersion then Some("stale: version changed")
      else None
  }

  datatype Entry = Refused(answer: Answer) | Entered(m: MigrationRec, shard: ShardRec)

  function After(putOk: bool, e: Outcome): Outcome {
    if putOk then e else Raised(StoreFailed)
  }

  /** The common start of a step: the migration exists, is in the expected state, and its
      source is still the authoritative one; a stale migration is failed. */
  function Enter(w: World, id: string, expected: MigState, putOk: bool): Entry {
    if id !in w.migs then Refused(Answer(w, Raised(NotFound)))
    else
      var m := w.migs[id];
      if m.state != expected then Refused(Answer(w, Raised(WrongState)))
      else
        match SourceProblem(w, m)
        case Some(why) => Refused(Answer(WithMig(w, m.Fail(why)), After(putOk, Raised(SourceInvalid))))
        case None => Entered(m, w.shards[m.shardId])
  }

  function Create(cfg: Config, w: World, namespace: string, shardId: string, target: string, newId: string, env: Env): Answer {
    if shardId !in w.shards then Answer(w, Raised(Invalid))
    else
      var s := w.shards[shardId];
      if s.namespace != namespace then Answer(w, Raised(Invalid))
      else if !Migratable(s.state) then Answer(w, Raised(SourceInvalid))
      else if s.nodeId == "" then Answer(w, Raised(NoOwner))
      else if !ValidMember(cfg, w, s.nodeId) then Answer(w, Raised(SourceInvalid))
      else if !ValidMember(cfg, w, target) then Answer(w, Raised(TargetInvalid))
      else if target == s.nodeId then Answer(w, Raised(TargetInvalid))
      else if exists i :: i in w.migs && w.migs[i].shardId == shardId && !w.migs[i].Terminal() then Answer(w, Raised(Conflict))
      else if !env.put0 then Answer(w, Raised(StoreFailed))
      else
        Answer(WithMig(w, MigrationRec(newId, namespace, shardId, s.nodeId, target, Pending, s.version, cfg.clusterId,
                                       None, 1, None, None, false)), Done)
  }

  function Prepare(w: World, id: string, env: Env): Answer {
    match Enter(w, id, Pending, env.put0)
    case Refused(a) => a
    case Entered(m, _) =>
      if env.put0 then Answer(WithMig(w, m.Moved(Preparing)), Done) else Answer(w, Raised(StoreFailed))
  }

  /** How a copy ends: the record, what became of the target root (if it was touched), the outcome. */
  datatype CopyEnd = CopyEnd(m: MigrationRec, touched: bool, left: Option<Root>, outcome: Outcome)

  ghost function EndCopy(copying: MigrationRec, digest: Digest, env: Env): CopyEnd {
    match env.copy
    case ExportRaises => CopyEnd(copying.Fail("copy failed"), false, None, After(env.put1, Raised(WrongState)))
    case ImportRaises(left) => CopyEnd(copying.Fail("copy failed"), true, left, After(env.put1, Raised(WrongState)))
    case Landed(root) =>
      var exported := copying.(sourceDigest := Some(digest));
      var copied := exported.(targetDigest := Some(digest));
      if env.readFails then CopyEnd(exported.Fail("copy failed"), true, Some(root), After(env.put1, Raised(WrongState)))
      else if !VerifyPasses(root, Some(digest)) then
        CopyEnd(exported.Fail("verify failed"), true, Some(root), After(env.put1, Raised(VerificationFailed)))
      else if !env.put1 then CopyEnd(copied.Fail("copy failed"), true, Some(root), After(env.put2, Raised(WrongState)))
      else CopyEnd(copied, true, Some(root), Done)
  }

  ghost function StartCopy(cfg: Config, w: World, id: string, env: Env): Answer {
    match Enter(w, id, Preparing, env.put0)
    case Refused(a) => a
    case Entered(m, s) =>
      if !env.put0 then Answer(w, Raised(StoreFailed))
      else
        var end := EndCopy(m.Moved(Copying), DigestOf(LogicalOf(RootAt(cfg, w, m.source, s.id))), env);
        var w' := if end.touched then WithRoot(cfg, w, m.target, s.id, end.left) else w;
        Answer(WithMig(w', end.m), end.outcome)
  }

  ghost function Verify(cfg: Config, w: World, id: string, env: Env): Answer {
    match Enter(w, id, Copying, env.put0)
    case Refused(a) => a
    case Entered(m, s) =>
      if !env.put0 then Answer(w, Raised(StoreFailed))
      else
        var verifying := m.Moved(Verifying);
        var root := RootAt(cfg, w, m.target, s.id);
        if env.readFails then Answer(WithMig(w, verifying), Raised(TransferFailed))
        else if !VerifyPasses(root, m.sourceDigest) then
          Answer(WithMig(w, verifying.Fail("verification failed")), After(env.put1, Raised(VerificationFailed)))
        else Answer(WithMig(w, verifying.(targetDigest := Some(DigestOf(LogicalOf(root))))), After(env.put1, Done))
  }

  function Without(replicas: seq<string>, node: string): (rs: seq<string>)
    ensures forall r :: r in rs <==> r in replicas && r != node
  {
    if replicas == [] then []
    else if replicas[0] == node then Without(replicas[1..], node)
    else [replicas[0]] + Without(replicas[1..], node)
  }

  /** The others keep their order and their number. */
  lemma {:induction false} WithoutKeepsOrder(replicas: seq<string>, last: string, node: string)
    ensures Without(replicas + [last], node) == Without(replicas, node) + if last == node then [] else [last]
    ensures Without([], node) == []
  {
    if replicas == [] {
      assert [] + [last] == [last] && [last][1..] == [];
    } else {
      WithoutKeepsOrder(replicas[1..], last, node);
      assert (replicas + [last])[1..] == replicas[1..] + [last];
    }
  }

  /** The shard as the ownership commit leaves it. */
  function Handed(s: ShardRec, target: string): ShardRec {
    s.(nodeId := target, replicas := Without(s.replicas, target), version := s.version + 1)
  }

  /** The ownership checks and the shard put of a commit. */
  predicate OwnershipAccepted(w: World, s: ShardRec, env: Env) {
    s.nodeId != "" && (forall r :: r in s.replicas ==> MemberError(w, r) == None) && env.put1
  }

  /** What a cleanup leaves of a root: nothing, or whatever was there when it raised. */
  function Left(cleanup: Cleanup): Option<Root> {
    if cleanup.Cleaned? then None else cleanup.left
  }

  function Finished(committing: MigrationRec, cleanup: Cleanup): MigrationRec {
    if cleanup.Cleaned? then committing.(finalized := true).Moved(Completed)
    else committing.(error := Some("source finalization failed"), finalized := false).Moved(Completed)
  }

  function Commit(cfg: Config, w: World, id: string, env: Env): Answer {
    match Enter(w, id, Verifying, env.put0)
    case Refused(a) => a
    case Entered(m, s) =>
      if !ValidMember(cfg, w, m.target) then Answer(w, Raised(TargetInvalid))
      else if !env.put0 then Answer(w, Raised(StoreFailed))
      else
        var committing := m.Moved(Committing);
        var handed := Handed(s, m.target);
        if !OwnershipAccepted(w, handed, env) then
          Answer(WithMig(w, committing.Fail("ownership commit failed")), After(env.put2, Raised(CommitFailed)))
        else
          var owned := WithShard(w, handed);
          Answer(WithMig(WithRoot(cfg, owned, m.source, s.id, Left(env.cleanup)), Finished(committing, env.cleanup)),
                 After(env.put3, Done))
  }

  predicate Cancelable(s: MigState) {
    s == Pending || s == Preparing || s == Copying || s == Verifying
  }

  function Cancel(cfg: Config, w: World, id: string, env: Env): Answer {
    if id !in w.migs then Answer(w, Raised(NotFound))
    else
      var m := w.migs[id];
      if !Cancelable(m.state) then Answer(w, Raised(WrongState))
      else
        var cleaned :=
          if m.shardId in w.shards && (m.state == Copying || m.state == Verifying) then
            WithRoot(cfg, w, m.target, m.shardId, Left(env.cleanup))
          else w;
        Answer(WithMig(cleaned, m.Moved(Cancelled)), After(env.put0, Done))
  }

  function ForceFail(w: World, id: string, reason: string, env: Env): Answer {
    if id !in w.migs then Answer(w, Raised(NotFound))
    else if w.migs[id].Terminal() then Answer(w, Raised(WrongState))
    else Answer(WithMig(w, w.migs[id].Fail(reason)), After(env.put0, Done))
  }

  function AddShard(w: World, s: ShardRec, putOk: bool): Answer {
    if s.nodeId == "" then Answer(w, Raised(NoOwner))
    else if s.nodeId in s.replicas then Answer(w, Raised(OwnershipConflict))
    else match MemberError(w, s.nodeId)
      case Some(e) => Answer(w, Raised(e))
      case None =>
        if putOk then Answer(WithShard(w, s.(state := Creating)), Done) else Answer(w, Raised(StoreFailed))
  }

  function MoveShard(w: World, shardId: string, to: ShardState, putOk: bool): Answer {
    if shardId !in w.shards then Answer(w, Raised(NotFound))
    else
      var s := w.shards[shardId];
      if !ShardCanMove(s.state, to) then Answer(w, Raised(BadTransition))
      else if !putOk then Answer(w, Raised(StoreFailed))
      else Answer(WithShard(w, s.(state := to, version := s.version + 1)), Done)
  }

  /** A failed put restores the owner and the replicas but leaves the version bumped. */
  function ChangeOwner(w: World, shardId: string, owner: string, replicas: Option<seq<string>>, putOk: bool): Answer {
    if shardId !in w.shards then Answer(w, Raised(NotFound))
    else
      var s := w.shards[shardId];
      var rs := if replicas.Some? then replicas.value else s.replicas;
      if s.state != Draining then Answer(w, Raised(BadTransition))
      else if owner == "" then Answer(w, Raised(NoOwner))
      else if MemberError(w, owner).Some? then Answer(w, Raised(MemberError(w, owner).value))
      else if owner in rs then Answer(w, Raised(OwnershipConflict))
      else if !putOk then Answer(WithShard(w, s.(version := s.version + 1)), Raised(StoreFailed))
      else Answer(WithShard(w, s.(nodeId := owner, replicas := rs, version := s.version + 1)), Done)
  }

  function Register(cfg: Config, w: World, node: string, clusterId: Option<string>, putOk: bool): Answer {
    if node in w.nodes then Answer(w, Raised(DuplicateNode))
    else if clusterId.Some? && clusterId.value != "" && clusterId.value != cfg.clusterId then Answer(w, Raised(ClusterMismatch))
    else if !putOk then Answer(w, Raised(StoreFailed))
    else Answer(w.(nodes := w.nodes[node := NodeRec(node, cfg.clusterId, Joining, 1)]), Done)
  }

  function MoveNode(cfg: Config, w: World, node: string, to: NodeState, putOk: bool): Answer {
    if node !in w.nodes then Answer(w, Raised(UnknownNode))
    else
      var n := w.nodes[node];
      if n.clusterId != cfg.clusterId then Answer(w, Raised(ClusterMismatch))
      else if !NodeCanMove(n.state, to) then Answer(w, Raised(BadTransition))
      else if !putOk then Answer(w, Raised(StoreFailed))
      else Answer(w.(nodes := w.nodes[node := n.(state := to, version := n.version + 1)]), Done)
  }

  /** `route_write` on the selected shard: ACTIVE, owned by a member, and that member is the caller. */
  predicate WriteAdmitted(w: World, node: string, shardId: string) {
    && shardId in w.shards
    && w.shards[shardId].state == Active
    && w.shards[shardId].nodeId != "" && MemberError(w, w.shards[shardId].nodeId) == None
    && w.shards[shardId].nodeId == node
  }

  /** `writable` for one shard, the gate of deletes: it does not look the owner up in the membership. */
  predicate DeleteAdmitted(w: World, node: string, shardId: string) {
    && shardId in w.shards
    && w.shards[shardId].state == Active
    && w.shards[shardId].nodeId != "" && w.shards[shardId].nodeId == node
  }

  /** How far a commit got before its process died; each point is behind one durable write. */
  datatype CommitPoint = CommittingStored | OwnerStored | SourcePartlyGone(left: Option<Root>) | SourceGone

  datatype Step =
    | CreateCall(namespace: string, shardId: string, target: string, newId: string, env: Env)
    | PrepareCall(id: string, env: Env)
    | StartCopyCall(id: string, env: Env)
    | VerifyCall(id: string, env: Env)
    | CommitCall(id: string, env: Env)
    | CancelCall(id: string, env: Env)
    | FailCall(id: string, reason: string, env: Env)
    | AddShardCall(shard: ShardRec, putOk: bool)
    | MoveShardCall(shardId: string, toShard: ShardState, putOk: bool)
    | ChangeOwnerCall(shardId: string, owner: string, replicas: Option<seq<string>>, putOk: bool)
    | RegisterCall(node: string, clusterId: Option<string>, putOk: bool)
    | MoveNodeCall(node: string, toNode: NodeState, putOk: bool)
    // a write request on a shard, and anything that rearranges a root without changing its content
    | WriteCall(node: string, shardId: string, op: Op, root: Root)
    | Rearrange(node: string, shardId: string, root: Root)
    // the process dies inside a call and a new one loads what was stored
    | CrashInCopy(id: string, left: Option<Root>)
    | CrashInCommit(id: string, point: CommitPoint)
    | CrashInCancel(id: string, left: Option<Root>)

  ghost predicate ValidLeft(left: Option<Root>) {
    left.Some? ==> left.value.Valid()
  }

  ghost predicate ValidEnv(env: Env) {
    && (env.copy.ImportRaises? ==> ValidLeft(env.copy.left))
    && (env.copy.Landed? ==> env.copy.root.Valid())
    && (env.cleanup.CleanupRaises? ==> ValidLeft(env.cleanup.left))
  }

  /** What may be assumed of a step: fresh ids are fresh, storage stays well-formed, a write
      passed the gate and did to its root what the ingest path does. */
  ghost predicate Enabled(cfg: Config, w: World, step: Step) {
    match step
    case CreateCall(_, _, _, newId, env) => newId !in w.migs && ValidEnv(env)
    case PrepareCall(_, env) => ValidEnv(env)
    case StartCopyCall(_, env) => ValidEnv(env)
    case VerifyCall(_, env) => ValidEnv(env)
    case CommitCall(_, env) => ValidEnv(env)
    case CancelCall(_, env) => ValidEnv(env)
    case FailCall(_, _, env) => ValidEnv(env)
    case AddShardCall(s, _) => s.id !in w.shards
    case WriteCall(node, shardId, op, root) =>
      (if op.Upsert? then WriteAdmitted(w, node, shardId) else DeleteAdmitted(w, node, shardId)) && root.Valid()
      && LogicalOf(root) == Apply(LogicalOf(RootAt(cfg, w, node, shardId)), op)
    case Rearrange(node, shardId, root) =>
      root.Valid() && LogicalOf(root) == LogicalOf(RootAt(cfg, w, node, shardId))
    case CrashInCopy(id, left) => Enter(w, id, Preparing, true).Entered? && ValidLeft(left)
    case CrashInCommit(id, point) =>
      Enter(w, id, Verifying, true).Entered? && ValidMember(cfg, w, w.migs[id].target)
      && (point.SourcePartlyGone? ==> ValidLeft(point.left))
      && (point != CommittingStored ==>
            OwnershipAccepted(w, Handed(w.shards[w.migs[id].shardId], w.migs[id].target), Quiet))
    case CrashInCancel(id, left) =>
      id in w.migs && (w.migs[id].state == Copying || w.migs[id].state == Verifying)
      && w.migs[id].shardId in w.shards && ValidLeft(left)
    case _ => true
  }

  /** Every put succeeds. */
  const Quiet: Env := Env(true, true, true, true, ExportRaises, false, Cleaned)

  /** The control records and the storage that survive a commit cut at a point. */
  function CutCommit(cfg: Config, w: World, id: string, point: CommitPoint): World
    requires Enter(w, id, Verifying, true).Entered?
  {
    var m := w.migs[id];
    var s := w.shards[m.shardId];
    var stored := WithMig(w, m.Moved(Committing));
    var owned := WithShard(stored, Handed(s, m.target));
    match point
    case CommittingStored => stored
    case OwnerStored => owned
    case SourcePartlyGone(left) => WithRoot(cfg, owned, m.source, s.id, left)
    case SourceGone => WithRoot(cfg, owned, m.source, s.id, None)
  }

  ghost function Run1(cfg: Config, w: World, step: Step): Answer
    requires Enabled(cfg, w, step)
  {
    match step
    case CreateCall(namespace, shardId, target, newId, env) => Create(cfg, w, namespace, shardId, target, newId, env)
    case PrepareCall(id, env) => Prepare(w, id, env)
    case StartCopyCall(id, env) => StartCopy(cfg, w, id, env)
    case VerifyCall(id, env) => Verify(cfg, w, id, env)
    case CommitCall(id, env) => Commit(cfg, w, id, env)
    case CancelCall(id, env) => Cancel(cfg, w, id, env)
    case FailCall(id, reason, env) => ForceFail(w, id, reason, env)
    case AddShardCall(s, ok) => AddShard(w, s, ok)
    case MoveShardCall(shardId, to, ok) => MoveShard(w, shardId, to, ok)
    case ChangeOwnerCall(shardId, owner, replicas, ok) => ChangeOwner(w, shardId, owner, replicas, ok)
    case RegisterCall(node, clusterId, ok) => Register(cfg, w, node, clusterId, ok)
    case MoveNodeCall(node, to, ok) => MoveNode(cfg, w, node, to, ok)
    case WriteCall(node, shardId, _, root) => Answer(WithRoot(cfg, w, node, shardId, Some(root)), Done)
    case Rearrange(node, shardId, root) => Answer(WithRoot(cfg, w, node, shardId, Some(root)), Done)
    case CrashInCopy(id, left) =>
      var m := w.migs[id];
      Answer(WithMig(WithRoot(cfg, w, m.target, m.shardId, left), m.Moved(Copying)), Done)
    case CrashInCommit(id, point) => Answer(CutCommit(cfg, w, id, point), Done)
    case CrashInCancel(id, left) => Answer(WithRoot(cfg, w, w.migs[id].target, w.migs[id].shardId, left), Done)
  }

  ghost function Next(cfg: Config, w: World, step: Step): World
    requires Enabled(cfg, w, step)
  {
    Run1(cfg, w, step).world
  }

  /** A history: `ws[i]` is the world before step `i`. */
  ghost predicate IsRun(cfg: Config, ws: seq<World>, steps: seq<Step>) {
    && |ws| == |steps| + 1 && Tidy(ws[0])
    && forall i :: 0 <= i < |steps| ==> Enabled(cfg, ws[i], steps[i]) && ws[i + 1] == Next(cfg, ws[i], steps[i])
  }

  /** Records sit under their own ids. */
  ghost predicate Tidy(w: World) {
    && (forall i :: i in w.shards ==> w.shards[i].id == i)
    && (forall i :: i in w.migs ==> w.migs[i].id == i)
  }
}
