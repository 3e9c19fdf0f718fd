/** The JSON-durable metadata store: three kinds of record in one key space. */
module Persistence {
  import opened Wrappers
  import opened Protocol
  import opened Transfer

  /** The reserved key prefixes. */
  function NodePrefix(): string { "cluster::node::" }

  function MigrationPrefix(): string { "migration::" }

  predicate StartsWith(s: string, prefix: string) {
    |prefix| <= |s| && s[..|prefix|] == prefix
  }

  predicate Reserved(key: string) {
    StartsWith(key, MigrationPrefix()) || StartsWith(key, NodePrefix())
  }

  lemma ReservedIff(key: string)
    ensures Reserved(key) <==> "migration::" <= key || "cluster::node::" <= key
  {
  }

  datatype Contents = Contents(shards: map<string, ShardRec>, nodes: map<string, NodeRec>, migs: map<string, MigrationRec>)

  /** Records sit under their own ids. */
  ghost predicate Keyed(c: Contents) {
    && (forall i :: i in c.shards ==> c.shards[i].id == i)
    && (forall i :: i in c.migs ==> c.migs[i].id == i)
    && (forall i :: i in c.nodes ==> c.nodes[i].nodeId == i)
  }

  const Empty: Contents := Contents(map[], map[], map[])

  /** How digests are written as text, and the digest a text came from. */
  datatype Hash = Hash(hex: Digest -> string, unhex: string -> Digest) {
    ghost predicate Injective() {
      forall d :: unhex(hex(d)) == d
    }
  }

  // ----- the stored documents -----

  /** The keys of the stored objects, one constructor for each name. */
  datatype Name =
    | Id | NodeId | PrimaryOwner | Replicas | Namespace | State | Version
    | ClusterId | MembershipState
    | MigrationId | ShardId | SourceNodeId | TargetNodeId | SourceVersion | Error | SourceDigest | TargetDigest | Finalized

  datatype Value = Absent | Flag(b: bool) | Number(n: int) | Text(s: string) | Texts(ss: seq<string>)

  type Doc = map<Name, Value>

  function Get(d: Doc, name: Name): Option<Value> {
    if name in d then Some(d[name]) else None
  }

  // Reading a field with its default; None is a field the decoder raises on.

  function StrOr(d: Doc, name: Name, default: string): Option<string> {
    if name !in d then Some(default) else if d[name].Text? then Some(d[name].s) else None
  }

  function NumOr(d: Doc, name: Name, default: int): Option<int> {
    if name !in d then Some(default) else if d[name].Number? then Some(d[name].n) else None
  }

  function TextOrNull(d: Doc, name: Name): Option<Option<string>> {
    if name !in d || d[name] == Absent then Some(None)
    else if d[name].Text? then Some(Some(d[name].s)) else None
  }

  function TextsOr(d: Doc, name: Name): Option<seq<string>> {
    if name !in d then Some([]) else if d[name].Texts? then Some(d[name].ss) else None
  }

  function StateName(s: ShardState): string {
    match s
    case Creating => "CREATING"
    case Active => "ACTIVE"
    case Draining => "DRAINING"
    case Offline => "OFFLINE"
    case Splitting => "SPLITTING"
    case Retired => "RETIRED"
  }

  /** An unknown state is taken for ACTIVE. */
  function StateFrom(v: Option<Value>): ShardState {
    if v == Some(Text("CREATING")) then Creating
    else if v == Some(Text("DRAINING")) then Draining
    else if v == Some(Text("OFFLINE")) then Offline
    else if v == Some(Text("SPLITTING")) then Splitting
    else if v == Some(Text("RETIRED")) then Retired
    else Active
  }

  lemma StateRoundTrip(s: ShardState)
    ensures StateFrom(Some(Text(StateName(s)))) == s
  {
    assert "ACTIVE"[0] != "CREATING"[0] && "ACTIVE"[0] != "DRAINING"[0];
  }

  function ShardDoc(s: ShardRec): Doc {
    map[Id := Text(s.id), Namespace := Text(s.namespace), NodeId := Text(s.nodeId), PrimaryOwner := Text(s.nodeId),
        State := Text(StateName(s.state)), Replicas := Texts(s.replicas), Version := Number(s.version)]
  }

  /** The owner is `node_id`, or the older `primary_owner` where that is empty. */
  function Owner(d: Doc): Option<string> {
    if StrOr(d, NodeId, "") == Some("") then StrOr(d, PrimaryOwner, "") else StrOr(d, NodeId, "")
  }

  function ShardFrom(d: Doc): Option<ShardRec> {
    match (Get(d, Id), StrOr(d, Namespace, ""), Owner(d), TextsOr(d, Replicas), NumOr(d, Version, 1))
    case (Some(Text(id)), Some(namespace), Some(owner), Some(replicas), Some(version)) =>
      Some(ShardRec(id, namespace, owner, StateFrom(Get(d, State)), replicas, version))
    case _ => None
  }

  lemma ShardRoundTrip(s: ShardRec)
    ensures ShardFrom(ShardDoc(s)) == Some(s)
  {
    StateRoundTrip(s.state);
    hide StateFrom, StateName;
  }

  function NodeStateName(s: NodeState): string {
    match s
    case Joining => "JOINING"
    case Available => "ACTIVE"
    case Leaving => "DRAINING"
    case Removed => "REMOVED"
  }

  function NodeStateFrom(v: Option<Value>): NodeState {
    if v == Some(Text("JOINING")) then Joining
    else if v == Some(Text("DRAINING")) then Leaving
    else if v == Some(Text("REMOVED")) then Removed
    else Available
  }

  lemma NodeStateRoundTrip(s: NodeState)
    ensures NodeStateFrom(Some(Text(NodeStateName(s)))) == s
  {
    assert "ACTIVE"[0] != "JOINING"[0] && "ACTIVE"[0] != "DRAINING"[0] && "ACTIVE"[0] != "REMOVED"[0];
  }

  function NodeDoc(n: NodeRec): Doc {
    map[NodeId := Text(n.nodeId), ClusterId := Text(n.clusterId), MembershipState := Text(NodeStateName(n.state)),
        Version := Number(n.version)]
  }

  function NodeFrom(d: Doc): Option<NodeRec> {
    match (StrOr(d, NodeId, ""), StrOr(d, ClusterId, ""), NumOr(d, Version, 1))
    case (Some(id), Some(cluster), Some(version)) =>
      Some(NodeRec(id, cluster, NodeStateFrom(Get(d, MembershipState)), version))
    case _ => None
  }

  lemma NodeRoundTrip(n: NodeRec)
    ensures NodeFrom(NodeDoc(n)) == Some(n)
  {
    NodeStateRoundTrip(n.state);
    hide NodeStateFrom, NodeStateName;
  }

  function MigStateName(s: MigState): string {
    match s
    case Pending => "PENDING"
    case Preparing => "PREPARING"
    case Copying => "COPYING"
    case Verifying => "VERIFYING"
    case Committing => "COMMITTING"
    case Completed => "COMPLETED"
    case Failed => "FAILED"
    case Cancelled => "CANCELLED"
  }

  /** An unknown state is taken for PENDING. */
  function MigStateFrom(v: Option<Value>): MigState {
    if v == Some(Text("PREPARING")) then Preparing
    else if v == Some(Text("COPYING")) then Copying
    else if v == Some(Text("VERIFYING")) then Verifying
    else if v == Some(Text("COMMITTING")) then Committing
    else if v == Some(Text("COMPLETED")) then Completed
    else if v == Some(Text("FAILED")) then Failed
    else if v == Some(Text("CANCELLED")) then Cancelled
    else Pending
  }

  lemma MigStateRoundTrip(s: MigState)
    ensures MigStateFrom(Some(Text(MigStateName(s)))) == s
  {
    assert |"COPYING"| != |"COMMITTING"| && |"COPYING"| != |"CANCELLED"| && |"COMMITTING"| != |"COMPLETED"|;
    assert "COMPLETED"[1] != "CANCELLED"[1] && |"PENDING"| != |"PREPARING"|;
  }

  function TextValue(t: Option<string>): Value {
    if t.Some? then Text(t.value) else Absent
  }

  function DigestValue(h: Hash, d: Option<Digest>): Value {
    if d.Some? then Text(h.hex(d.value)) else Absent
  }

  function DigestFrom(h: Hash, t: Option<string>): Option<Digest> {
    if t.Some? then Some(h.unhex(t.value)) else None
  }

  function MigrationDoc(h: Hash, m: MigrationRec): Doc {
    map[MigrationId := Text(m.id), Namespace := Text(m.namespace), ShardId := Text(m.shardId),
        SourceNodeId := Text(m.source), TargetNodeId := Text(m.target), State := Text(MigStateName(m.state)),
        SourceVersion := Number(m.sourceVersion), ClusterId := Text(m.clusterId), Error := TextValue(m.error),
        Version := Number(m.version), SourceDigest := DigestValue(h, m.sourceDigest),
        TargetDigest := DigestValue(h, m.targetDigest), Finalized := Flag(m.finalized)]
  }

  /** The fields a migration is identified by. */
  datatype Names = Names(id: string, namespace: string, shardId: string, source: string, target: string, clusterId: string)

  function NamesFrom(d: Doc): Option<Names> {
    match (StrOr(d, MigrationId, ""), StrOr(d, Namespace, ""), StrOr(d, ShardId, ""), StrOr(d, SourceNodeId, ""),
           StrOr(d, TargetNodeId, ""), StrOr(d, ClusterId, "vsector-cluster-default"))
    case (Some(id), Some(namespace), Some(shard), Some(source), Some(target), Some(cluster)) =>
      Some(Names(id, namespace, shard, source, target, cluster))
    case _ => None
  }

  function MigrationFrom(h: Hash, d: Doc): Option<MigrationRec> {
    match (NamesFrom(d), NumOr(d, SourceVersion, 1), TextOrNull(d, Error), NumOr(d, Version, 1),
           TextOrNull(d, SourceDigest), TextOrNull(d, TargetDigest))
    case (Some(n), Some(sourceVersion), Some(error), Some(version), Some(sourceDigest), Some(targetDigest)) =>
      Some(MigrationRec(n.id, n.namespace, n.shardId, n.source, n.target, MigStateFrom(Get(d, State)), sourceVersion,
                        n.clusterId, error, version, DigestFrom(h, sourceDigest), DigestFrom(h, targetDigest),
                        Get(d, Finalized) == Some(Flag(true))))
    case _ => None
  }

  lemma NamesRoundTrip(h: Hash, m: MigrationRec)
    ensures NamesFrom(MigrationDoc(h, m)) == Some(Names(m.id, m.namespace, m.shardId, m.source, m.target, m.clusterId))
  {
    hide MigStateName, DigestValue, TextValue;
  }

  lemma MigrationRoundTrip(h: Hash, m: MigrationRec)
    requires h.Injective()
    ensures MigrationFrom(h, MigrationDoc(h, m)) == Some(m)
  {
    NamesRoundTrip(h, m);
    MigStateRoundTrip(m.state);
    hide NamesFrom, MigStateName, MigStateFrom;
  }

  // ----- what older documents leave out -----

  /** A state that is missing or unknown is taken for ACTIVE, of a migration for PENDING. */
  lemma UnknownStates(v: Option<Value>)
    ensures v !in {Some(Text("CREATING")), Some(Text("DRAINING")), Some(Text("OFFLINE")), Some(Text("SPLITTING")), Some(Text("RETIRED"))}
      <==> StateFrom(v) == Active
    ensures v !in {Some(Text("JOINING")), Some(Text("DRAINING")), Some(Text("REMOVED"))} <==> NodeStateFrom(v) == Available
    ensures v !in {Some(Text("PREPARING")), Some(Text("COPYING")), Some(Text("VERIFYING")), Some(Text("COMMITTING")),
                   Some(Text("COMPLETED")), Some(Text("FAILED")), Some(Text("CANCELLED"))}
      <==> MigStateFrom(v) == Pending
  {
  }

  /** The defaults of the fields, and the two names of the owner: the newer one counts unless it is empty. */
  lemma MissingFields(h: Hash, id: string, node: string, owner: string)
    ensures ShardFrom(map[Id := Text(id)]) == Some(ShardRec(id, "", "", Active, [], 1))
    ensures ShardFrom(map[Id := Text(id), NodeId := Text(node), PrimaryOwner := Text(owner)])
         == Some(ShardRec(id, "", if node == "" then owner else node, Active, [], 1))
    ensures ShardFrom(map[Id := Text(id), PrimaryOwner := Text(owner)]) == Some(ShardRec(id, "", owner, Active, [], 1))
    ensures NodeFrom(map[]) == Some(NodeRec("", "", Available, 1))
    ensures MigrationFrom(h, map[])
         == Some(MigrationRec("", "", "", "", "", Pending, 1, "vsector-cluster-default", None, 1, None, None, false))
  {
  }

  // ----- one key space -----

  datatype Item = ShardItem(shard: ShardRec) | NodeItem(node: NodeRec) | MigrationItem(migration: MigrationRec)

  function Prefixed<T>(prefix: string, records: map<string, T>): map<string, T>
  {
    map k | k in (set i | i in records :: prefix + i) :: records[k[|prefix|..]]
  }

  lemma PrefixedAt<T>(prefix: string, records: map<string, T>, k: string)
    ensures k in Prefixed(prefix, records) <==> StartsWith(k, prefix) && k[|prefix|..] in records
    ensures k in Prefixed(prefix, records) ==> Prefixed(prefix, records)[k] == records[k[|prefix|..]]
  {
    if StartsWith(k, prefix) {
      assert k == prefix + k[|prefix|..];
    }
    forall i | i in records ensures (prefix + i)[|prefix|..] == i && StartsWith(prefix + i, prefix) {
    }
  }

  /** What `_persist` writes: later kinds overwrite earlier ones under the same key. */
  function Document(h: Hash, c: Contents): map<string, Doc> {
    var nodes, migs := Prefixed(NodePrefix(), c.nodes), Prefixed(MigrationPrefix(), c.migs);
    (map k | k in c.shards :: ShardDoc(c.shards[k]))
    + (map k | k in nodes :: NodeDoc(nodes[k]))
    + (map k | k in migs :: MigrationDoc(h, migs[k]))
  }

  lemma DocumentAt(h: Hash, c: Contents, k: string)
    ensures StartsWith(k, MigrationPrefix()) && k[|MigrationPrefix()|..] in c.migs ==>
      k in Document(h, c) && Document(h, c)[k] == MigrationDoc(h, c.migs[k[|MigrationPrefix()|..]])
    ensures !StartsWith(k, MigrationPrefix()) && StartsWith(k, NodePrefix()) && k[|NodePrefix()|..] in c.nodes ==>
      k in Document(h, c) && Document(h, c)[k] == NodeDoc(c.nodes[k[|NodePrefix()|..]])
    ensures !Reserved(k) && k in c.shards ==> k in Document(h, c) && Document(h, c)[k] == ShardDoc(c.shards[k])
  {
    PrefixedAt(MigrationPrefix(), c.migs, k);
    PrefixedAt(NodePrefix(), c.nodes, k);
    hide Prefixed, MigrationDoc, NodeDoc, ShardDoc, StartsWith, NodePrefix, MigrationPrefix;
  }

  lemma PrefixedKey(prefix: string, id: string)
    ensures StartsWith(prefix + id, prefix) && (prefix + id)[|prefix|..] == id
  {
  }

  /** Where the file has what: members and migrations under their prefixes, shards under their ids. */
  lemma DocumentKeys(h: Hash, c: Contents, id: string)
    ensures id in c.migs ==> "migration::" + id in Document(h, c) && Document(h, c)["migration::" + id] == MigrationDoc(h, c.migs[id])
    ensures id in c.nodes ==> "cluster::node::" + id in Document(h, c) && Document(h, c)["cluster::node::" + id] == NodeDoc(c.nodes[id])
    ensures id in c.shards && !("migration::" <= id) && !("cluster::node::" <= id) ==>
      id in Document(h, c) && Document(h, c)[id] == ShardDoc(c.shards[id])
  {
    hide Document, StartsWith, MigrationDoc, NodeDoc, ShardDoc, Reserved;
    PrefixedKey("migration::", id);
    PrefixedKey("cluster::node::", id);
    PrefixesApart("cluster::node::" + id);
    ReservedIff(id);
    DocumentAt(h, c, "migration::" + id);
    DocumentAt(h, c, "cluster::node::" + id);
    DocumentAt(h, c, id);
  }

  /** The kind of a stored value is told from its key alone. */
  function Decode(h: Hash, key: string, j: Doc): Option<Item> {
    if StartsWith(key, MigrationPrefix()) then
      var m := MigrationFrom(h, j);
      if m.Some? then Some(MigrationItem(m.value)) else None
    else if StartsWith(key, NodePrefix()) then
      var n := NodeFrom(j);
      if n.Some? then Some(NodeItem(n.value)) else None
    else
      var s := ShardFrom(j);
      if s.Some? then Some(ShardItem(s.value)) else None
  }

  /** What a store holds under a key of the file. */
  function At(c: Contents, key: string): Option<Item> {
    if StartsWith(key, MigrationPrefix()) then
      var id := key[|MigrationPrefix()|..];
      if id in c.migs then Some(MigrationItem(c.migs[id])) else None
    else if StartsWith(key, NodePrefix()) then
      var id := key[|NodePrefix()|..];
      if id in c.nodes then Some(NodeItem(c.nodes[id])) else None
    else if key in c.shards then Some(ShardItem(c.shards[key]))
    else None
  }

  function With(c: Contents, key: string, item: Item): Contents {
    match item
    case MigrationItem(m) =>
      if StartsWith(key, MigrationPrefix()) then c.(migs := c.migs[key[|MigrationPrefix()|..] := m]) else c
    case NodeItem(n) => if StartsWith(key, NodePrefix()) then c.(nodes := c.nodes[key[|NodePrefix()|..] := n]) else c
    case ShardItem(s) => c.(shards := c.shards[key := s])
  }

  datatype KeyDoc = KeyDoc(key: string, value: Doc)

  /** `_load` over the items of the file: the first one that raises ends it. */
  function LoadInto(h: Hash, c: Contents, doc: seq<KeyDoc>): Contents
    decreases |doc|
  {
    if doc == [] then c
    else match Decode(h, doc[0].key, doc[0].value)
      case None => c
      case Some(item) => LoadInto(h, With(c, doc[0].key, item), doc[1..])
  }

  ghost predicate Decodes(h: Hash, doc: seq<KeyDoc>) {
    forall e :: e in doc ==> Decode(h, e.key, e.value).Some?
  }

  ghost predicate DistinctKeys(doc: seq<KeyDoc>) {
    forall i, j :: 0 <= i < j < |doc| ==> doc[i].key != doc[j].key
  }

  lemma SamePrefix(k: string, k': string, prefix: string)
    requires StartsWith(k, prefix) && StartsWith(k', prefix) && k[|prefix|..] == k'[|prefix|..]
    ensures k == k'
  {
    assert k == prefix + k[|prefix|..] && k' == prefix + k'[|prefix|..];
  }

  /** The keys of the three kinds are apart: storing an item changes what is read under its key alone. */
  lemma WithAt(h: Hash, c: Contents, e: KeyDoc, k: string)
    requires Decode(h, e.key, e.value).Some?
    ensures var c' := With(c, e.key, Decode(h, e.key, e.value).value);
      At(c', k) == (if k == e.key then Decode(h, e.key, e.value) else At(c, k))
      && (Reserved(k) ==> (k in c'.shards <==> k in c.shards))
  {
    hide ShardFrom, NodeFrom, MigrationFrom, NodePrefix, MigrationPrefix;
    if StartsWith(k, MigrationPrefix()) && StartsWith(e.key, MigrationPrefix()) {
      if k[|MigrationPrefix()|..] == e.key[|MigrationPrefix()|..] {
        SamePrefix(k, e.key, MigrationPrefix());
      }
    } else if StartsWith(k, NodePrefix()) && StartsWith(e.key, NodePrefix()) {
      if k[|NodePrefix()|..] == e.key[|NodePrefix()|..] {
        SamePrefix(k, e.key, NodePrefix());
      }
    }
  }

  lemma {:induction false} LoadedAt(h: Hash, c: Contents, doc: seq<KeyDoc>, k: string)
    decreases |doc|
    requires Decodes(h, doc) && DistinctKeys(doc)
    ensures forall e :: e in doc && e.key == k ==> At(LoadInto(h, c, doc), k) == Decode(h, k, e.value)
    ensures (forall e :: e in doc ==> e.key != k) ==> At(LoadInto(h, c, doc), k) == At(c, k)
  {
    hide Decode, At, With;
    if doc != [] {
      var rest := doc[1..];
      assert doc == [doc[0]] + rest;
      WithAt(h, c, doc[0], k);
      LoadedAt(h, With(c, doc[0].key, Decode(h, doc[0].key, doc[0].value).value), rest, k);
      if doc[0].key == k {
        forall e | e in rest ensures e.key != k {
          var i :| 0 <= i < |rest| && rest[i] == e;
          assert doc[i + 1].key != doc[0].key;
        }
      }
    }
  }

  /** No shard is ever loaded under a reserved key. */
  lemma {:induction false} LoadedNotReserved(h: Hash, c: Contents, doc: seq<KeyDoc>, k: string)
    decreases |doc|
    requires Reserved(k) && k !in c.shards
    ensures k !in LoadInto(h, c, doc).shards
  {
    if doc != [] && Decode(h, doc[0].key, doc[0].value).Some? {
      WithAt(h, c, doc[0], k);
      hide Decode, With, Reserved;
      LoadedNotReserved(h, With(c, doc[0].key, Decode(h, doc[0].key, doc[0].value).value), doc[1..], k);
    }
  }

  /** Some order of the items of a JSON object. */
  ghost predicate Lists(doc: seq<KeyDoc>, m: map<string, Doc>) {
    && DistinctKeys(doc)
    && forall k, j :: KeyDoc(k, j) in doc <==> k in m && m[k] == j
  }

  /** A shard document under a reserved key is still read, as a record of the other kind. */
  lemma ShardDocDecodes(h: Hash, s: ShardRec)
    ensures NodeFrom(ShardDoc(s)).Some?
    ensures MigrationFrom(h, ShardDoc(s)).Some?
    ensures var m := MigrationFrom(h, ShardDoc(s)).value; m.state == Pending && m.shardId == "" && m.source == ""
  {
    var name := StateName(s.state);
    NoMigrationState(s.state);
    hide StateName, MigStateFrom, NodeStateFrom;
  }

  /** No state of a shard is a state of a migration. */
  lemma NoMigrationState(s: ShardState)
    ensures MigStateFrom(Some(Text(StateName(s)))) == Pending
  {
    var n := StateName(s);
    assert |"RETIRED"| == 7 && |"OFFLINE"| == 7 && |"ACTIVE"| == 6;
  }

  /** Every key of the document reads back, and as what the store holds under it, except where a
      shard took a reserved key nobody else holds. */
  lemma DocumentDecodes(h: Hash, c: Contents, k: string)
    requires h.Injective()
    ensures At(c, k).Some? ==> k in Document(h, c) && Decode(h, k, Document(h, c)[k]) == At(c, k)
    ensures At(c, k) == None && k in Document(h, c) ==>
      Reserved(k) && k in c.shards && Document(h, c)[k] == ShardDoc(c.shards[k]) && Decode(h, k, Document(h, c)[k]).Some?
    ensures k in c.shards ==> k in Document(h, c)
  {
    PrefixedAt(NodePrefix(), c.nodes, k);
    PrefixedAt(MigrationPrefix(), c.migs, k);
    PrefixesApart(k);
    hide NodePrefix, MigrationPrefix, Prefixed, MigrationFrom, MigrationDoc, NodeFrom, NodeDoc, ShardFrom, ShardDoc, Hash.Injective;
    if k in Prefixed(MigrationPrefix(), c.migs) {
      MigrationRoundTrip(h, c.migs[k[|MigrationPrefix()|..]]);
    } else if k in Prefixed(NodePrefix(), c.nodes) {
      NodeRoundTrip(c.nodes[k[|NodePrefix()|..]]);
    } else if k in c.shards {
      ShardRoundTrip(c.shards[k]);
      ShardDocDecodes(h, c.shards[k]);
    }
  }

  lemma PrefixesApart(k: string)
    ensures !(StartsWith(k, NodePrefix()) && StartsWith(k, MigrationPrefix()))
  {
    if StartsWith(k, NodePrefix()) {
      assert k[..|NodePrefix()|][0] == 'c';
    }
    if StartsWith(k, MigrationPrefix()) {
      assert k[..|MigrationPrefix()|][0] == 'm';
    }
  }

  /** What a restart reads under any key, for any contents and any order of the file. */
  lemma RestartReads(h: Hash, c: Contents, doc: seq<KeyDoc>, k: string)
    requires h.Injective() && Lists(doc, Document(h, c))
    ensures At(LoadInto(h, Empty, doc), k)
         == if k in Document(h, c) then Decode(h, k, Document(h, c)[k]) else None
  {
    hide Document, Decode, LoadInto;
    forall e | e in doc ensures Decode(h, e.key, e.value).Some? {
      assert KeyDoc(e.key, e.value) == e;
      DocumentDecodes(h, c, e.key);
    }
    LoadedAt(h, Empty, doc, k);
    if k in Document(h, c) {
      assert KeyDoc(k, Document(h, c)[k]) in doc;
    } else {
      forall e | e in doc ensures e.key != k {
        assert KeyDoc(e.key, e.value) == e;
      }
    }
  }

  /** Reading agrees under every key, and no shard sits under a reserved one: equal contents. */
  lemma SameContents(c: Contents, c': Contents)
    requires forall k :: At(c, k) == At(c', k)
    requires forall k :: Reserved(k) ==> k !in c.shards && k !in c'.shards
    ensures c == c'
  {
    forall i ensures Find(c.migs, i) == Find(c'.migs, i) {
      var k := MigrationPrefix() + i;
      assert StartsWith(k, MigrationPrefix()) && k[|MigrationPrefix()|..] == i;
      assert At(c, k) == At(c', k);
    }
    forall i ensures Find(c.nodes, i) == Find(c'.nodes, i) {
      var k := NodePrefix() + i;
      assert StartsWith(k, NodePrefix()) && k[|NodePrefix()|..] == i;
      PrefixesApart(k);
      assert At(c, k) == At(c', k);
    }
    forall i ensures Find(c.shards, i) == Find(c'.shards, i) {
      assert At(c, i) == At(c', i);
    }
    SameMap(c.migs, c'.migs);
    SameMap(c.nodes, c'.nodes);
    SameMap(c.shards, c'.shards);
  }

  lemma SameMap<K(!new), V>(m: map<K, V>, m': map<K, V>)
    requires forall k :: Find(m, k) == Find(m', k)
    ensures m == m'
  {
    forall k ensures k in m <==> k in m' {
      assert Find(m, k) == Find(m', k);
    }
    forall k | k in m ensures m[k] == m'[k] {
      assert Find(m, k) == Find(m', k);
    }
  }

  /** Writing the store and loading it again gives the same store, if and only if no shard id
      starts with a reserved prefix. */
  lemma RestartIsInvisibleIff(h: Hash, c: Contents, doc: seq<KeyDoc>)
    requires h.Injective() && Lists(doc, Document(h, c))
    ensures LoadInto(h, Empty, doc) == c <==> forall id :: id in c.shards ==> !("migration::" <= id) && !("cluster::node::" <= id)
  {
    forall id ensures Reserved(id) <==> "migration::" <= id || "cluster::node::" <= id {
      ReservedIff(id);
    }
    hide Document, Decode, LoadInto, At, Reserved;
    var loaded := LoadInto(h, Empty, doc);
    forall k | Reserved(k) ensures k !in loaded.shards {
      LoadedNotReserved(h, Empty, doc, k);
    }
    if forall id :: id in c.shards ==> !Reserved(id) {
      forall k ensures At(c, k) == At(loaded, k) {
        RestartReads(h, c, doc, k);
        DocumentDecodes(h, c, k);
      }
      SameContents(c, loaded);
    }
  }

  /** A shard whose id starts with the migration prefix comes back as a PENDING migration of nothing. */
  lemma ReservedShardBecomesMigration(h: Hash, c: Contents, doc: seq<KeyDoc>, id: string)
    requires h.Injective() && Lists(doc, Document(h, c))
    requires "migration::" + id in c.shards && id !in c.migs
    ensures id in LoadInto(h, Empty, doc).migs
    ensures LoadInto(h, Empty, doc).migs[id].state == Pending && LoadInto(h, Empty, doc).migs[id].shardId == ""
    ensures "migration::" + id !in LoadInto(h, Empty, doc).shards
  {
    var k := MigrationPrefix() + id;
    assert StartsWith(k, MigrationPrefix()) && k[|MigrationPrefix()|..] == id;
    LoadedNotReserved(h, Empty, doc, k);
    RestartReads(h, c, doc, k);
    DocumentDecodes(h, c, k);
    ShardDocDecodes(h, c.shards[k]);
    hide ShardDoc, MigrationFrom, LoadInto, NodePrefix, MigrationPrefix, Document, Hash.Injective;
  }

  /** Two stores with the same document agree on every shard outside the reserved keys. */
  lemma DocumentTellsShards(h: Hash, c: Contents, c': Contents, id: string)
    requires h.Injective() && Document(h, c) == Document(h, c')
    requires id in c.shards && id in c'.shards && !Reserved(id)
    ensures c.shards[id] == c'.shards[id]
  {
    DocumentDecodes(h, c, id);
    DocumentDecodes(h, c', id);
    hide Document, Decode;
  }

  // ----- what the calls of the control plane write -----

  function Metadata(w: World): Contents {
    Contents(w.shards, w.nodes, w.migs)
  }

  function Last<T>(s: seq<T>): T
    requires s != []
  {
    s[|s| - 1]
  }

  /** The file after these contents were put, one after the other, from write number `n` on: each put
      writes everything held, and a write that fails leaves the file as it was. */
  function FileAfter(h: Hash, disk: nat -> bool, file: map<string, Doc>, n: nat, puts: seq<Contents>): map<string, Doc>
    decreases |puts|
  {
    if puts == [] then file
    else if disk(n + |puts| - 1) then Document(h, Last(puts))
    else FileAfter(h, disk, file, n, puts[..|puts| - 1])
  }

  lemma OneWrite(h: Hash, disk: nat -> bool, file: map<string, Doc>, n: nat, c: Contents)
    ensures FileAfter(h, disk, file, n, []) == file
    ensures FileAfter(h, disk, file, n, [c]) == if disk(n) then Document(h, c) else file
  {
    hide Document;
    assert [c][..0] == [];
  }

  /** These puts lead from one file to the other. */
  ghost predicate Saved(h: Hash, disk: nat -> bool, file: map<string, Doc>, n: nat, puts: seq<Contents>, file': map<string, Doc>, n': nat) {
    n' == n + |puts| && file' == FileAfter(h, disk, file, n, puts)
  }

  lemma {:induction false} FileAfterConcat(h: Hash, disk: nat -> bool, file: map<string, Doc>, n: nat, a: seq<Contents>, b: seq<Contents>)
    ensures FileAfter(h, disk, file, n, a + b) == FileAfter(h, disk, FileAfter(h, disk, file, n, a), n + |a|, b)
    decreases |b|
  {
    hide Document;
    if b == [] {
      assert a + b == a;
    } else {
      assert (a + b)[..|a + b| - 1] == a + b[..|b| - 1];
      FileAfterConcat(h, disk, file, n, a, b[..|b| - 1]);
    }
  }

  lemma SavedThen(h: Hash, disk: nat -> bool, f0: map<string, Doc>, n0: nat, a: seq<Contents>, f1: map<string, Doc>, n1: nat,
                  b: seq<Contents>, f2: map<string, Doc>, n2: nat)
    requires Saved(h, disk, f0, n0, a, f1, n1) && Saved(h, disk, f1, n1, b, f2, n2)
    ensures Saved(h, disk, f0, n0, a + b, f2, n2)
  {
    FileAfterConcat(h, disk, f0, n0, a, b);
  }

  /** After a call that put everything it changed, or put nothing and changed at most one shard: the file says
      what is held, unless the shard was changed. */
  lemma SyncedIff(h: Hash, disk: nat -> bool, n: nat, c: Contents, c': Contents, file': map<string, Doc>, n': nat, id: string, put: bool)
    requires h.Injective() && disk(n) && !Reserved(id) && id in c.shards && id in c'.shards
    requires Saved(h, disk, Document(h, c), n, if put then [c'] else [], file', n')
    requires !put ==> c' == c.(shards := c.shards[id := c'.shards[id]])
    ensures file' == Document(h, c') <==> put || c'.shards[id] == c.shards[id]
  {
    hide Document, FileAfter, Reserved;
    OneWrite(h, disk, Document(h, c), n, c');
    if !put && Document(h, c) == Document(h, c') {
      DocumentTellsShards(h, c, c', id);
    }
    assert !put && c'.shards[id] == c.shards[id] ==> c' == c;
  }

  /** A call with one put, at its end. */
  function OnePut(a: Answer): seq<Contents> {
    if a.outcome == Done then [Metadata(a.world)] else []
  }

  /** A stale migration is put as FAILED before the refusal is raised. */
  function StalePut(a: Answer): seq<Contents> {
    if a.outcome == Raised(SourceInvalid) then [Metadata(a.world)] else []
  }

  /** The last put of a call that has more than one. */
  function LastPut(a: Answer): seq<Contents> {
    if a.outcome == Raised(StoreFailed) then [] else [Metadata(a.world)]
  }

  function PreparePuts(w: World, id: string, env: Env): seq<Contents> {
    match Enter(w, id, Pending, env.put0)
    case Refused(a) => StalePut(a)
    case Entered(_, _) => OnePut(Prepare(w, id, env))
  }

  ghost function StartCopyPuts(cfg: Config, w: World, id: string, env: Env): seq<Contents> {
    match Enter(w, id, Preparing, env.put0)
    case Refused(a) => StalePut(a)
    case Entered(m, _) =>
      if !env.put0 then [] else [Metadata(WithMig(w, m.Moved(Copying)))] + LastPut(StartCopy(cfg, w, id, env))
  }

  ghost function VerifyPuts(cfg: Config, w: World, id: string, env: Env): seq<Contents> {
    match Enter(w, id, Copying, env.put0)
    case Refused(a) => StalePut(a)
    case Entered(m, _) =>
      if !env.put0 then []
      else [Metadata(WithMig(w, m.Moved(Verifying)))] + if env.readFails then [] else LastPut(Verify(cfg, w, id, env))
  }

  /** COMMITTING, then the shard with its new owner, then COMPLETED; or FAILED behind COMMITTING. */
  function CommitPuts(cfg: Config, w: World, id: string, env: Env): seq<Contents> {
    match Enter(w, id, Verifying, env.put0)
    case Refused(a) => StalePut(a)
    case Entered(m, s) =>
      if !ValidMember(cfg, w, m.target) || !env.put0 then []
      else
        var committing := WithMig(w, m.Moved(Committing));
        var handed := Handed(s, m.target);
        [Metadata(committing)]
        + (if OwnershipAccepted(w, handed, env) then [Metadata(WithShard(committing, handed))] else [])
        + LastPut(Commit(cfg, w, id, env))
  }
}
