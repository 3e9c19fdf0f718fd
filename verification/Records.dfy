/** Vector records, the JSON documents they travel as, and the WAL payload parser. */
module Records {
  import opened Wrappers

  /** `content` stands for every field the storage layer carries but never reads:
      vector, metadata, tags, timestamps. */
  datatype Record = Record(id: string, version: int, checksum: string, content: Json) {
    /** What pydantic guarantees of any record it lets through. */
    predicate Valid() {
      id != "" && version >= 1
    }
  }

  /** Two reads that give nothing, or records of the same version and the same checksum: what recovery
      and replication take for the same write. */
  ghost predicate SameWrite(a: Option<Record>, b: Option<Record>) {
    a.Some? == b.Some? && (a.Some? ==> a.value.version == b.value.version && a.value.checksum == b.value.checksum)
  }

  datatype Json =
    | Null
    | Bool(b: bool)
    | Num(n: int)
    | Str(s: string)
    | Arr(items: seq<Json>)
    | Obj(fields: map<string, Json>)

  /** A WAL payload as `json.loads` sees it. */
  datatype Payload = NotJson | Doc(json: Json)

  datatype Op = Upsert(rec: Record) | Delete(id: string) {
    function Target(): string {
      match this
      case Upsert(r) => r.id
      case Delete(id) => id
    }
  }

  function Field(fields: map<string, Json>, name: string): Option<Json> {
    Find(fields, name)
  }

  function ToFields(r: Record): map<string, Json> {
    map["id" := Str(r.id), "version" := Num(r.version), "checksum" := Str(r.checksum), "content" := r.content]
  }

  /** `VectorRecord.model_validate`. */
  function Validate(fields: map<string, Json>): Option<Record> {
    match (Field(fields, "id"), Field(fields, "version"), Field(fields, "checksum"), Field(fields, "content"))
    case (Some(Str(id)), Some(Num(v)), Some(Str(sum)), Some(content)) =>
      if id != "" && v >= 1 then Some(Record(id, v, sum, content)) else None
    case _ => None
  }

  /** The raw record the primary logs, the envelope an import logs, and a tombstone. */
  function RawUpsert(r: Record): Payload {
    Doc(Obj(ToFields(r)))
  }

  function EnvelopeUpsert(r: Record): Payload {
    Doc(Obj(map["__op" := Str("upsert"), "record" := Obj(ToFields(r))]))
  }

  function Tombstone(id: string): Payload {
    Doc(Obj(map["__op" := Str("delete"), "id" := Str(id)]))
  }

  function ParsePayload(p: Payload): Option<Op> {
    match p
    case Doc(Obj(data)) =>
      if Field(data, "__op") == Some(Str("delete")) then
        match Field(data, "id")
        case Some(Str(id)) => if id != "" then Some(Delete(id)) else None
        case _ => None
      else if Field(data, "__op") == Some(Str("upsert")) then
        match Field(data, "record")
        case Some(Obj(fields)) => ValidatedUpsert(fields)
        case _ => None
      else
        ValidatedUpsert(data)
    case _ => None
  }

  function ValidatedUpsert(fields: map<string, Json>): Option<Op> {
    match Validate(fields)
    case Some(r) => Some(Upsert(r))
    case None => None
  }

  /** These fields are those of this record, which is one that pydantic lets through. */
  ghost predicate Describes(fields: map<string, Json>, r: Record) {
    && "id" in fields && fields["id"] == Str(r.id) && r.id != ""
    && "version" in fields && fields["version"] == Num(r.version) && r.version >= 1
    && "checksum" in fields && fields["checksum"] == Str(r.checksum)
    && "content" in fields && fields["content"] == r.content
  }

  /** Which payloads are which operation, for any JSON: an object marked as a delete with a non-empty id; an object
      marked as an upsert around a record; any other object that is a record. */
  lemma ParsesIff(p: Payload, id: string, r: Record)
    ensures ParsePayload(p) == Some(Delete(id)) <==>
      p.Doc? && p.json.Obj? && var data := p.json.fields;
        && "__op" in data && data["__op"] == Str("delete") && "id" in data && data["id"] == Str(id) && id != ""
    ensures ParsePayload(p) == Some(Upsert(r)) <==>
      p.Doc? && p.json.Obj? && var data := p.json.fields;
        && ("__op" in data ==> data["__op"] != Str("delete"))
        && (if "__op" in data && data["__op"] == Str("upsert") then
              "record" in data && data["record"].Obj? && Describes(data["record"].fields, r)
            else Describes(data, r))
  {
    if p.Doc? && p.json.Obj? {
      ValidatedIff(p.json.fields, r);
      if "record" in p.json.fields && p.json.fields["record"].Obj? {
        ValidatedIff(p.json.fields["record"].fields, r);
      }
    }
    hide Validate, Describes;
  }

  lemma ValidatedIff(fields: map<string, Json>, r: Record)
    ensures Validate(fields) == Some(r) <==> Describes(fields, r)
  {
  }

  /** Every payload a writer produces reads back as the operation it stands for;
      a tombstone for the empty id is the one that does not. */
  lemma PayloadRoundTrip(r: Record, id: string)
    requires r.Valid()
    ensures ParsePayload(RawUpsert(r)) == Some(Upsert(r))
    ensures ParsePayload(EnvelopeUpsert(r)) == Some(Upsert(r))
    ensures ParsePayload(Tombstone(id)) == if id == "" then None else Some(Delete(id))
  {
    var data := map["__op" := Str("upsert"), "record" := Obj(ToFields(r))];
    assert Field(data, "record") == Some(Obj(ToFields(r)));
    assert Validate(ToFields(r)) == Some(r);
    var tomb := map["__op" := Str("delete"), "id" := Str(id)];
    assert Field(tomb, "id") == Some(Str(id));
  }

  /** Whatever the bytes were, a parsed operation names a non-empty id. */
  lemma ParsedOpsAreValid(p: Payload)
    ensures ParsePayload(p).Some? ==> ParsePayload(p).value.Target() != ""
    ensures ParsePayload(p).Some? && ParsePayload(p).value.Upsert? ==> ParsePayload(p).value.rec.Valid()
  {
  }
}
