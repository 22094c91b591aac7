/** The schema tree, its lookups, and the well-formedness that validation decides. */
module Schemas {
  import opened Text

  /** Anything with a numeric id and a name: every definition in a schema, down to fields and indexes. */
  datatype Carrier<+B> = Carrier(id: int, name: string, body: B)

  datatype FieldKind = KId | KRef | KString | KBool | KTimestamp | KInt | KBytes | KEnum | KJson

  datatype FieldBody = FieldBody(
    kind: FieldKind, required: bool, ref: Option<string>,
    enumValues: Option<seq<string>>, sensitivity: Option<string>)

  type Field = Carrier<FieldBody>
  type Index = Carrier<seq<string>>

  datatype MergePolicy = LastWriteWins | VersionPrecondition

  datatype ObjectBody = ObjectBody(fields: seq<Field>, indexes: seq<Index>, mergePolicy: Option<MergePolicy>)
  datatype StreamBody = StreamBody(keyFields: seq<Field>, events: seq<string>)
  /** A presence or a signal. */
  datatype KeyedBody = KeyedBody(keyFields: seq<Field>, fields: seq<Field>, ttlMs: int)
  datatype ProjectionBody = ProjectionBody(source: string, fields: seq<Field>, indexes: seq<Index>)

  type ObjectDef = Carrier<ObjectBody>
  type StreamDef = Carrier<StreamBody>
  type EventDef = Carrier<seq<Field>>
  type KeyedDef = Carrier<KeyedBody>
  type BlobDef = Carrier<seq<Field>>
  type JobDef = Carrier<seq<Field>>
  type ProjectionDef = Carrier<ProjectionBody>

  datatype Schema = Schema(
    name: string, schemaId: string, schemaVersion: string, schemaRevision: int,
    minimumClientRevision: int, minimumServerRevision: int,
    protocol: string, protocolVersion: int, compatibility: string, hash: string,
    objects: seq<ObjectDef>, streams: seq<StreamDef>, events: seq<EventDef>,
    presences: seq<KeyedDef>, signals: seq<KeyedDef>, blobs: seq<BlobDef>,
    jobs: seq<JobDef>, projections: seq<ProjectionDef>)

  // ---- lookups ----

  /** The first definition with this id. */
  function ById<B>(ts: seq<Carrier<B>>, id: int): (r: Option<Carrier<B>>)
    ensures r.None? ==> forall t | t in ts :: t.id != id
    ensures r.Some? ==> r.value in ts && r.value.id == id
  {
    if ts == [] then None else if ts[0].id == id then Some(ts[0]) else ById(ts[1..], id)
  }

  /** The first definition with this name. */
  function ByName<B>(ts: seq<Carrier<B>>, name: string): (r: Option<Carrier<B>>)
    ensures r.None? ==> forall t | t in ts :: t.name != name
    ensures r.Some? ==> r.value in ts && r.value.name == name
  {
    if ts == [] then None else if ts[0].name == name then Some(ts[0]) else ByName(ts[1..], name)
  }

  lemma {:induction false} LookupsFindFirst<B>(ts: seq<Carrier<B>>, i: nat)
    requires i < |ts|
    ensures (forall j | 0 <= j < i :: ts[j].id != ts[i].id) ==> ById(ts, ts[i].id) == Some(ts[i])
    ensures (forall j | 0 <= j < i :: ts[j].name != ts[i].name) ==> ByName(ts, ts[i].name) == Some(ts[i])
  {
    if i > 0 {
      LookupsFindFirst(ts[1..], i - 1);
      assert forall j | 0 <= j < |ts| - 1 :: ts[1..][j] == ts[j + 1];
    }
  }

  predicate UniqueIds<B>(ts: seq<Carrier<B>>) {
    forall i, j | 0 <= i < j < |ts| :: ts[i].id != ts[j].id
  }

  /** Names are distinct even after lower-casing. */
  predicate UniqueNames<B>(lower: string -> string, ts: seq<Carrier<B>>) {
    forall i, j | 0 <= i < j < |ts| :: lower(ts[i].name) != lower(ts[j].name)
  }

  predicate Unique<B>(lower: string -> string, ts: seq<Carrier<B>>) {
    UniqueIds(ts) && UniqueNames(lower, ts)
  }

  lemma LookupById<B>(ts: seq<Carrier<B>>, t: Carrier<B>)
    requires UniqueIds(ts) && t in ts
    ensures ById(ts, t.id) == Some(t)
  {
    var i :| 0 <= i < |ts| && ts[i] == t;
    LookupsFindFirst(ts, i);
  }

  lemma LookupByName<B>(lower: string -> string, ts: seq<Carrier<B>>, t: Carrier<B>)
    requires UniqueNames(lower, ts) && t in ts
    ensures ByName(ts, t.name) == Some(t)
  {
    var i :| 0 <= i < |ts| && ts[i] == t;
    LookupsFindFirst(ts, i);
  }

  /** On unique definitions, looking up by id and looking up by name undo each other. */
  lemma LookupsInverse<B>(lower: string -> string, ts: seq<Carrier<B>>, t: Carrier<B>)
    requires Unique(lower, ts)
    ensures ById(ts, t.id) == Some(t) <==> ByName(ts, t.name) == Some(t)
    ensures ById(ts, t.id) == Some(t) <==> t in ts
  {
    if t in ts {
      LookupById(ts, t);
      LookupByName(lower, ts, t);
    }
  }

  // ---- well-formedness ----

  datatype RefTargets = RefTargets(objects: seq<string>, blobs: seq<string>)

  function Names<B>(ts: seq<Carrier<B>>): (r: seq<string>)
    ensures |r| == |ts| && forall i | 0 <= i < |ts| :: r[i] == ts[i].name
  {
    seq(|ts|, i requires 0 <= i < |ts| => ts[i].name)
  }

  function Refs(s: Schema): RefTargets { RefTargets(Names(s.objects), Names(s.blobs)) }

  predicate KnownSensitivity(text: string) {
    text == "public" || text == "private" || text == "pii" || text == "secret" || text == "content"
  }

  /** A `ref` that names something names an object or a blob. */
  predicate RefResolves(refs: RefTargets, f: FieldBody) {
    f.kind.KRef? && f.ref.Some? && f.ref.value != "" ==> f.ref.value in refs.objects || f.ref.value in refs.blobs
  }

  predicate EnumDeclared(f: FieldBody) {
    f.kind.KEnum? ==> f.enumValues.Some? && f.enumValues.value != []
  }

  predicate SensitivityKnown(f: FieldBody) { f.sensitivity.Some? ==> KnownSensitivity(f.sensitivity.value) }

  predicate WellFormedFields(lower: string -> string, refs: RefTargets, fields: seq<Field>) {
    && Unique(lower, fields)
    && forall f | f in fields :: RefResolves(refs, f.body) && EnumDeclared(f.body) && SensitivityKnown(f.body)
  }

  predicate WellFormedIndexes(lower: string -> string, fields: seq<Field>, indexes: seq<Index>) {
    Unique(lower, indexes) && forall x | x in indexes :: forall n | n in x.body :: n in Names(fields)
  }

  predicate WellFormedIdentity(s: Schema) {
    && s.protocol == "frick.realtime" && s.compatibility == "greenfield-cutover"
    && !Blank(s.schemaId) && !Blank(s.schemaVersion)
    && s.schemaRevision > 0 && s.minimumClientRevision > 0 && s.minimumServerRevision > 0
  }

  predicate WellFormedTypeSets(lower: string -> string, s: Schema) {
    && Unique(lower, s.objects) && Unique(lower, s.streams) && Unique(lower, s.events) && Unique(lower, s.presences)
    && Unique(lower, s.signals) && Unique(lower, s.blobs) && Unique(lower, s.jobs) && Unique(lower, s.projections)
  }

  predicate WellFormedMembers(lower: string -> string, s: Schema) {
    var refs := Refs(s);
    && (forall o | o in s.objects :: WellFormedFields(lower, refs, o.body.fields) && WellFormedIndexes(lower, o.body.fields, o.body.indexes))
    && (forall t | t in s.streams :: WellFormedFields(lower, refs, t.body.keyFields) && forall e | e in t.body.events :: e in Names(s.events))
    && (forall e | e in s.events :: WellFormedFields(lower, refs, e.body))
    && (forall p | p in s.presences :: WellFormedFields(lower, refs, p.body.keyFields) && WellFormedFields(lower, refs, p.body.fields))
    && (forall p | p in s.signals :: WellFormedFields(lower, refs, p.body.keyFields) && WellFormedFields(lower, refs, p.body.fields))
    && (forall b | b in s.blobs :: WellFormedFields(lower, refs, b.body))
    && (forall j | j in s.jobs :: WellFormedFields(lower, refs, j.body))
    && (forall p | p in s.projections ::
          && (p.body.source in Names(s.streams) || p.body.source in Names(s.objects))
          && WellFormedFields(lower, refs, p.body.fields) && WellFormedIndexes(lower, p.body.fields, p.body.indexes))
  }

  /** What a valid schema is; `lower` is the lower-casing that name uniqueness is judged by. */
  predicate WellFormed(lower: string -> string, s: Schema) {
    WellFormedIdentity(s) && WellFormedTypeSets(lower, s) && WellFormedMembers(lower, s)
  }
}
