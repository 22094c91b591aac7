/** What each kind of frame carries. */
module Payloads {
  import opened Text
  import opened WireTypes

  datatype FrameKind =
    | Hello | Schema | Subscribe | Snapshot | StreamPage | Append | Ack | Nack | Delta
    | PresenceSet | PresenceClear | PresenceDelta | SignalSend | SignalDeliver | CursorCommit
    | Ping | Pong | SyncStatus | HelloAck | ProjectionDelta | ObjectUpsert
    | CallCommand | CallCommandResult

  function KindNumber(k: FrameKind): nat {
    match k
    case Hello => 0
    case Schema => 1
    case Subscribe => 2
    case Snapshot => 3
    case StreamPage => 4
    case Append => 5
    case Ack => 6
    case Nack => 7
    case Delta => 8
    case PresenceSet => 9
    case PresenceClear => 10
    case PresenceDelta => 11
    case SignalSend => 12
    case SignalDeliver => 13
    case CursorCommit => 14
    case Ping => 15
    case Pong => 16
    case SyncStatus => 17
    case HelloAck => 18
    case ProjectionDelta => 19
    case ObjectUpsert => 20
    case CallCommand => 21
    case CallCommandResult => 22
  }

  function KindOf(n: int): (k: Option<FrameKind>)
    ensures k.Some? <==> 0 <= n <= 22
    ensures k.Some? ==> KindNumber(k.value) == n
  {
    match n
    case 0 => Some(Hello)
    case 1 => Some(Schema)
    case 2 => Some(Subscribe)
    case 3 => Some(Snapshot)
    case 4 => Some(StreamPage)
    case 5 => Some(Append)
    case 6 => Some(Ack)
    case 7 => Some(Nack)
    case 8 => Some(Delta)
    case 9 => Some(PresenceSet)
    case 10 => Some(PresenceClear)
    case 11 => Some(PresenceDelta)
    case 12 => Some(SignalSend)
    case 13 => Some(SignalDeliver)
    case 14 => Some(CursorCommit)
    case 15 => Some(Ping)
    case 16 => Some(Pong)
    case 17 => Some(SyncStatus)
    case 18 => Some(HelloAck)
    case 19 => Some(ProjectionDelta)
    case 20 => Some(ObjectUpsert)
    case 21 => Some(CallCommand)
    case 22 => Some(CallCommandResult)
    case _ => None
  }

  function AllKinds(): seq<FrameKind> {
    [Hello, Schema, Subscribe, Snapshot, StreamPage, Append, Ack, Nack, Delta, PresenceSet, PresenceClear, PresenceDelta,
      SignalSend, SignalDeliver, CursorCommit, Ping, Pong, SyncStatus, HelloAck, ProjectionDelta, ObjectUpsert,
      CallCommand, CallCommandResult]
  }

  /** Kinds are numbered from zero in the order they are declared, and no other number is a kind. */
  lemma KindsInOrder(n: int)
    ensures KindOf(n) == if 0 <= n < |AllKinds()| then Some(AllKinds()[n]) else None
    ensures 0 <= n < |AllKinds()| ==> KindNumber(AllKinds()[n]) == n
  {
  }

  // ---- payload types ----

  function Req(ty: Ty): Slot { Slot(false, ty) }

  function Opt(ty: Ty): Slot { Slot(true, ty) }

  function Struct(names: Names, slots: seq<Slot>): Ty
    requires |names| == |slots|
  {
    TStruct(names, slots)
  }

  function PackedFieldsTy(): Ty { TList(TTuple([TInt, TDyn])) }

  /** Objects, presence records and signal envelopes share one packed shape. */
  function PackedRecordTy(): Ty { TTuple([TInt, TStr, PackedFieldsTy()]) }

  function PackedStreamEventTy(): Ty { TTuple([TInt, TStr, TInt, TStr, TInt, PackedFieldsTy()]) }

  function SchemaCapabilityTy(): Ty { Struct(["schemaId", "schemaRevision", "schemaHash"], [Req(TStr), Req(TInt), Req(TStr)]) }

  function TransportsTy(): Ty { TList(TEnum(["websocket", "http", "sse"])) }

  function EncodingsTy(): Ty { TList(TEnum(["msgpack", "json"])) }

  function PrimitivesTy(): Ty { TList(TEnum(["objects", "streams", "presence", "signals", "blobs", "jobs", "projections"])) }

  function BlobUploadsTy(): Ty { TList(TEnum(["direct", "resumable", "signedUrl", "localOnly"])) }

  function PushTy(): Ty { TList(TEnum(["apns", "fcm", "webPush", "test"])) }

  function OfflineTy(): Ty { Struct(["cache", "pendingAppends"], [Req(TBool), Req(TBool)]) }

  function PlatformTy(): Ty { TEnum(["web", "node", "ios", "macos", "android", "test", "service"]) }

  function ClientCapabilityNames(): (names: Names)
    ensures |names| == 11
  {
    ["platform", "sdkVersion", "schema", "transports", "encodings", "primitives", "offline", "blobUploads", "push",
      "experimental", "required"]
  }

  function ClientCapabilitiesTy(): Ty {
    Struct(ClientCapabilityNames(),
      [Req(PlatformTy()), Req(TStr), Req(SchemaCapabilityTy()),
        Req(TransportsTy()), Req(EncodingsTy()), Req(PrimitivesTy()), Req(OfflineTy()), Req(BlobUploadsTy()), Req(PushTy()),
        Req(TList(TStr)), Req(TList(TStr))])
  }

  function ServerCapabilityNames(): (names: Names)
    ensures |names| == 8
  {
    ["schema", "transports", "encodings", "primitives", "blobUploads", "push", "experimental", "limits"]
  }

  function ServerCapabilitiesTy(): Ty {
    Struct(ServerCapabilityNames(),
      [Req(SchemaCapabilityTy()), Req(TransportsTy()), Req(EncodingsTy()), Req(PrimitivesTy()), Req(BlobUploadsTy()),
        Req(PushTy()), Req(TList(TStr)), Req(TCounts)])
  }

  function CompatibilityNames(): (names: Names)
    ensures |names| == 5
  {
    ["compatible", "reason", "clientRevision", "serverRevision", "message"]
  }

  function CompatibilityTy(): Ty {
    Struct(CompatibilityNames(),
      [Req(TBool), Req(TEnum(["exact", "revisionCompatibleHashMismatch", "schemaIdMismatch", "clientTooOld", "serverTooOld"])),
        Req(TInt), Req(TInt), Opt(TStr)])
  }

  function ErrorCodeTy(): Ty {
    TEnum(["auth.unauthenticated", "auth.forbidden", "auth.sessionExpired", "schema.incompatible", "schema.migrationRequired",
      "storage.conflict", "storage.notFound", "stream.appendRejected", "stream.invalidCursor", "sync.protocolError",
      "sync.reconnectExhausted", "blob.tooLarge", "blob.unsupportedContentType", "blob.quotaExceeded", "rateLimit.exceeded",
      "server.internal"])
  }

  function ErrorEnvelopeNames(): (names: Names)
    ensures |names| == 7
  {
    ["code", "message", "requestId", "retryable", "details", "schemaHash", "schemaRevision"]
  }

  function ErrorEnvelopeTy(): Ty {
    Struct(ErrorEnvelopeNames(),
      [Req(ErrorCodeTy()), Req(TStr), Req(TStr), Req(TBool), Opt(TDyn), Opt(TStr), Opt(TInt)])
  }

  function FieldsTy(): Ty {
    TList(Struct(["id", "name", "kind", "required", "ref", "enumValues", "sensitivity"],
      [Req(TInt), Req(TStr), Req(TEnum(["id", "ref", "string", "bool", "timestamp", "int", "bytes", "enum", "json"])), Req(TBool),
        Opt(TStr), Opt(TList(TStr)), Opt(TStr)]))
  }

  function IndexesTy(): Ty { TList(Struct(["id", "name", "fields"], [Req(TInt), Req(TStr), Req(TList(TStr))])) }

  function ObjectsTy(fields: Ty, indexes: Ty): Ty {
    TList(Struct(["id", "name", "fields", "indexes", "mergePolicy"],
      [Req(TInt), Req(TStr), Req(fields), Req(indexes), Opt(TEnum(["lastWriteWins", "versionPrecondition"]))]))
  }

  function StreamsTy(fields: Ty): Ty {
    TList(Struct(["id", "name", "keyFields", "events"],
      [Req(TInt), Req(TStr), Req(fields), Req(TList(TStr))]))
  }

  /** Events and jobs. */
  function PlainsTy(fields: Ty): Ty { TList(Struct(["id", "name", "fields"], [Req(TInt), Req(TStr), Req(fields)])) }

  /** Presences and signals. */
  function KeyedsTy(fields: Ty): Ty {
    TList(Struct(["id", "name", "keyFields", "fields", "ttlMs"],
      [Req(TInt), Req(TStr), Req(fields), Req(fields), Req(TInt)]))
  }

  function BlobsTy(fields: Ty): Ty { TList(Struct(["id", "name", "metadataFields"], [Req(TInt), Req(TStr), Req(fields)])) }

  function ProjectionsTy(fields: Ty, indexes: Ty): Ty {
    TList(Struct(["id", "name", "source", "fields", "indexes"],
      [Req(TInt), Req(TStr), Req(TStr), Req(fields), Req(indexes)]))
  }

  predicate Plural(name: string) { name != "" && name[|name| - 1] == 's' }

  function IdentityNames(): (names: Names)
    ensures |names| == 10 && forall i | 0 <= i < |names| :: !Plural(names[i])
  {
    ["name", "schemaId", "schemaVersion", "schemaRevision", "minimumClientRevision", "minimumServerRevision", "protocol",
      "protocolVersion", "compatibility", "hash"]
  }

  function SectionNames(): (names: Names)
    ensures |names| == 8 && forall i | 0 <= i < |names| :: Plural(names[i])
  {
    ["objects", "streams", "events", "presences", "signals", "blobs", "jobs", "projections"]
  }

  function IdentitySlots(): seq<Slot> {
    [Req(TStr), Req(TStr), Req(TStr), Req(TInt), Req(TInt), Req(TInt), Req(TStr), Req(TInt), Req(TStr), Req(TStr)]
  }

  function RecordSlots(fields: Ty, indexes: Ty): seq<Slot> {
    [Req(ObjectsTy(fields, indexes)), Req(StreamsTy(fields)), Req(PlainsTy(fields)), Req(KeyedsTy(fields))]
  }

  function OtherSlots(fields: Ty, indexes: Ty): seq<Slot> {
    [Req(KeyedsTy(fields)), Req(BlobsTy(fields)), Req(PlainsTy(fields)), Req(ProjectionsTy(fields, indexes))]
  }

  /** What the schema is, then what it declares. */
  function SchemaOf(fields: Ty, indexes: Ty): Ty {
    Struct(IdentityNames() + SectionNames(), IdentitySlots() + (RecordSlots(fields, indexes) + OtherSlots(fields, indexes)))
  }

  function SchemaTy(): Ty { SchemaOf(FieldsTy(), IndexesTy()) }

  function HelloNames(): (names: Names)
    ensures |names| == 6
  {
    ["replicaId", "deviceId", "schemaHash", "knownCursors", "sessionToken", "clientCapabilities"]
  }

  function HelloTy(): Ty {
    Struct(HelloNames(),
      [Req(TStr), Req(TStr), Req(TStr), Req(TCounts), Opt(TStr), Opt(ClientCapabilitiesTy())])
  }

  function SubscribeTy(): Ty {
    Struct(["subscriptionId", "kind", "name", "key", "cursor"],
      [Req(TStr), Req(TEnum(["object", "stream", "presence", "signal", "projection"])), Req(TStr), Opt(TStr), Opt(TInt)])
  }

  function SnapshotTy(): Ty {
    Struct(["subscriptionId", "objects", "cursor"],
      [Req(TStr), Req(TList(PackedRecordTy())), Req(TInt)])
  }

  function StreamPageTy(): Ty {
    Struct(["subscriptionId", "events", "cursor", "hasMore"],
      [Req(TStr), Req(TList(PackedStreamEventTy())), Req(TInt), Req(TBool)])
  }

  function AppendTy(): Ty {
    Struct(["requestId", "stream", "key", "event", "payload"],
      [Req(TStr), Req(TStr), Req(TStr), Req(TStr), Req(TDyn)])
  }

  function AckTy(): Ty { Struct(["requestId", "cursor", "version"], [Req(TStr), Opt(TInt), Opt(TInt)]) }

  function NackTy(): Ty {
    Struct(["requestId", "error", "code", "message"],
      [Req(TStr), Req(ErrorEnvelopeTy()), Opt(ErrorCodeTy()), Opt(TStr)])
  }

  function DeltaTy(): Ty {
    Struct(["objects", "events", "cursor", "removed"],
      [Req(TList(PackedRecordTy())), Req(TList(PackedStreamEventTy())), Req(TInt),
        Opt(TList(Struct(["type", "id"], [Req(TStr), Req(TStr)])))])
  }

  /** Presence updates and signals sent. */
  function KeyedValueTy(): Ty { Struct(["requestId", "name", "key", "value"], [Req(TStr), Req(TStr), Req(TStr), Req(TDyn)]) }

  function PresenceClearTy(): Ty { Struct(["requestId", "name", "key"], [Req(TStr), Req(TStr), Req(TStr)]) }

  function PresenceDeltaTy(): Ty {
    Struct(["subscriptionId", "records", "cleared"],
      [Req(TStr), Req(TList(PackedRecordTy())), Req(TList(TStr))])
  }

  function SignalDeliverTy(): Ty { Struct(["envelope"], [Req(PackedRecordTy())]) }

  function CursorCommitTy(): Ty { Struct(["subscriptionId", "cursor"], [Req(TStr), Req(TInt)]) }

  function PingTy(): Ty { Struct(["sentAt"], [Req(TInt)]) }

  function PongTy(): Ty { Struct(["sentAt", "receivedAt"], [Req(TInt), Req(TInt)]) }

  function SyncStatusTy(): Ty { Struct(["connected", "cursors", "inFlight"], [Req(TBool), Req(TCounts), Req(TInt)]) }

  function HelloAckNames(): (names: Names)
    ensures |names| == 5
  {
    ["schemaHash", "schemaId", "schemaRevision", "schemaCompatibility", "serverCapabilities"]
  }

  function HelloAckTy(): Ty {
    Struct(HelloAckNames(),
      [Req(TStr), Req(TStr), Req(TInt), Req(CompatibilityTy()), Req(ServerCapabilitiesTy())])
  }

  function ProjectionDeltaTy(): Ty {
    Struct(["projection", "changes"],
      [Req(TStr), Req(TList(Struct(["key", "value"], [Req(TStr), Req(TDyn)])))])
  }

  function ObjectUpsertTy(): Ty {
    Struct(["requestId", "objectType", "objectId", "value", "expectedVersion"],
      [Req(TStr), Req(TStr), Req(TStr), Req(TDyn), Opt(TInt)])
  }

  /** The payload types of the two call frames, which stay open. */
  datatype CallTypes = CallTypes(command: Ty, result: Ty)

  function PayloadTy(calls: CallTypes, k: FrameKind): Ty {
    match k
    case Hello => HelloTy()
    case Schema => SchemaTy()
    case Subscribe => SubscribeTy()
    case Snapshot => SnapshotTy()
    case StreamPage => StreamPageTy()
    case Append => AppendTy()
    case Ack => AckTy()
    case Nack => NackTy()
    case Delta => DeltaTy()
    case PresenceSet => KeyedValueTy()
    case PresenceClear => PresenceClearTy()
    case PresenceDelta => PresenceDeltaTy()
    case SignalSend => KeyedValueTy()
    case SignalDeliver => SignalDeliverTy()
    case CursorCommit => CursorCommitTy()
    case Ping => PingTy()
    case Pong => PongTy()
    case SyncStatus => SyncStatusTy()
    case HelloAck => HelloAckTy()
    case ProjectionDelta => ProjectionDeltaTy()
    case ObjectUpsert => ObjectUpsertTy()
    case CallCommand => calls.command
    case CallCommandResult => calls.result
  }

  // ---- a schema holds nothing untyped ----

  lemma FieldsTyped()
    ensures Typed(FieldsTy()) && Typed(IndexesTy())
  {
    assert Typed(FieldsTy().elem) && Typed(IndexesTy().elem);
  }

  ghost predicate AllTyped(slots: seq<Slot>) { forall i | 0 <= i < |slots| :: SlotTyped(slots[i]) }

  lemma IndexedTyped(fields: Ty, indexes: Ty)
    requires Typed(fields) && Typed(indexes)
    ensures Typed(ObjectsTy(fields, indexes)) && Typed(ProjectionsTy(fields, indexes))
  {
    assert Typed(ObjectsTy(fields, indexes).elem) && Typed(ProjectionsTy(fields, indexes).elem);
  }

  lemma KeyedTyped(fields: Ty)
    requires Typed(fields)
    ensures Typed(StreamsTy(fields)) && Typed(KeyedsTy(fields))
  {
    assert Typed(StreamsTy(fields).elem) && Typed(KeyedsTy(fields).elem);
  }

  lemma PlainTyped(fields: Ty)
    requires Typed(fields)
    ensures Typed(PlainsTy(fields)) && Typed(BlobsTy(fields))
  {
    assert AllTyped([Req(TInt), Req(TStr), Req(fields)]);
  }

  lemma FourTyped(a: Ty, b: Ty, c: Ty, d: Ty)
    requires Typed(a) && Typed(b) && Typed(c) && Typed(d)
    ensures AllTyped([Req(a), Req(b), Req(c), Req(d)])
  {
  }

  lemma SectionsTyped(fields: Ty, indexes: Ty)
    requires Typed(fields) && Typed(indexes)
    ensures AllTyped(RecordSlots(fields, indexes)) && AllTyped(OtherSlots(fields, indexes))
  {
    IndexedTyped(fields, indexes);
    KeyedTyped(fields);
    PlainTyped(fields);
    FourTyped(ObjectsTy(fields, indexes), StreamsTy(fields), PlainsTy(fields), KeyedsTy(fields));
    FourTyped(KeyedsTy(fields), BlobsTy(fields), PlainsTy(fields), ProjectionsTy(fields, indexes));
  }

  lemma SchemaOfTyped(fields: Ty, indexes: Ty)
    requires Typed(fields) && Typed(indexes)
    ensures Typed(SchemaOf(fields, indexes))
  {
    SectionsTyped(fields, indexes);
    assert AllTyped(IdentitySlots());
  }

  lemma SchemaTyped()
    ensures Typed(SchemaTy())
  {
    FieldsTyped();
    SchemaOfTyped(FieldsTy(), IndexesTy());
  }
}
