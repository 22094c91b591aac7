/** Frames: a kind number and a typed payload in a two-element array. */
module Frames {
  import opened Text
  import opened Values
  import opened WireTypes
  import opened Payloads

  /** The payload type of each kind. */
  type Table = FrameKind -> Ty

  function FrickTable(calls: CallTypes): Table { k => PayloadTy(calls, k) }

  datatype Frame = Frame(kind: FrameKind, payload: Data)

  datatype FrameError = NotAFrame | UnknownKind(number: int) | BadPayload(kind: FrameKind)

  datatype FrameResult = Decoded(frame: Frame) | Refused(error: FrameError)

  ghost predicate WellTyped(table: Table, f: Frame) { HasType(table(f.kind), f.payload) }

  /** Schemas travel in key-sorted form. */
  function EncodePayload(table: Table, f: Frame): Value
    requires WellTyped(table, f)
  {
    var v := Encode(table(f.kind), f.payload);
    if f.kind.Schema? then StableValue(v) else v
  }

  function EncodeFrame(table: Table, f: Frame): Value
    requires WellTyped(table, f)
  {
    Array([Integer(KindNumber(f.kind)), EncodePayload(table, f)])
  }

  function DecodeFrame(table: Table, v: Value): FrameResult {
    if !v.Array? || |v.items| != 2 || !v.items[0].Integer? || v.items[0].number < 0 then Refused(NotAFrame)
    else
      match KindOf(v.items[0].number)
      case None => Refused(UnknownKind(v.items[0].number))
      case Some(kind) =>
        match Decode(table(kind), v.items[1])
        case None => Refused(BadPayload(kind))
        case Some(d) => Decoded(Frame(kind, d))
  }

  lemma KindRoundTrip(k: FrameKind)
    ensures KindOf(KindNumber(k)) == Some(k)
  {
  }

  lemma PayloadReads(table: Table, f: Frame)
    requires Typed(table(Schema)) && WellTyped(table, f)
    ensures Decode(table(f.kind), EncodePayload(table, f)) == Some(Settled(table(f.kind), f.payload))
  {
    DecodeEncode(table(f.kind), f.payload);
    if f.kind.Schema? {
      CanonicalIsVariant(table(Schema), f.payload);
      DecodeTolerant(table(Schema), Encode(table(Schema), f.payload), EncodePayload(table, f));
    }
  }

  /**
   * Reorder struct entries and add entries with unknown names at any depth: the frame still comes
   * back, with absent optionals absent. It comes back unchanged exactly when no optional field
   * holds an explicit nil.
   */
  lemma FrameRoundTrip(table: Table, f: Frame, payload: Value)
    requires Typed(table(Schema)) && WellTyped(table, f)
    requires Variant(table(f.kind), EncodePayload(table, f), payload)
    ensures var r := DecodeFrame(table, Array([Integer(KindNumber(f.kind)), payload]));
            && r == Decoded(Frame(f.kind, Settled(table(f.kind), f.payload)))
            && (r == Decoded(f) <==> NoOptionalNil(table(f.kind), f.payload))
  {
    PayloadReads(table, f);
    DecodeTolerant(table(f.kind), EncodePayload(table, f), payload);
    SettledFixed(table(f.kind), f.payload);
    KindRoundTrip(f.kind);
  }

  /** Every decodable tree holds a well-typed frame, and re-encoding that frame loses nothing. */
  lemma FrameReadWriteRead(table: Table, v: Value)
    requires Typed(table(Schema)) && DecodeFrame(table, v).Decoded?
    ensures WellTyped(table, DecodeFrame(table, v).frame)
    ensures DecodeFrame(table, EncodeFrame(table, DecodeFrame(table, v).frame)) == DecodeFrame(table, v)
  {
    var f := DecodeFrame(table, v).frame;
    DecodeSound(table(f.kind), v.items[1]);
    SettledFixed(table(f.kind), f.payload);
    PayloadReads(table, f);
    KindRoundTrip(f.kind);
  }

  /** Frames without explicit nils in optional fields have distinct encodings. */
  lemma FrameEncodingInjective(table: Table, f: Frame, g: Frame)
    requires Typed(table(Schema)) && WellTyped(table, f) && WellTyped(table, g)
    requires NoOptionalNil(table(f.kind), f.payload) && NoOptionalNil(table(g.kind), g.payload)
    requires EncodeFrame(table, f) == EncodeFrame(table, g)
    ensures f == g
  {
    PayloadReads(table, f);
    PayloadReads(table, g);
    SettledFixed(table(f.kind), f.payload);
    SettledFixed(table(g.kind), g.payload);
    KindRoundTrip(f.kind);
    KindRoundTrip(g.kind);
    var a, b := EncodeFrame(table, f).items, EncodeFrame(table, g).items;
    assert a[0] == b[0] && a[1] == b[1];
  }

  /** The protocol's own frames, whatever the call payloads are; schemas travel key-sorted at every depth. */
  lemma FrickFrames(calls: CallTypes, f: Frame, payload: Value)
    requires WellTyped(FrickTable(calls), f) && NoOptionalNil(PayloadTy(calls, f.kind), f.payload)
    requires Variant(PayloadTy(calls, f.kind), EncodePayload(FrickTable(calls), f), payload)
    ensures DecodeFrame(FrickTable(calls), Array([Integer(KindNumber(f.kind)), payload])) == Decoded(f)
    ensures f.kind.Schema? ==>
            var sent := EncodePayload(FrickTable(calls), f); KeysAscend(sent) && StableValue(sent) == sent
  {
    SchemaTyped();
    FrameRoundTrip(FrickTable(calls), f, payload);
    var v := Encode(PayloadTy(calls, f.kind), f.payload);
    StableAscends(v);
    AscendingStays(StableValue(v));
  }

  // ---- frames written out ----

  lemma OneField(name: string, s: Slot, d: Option<Data>)
    requires FieldHasType(s, d)
    ensures EncodeFields([name], [s], [d]) == EncodeField(name, s, d)
  {
    assert EncodeFields([], [], []) == [];
  }

  lemma MoreFields(name: string, names: seq<string>, s: Slot, slots: seq<Slot>, d: Option<Data>, ds: seq<Option<Data>>)
    requires |names| == |slots| && FieldHasType(s, d) && HaveTypes(slots, ds)
    ensures HaveTypes([s] + slots, [d] + ds)
    ensures EncodeFields([name] + names, [s] + slots, [d] + ds) == EncodeField(name, s, d) + EncodeFields(names, slots, ds)
  {
    assert ([name] + names)[1..] == names && ([s] + slots)[1..] == slots && ([d] + ds)[1..] == ds;
  }

  lemma StructFrame(table: Table, kind: FrameKind, names: Names, slots: seq<Slot>, ds: seq<Option<Data>>, es: seq<Entry>)
    requires !kind.Schema? && table(kind) == TStruct(names, slots) && |names| == |slots| && HaveTypes(slots, ds)
    requires EncodeFields(names, slots, ds) == es
    ensures WellTyped(table, Frame(kind, DStruct(ds)))
    ensures EncodeFrame(table, Frame(kind, DStruct(ds))) == Array([Integer(KindNumber(kind)), Map(es)])
  {
  }

  function Int(n: int): Option<Data> { Some(DInt(n)) }

  lemma PingFrame(calls: CallTypes, sentAt: int)
    requires IsI64(sentAt)
    ensures WellTyped(FrickTable(calls), Frame(Ping, DStruct([Int(sentAt)])))
    ensures EncodeFrame(FrickTable(calls), Frame(Ping, DStruct([Int(sentAt)]))) ==
            Array([Integer(15), Map([Entry(Txt("sentAt"), Integer(sentAt))])])
  {
    OneField("sentAt", Req(TInt), Int(sentAt));
    StructFrame(FrickTable(calls), Ping, ["sentAt"], [Req(TInt)], [Int(sentAt)], [Entry(Txt("sentAt"), Integer(sentAt))]);
  }

  lemma PongFields(sentAt: int, receivedAt: int)
    requires IsI64(sentAt) && IsI64(receivedAt)
    ensures HaveTypes([Req(TInt), Req(TInt)], [Int(sentAt), Int(receivedAt)])
    ensures EncodeFields(["sentAt", "receivedAt"], [Req(TInt), Req(TInt)], [Int(sentAt), Int(receivedAt)]) ==
            [Entry(Txt("sentAt"), Integer(sentAt)), Entry(Txt("receivedAt"), Integer(receivedAt))]
  {
    OneField("receivedAt", Req(TInt), Int(receivedAt));
    MoreFields("sentAt", ["receivedAt"], Req(TInt), [Req(TInt)], Int(sentAt), [Int(receivedAt)]);
    assert ["sentAt"] + ["receivedAt"] == ["sentAt", "receivedAt"];
  }

  lemma PongFrame(calls: CallTypes, sentAt: int, receivedAt: int)
    requires IsI64(sentAt) && IsI64(receivedAt)
    ensures WellTyped(FrickTable(calls), Frame(Pong, DStruct([Int(sentAt), Int(receivedAt)])))
    ensures EncodeFrame(FrickTable(calls), Frame(Pong, DStruct([Int(sentAt), Int(receivedAt)]))) ==
            Array([Integer(16), Map([Entry(Txt("sentAt"), Integer(sentAt)), Entry(Txt("receivedAt"), Integer(receivedAt))])])
  {
    PongFields(sentAt, receivedAt);
    StructFrame(FrickTable(calls), Pong, ["sentAt", "receivedAt"], [Req(TInt), Req(TInt)], [Int(sentAt), Int(receivedAt)],
                [Entry(Txt("sentAt"), Integer(sentAt)), Entry(Txt("receivedAt"), Integer(receivedAt))]);
  }

  predicate IsOptionalI64(n: Option<int>) { n.Some? ==> IsI64(n.value) }

  function OptionalInt(n: Option<int>): Option<Data> { if n.None? then None else Int(n.value) }

  function OptionalEntry(name: string, n: Option<int>): seq<Entry> { if n.None? then [] else [Entry(Txt(name), Integer(n.value))] }

  function AckData(requestId: string, cursor: Option<int>, version: Option<int>): seq<Option<Data>> {
    [Some(DStr(requestId)), OptionalInt(cursor), OptionalInt(version)]
  }

  lemma AckFields(requestId: string, cursor: Option<int>, version: Option<int>)
    requires IsOptionalI64(cursor) && IsOptionalI64(version)
    ensures HaveTypes([Req(TStr), Opt(TInt), Opt(TInt)], AckData(requestId, cursor, version))
    ensures EncodeFields(["requestId", "cursor", "version"], [Req(TStr), Opt(TInt), Opt(TInt)], AckData(requestId, cursor, version)) ==
            [Entry(Txt("requestId"), Txt(requestId))] + (OptionalEntry("cursor", cursor) + OptionalEntry("version", version))
  {
    OneField("version", Opt(TInt), OptionalInt(version));
    MoreFields("cursor", ["version"], Opt(TInt), [Opt(TInt)], OptionalInt(cursor), [OptionalInt(version)]);
    MoreFields("requestId", ["cursor"] + ["version"], Req(TStr), [Opt(TInt)] + [Opt(TInt)],
               Some(DStr(requestId)), [OptionalInt(cursor)] + [OptionalInt(version)]);
    assert ["requestId"] + (["cursor"] + ["version"]) == ["requestId", "cursor", "version"];
    assert [Req(TStr)] + ([Opt(TInt)] + [Opt(TInt)]) == [Req(TStr), Opt(TInt), Opt(TInt)];
    assert [Some(DStr(requestId))] + ([OptionalInt(cursor)] + [OptionalInt(version)]) == AckData(requestId, cursor, version);
  }

  /** An absent cursor or version leaves no entry at all. */
  lemma AckFrame(calls: CallTypes, requestId: string, cursor: Option<int>, version: Option<int>)
    requires IsOptionalI64(cursor) && IsOptionalI64(version)
    ensures WellTyped(FrickTable(calls), Frame(Ack, DStruct(AckData(requestId, cursor, version))))
    ensures EncodeFrame(FrickTable(calls), Frame(Ack, DStruct(AckData(requestId, cursor, version)))) ==
            Array([Integer(6), Map([Entry(Txt("requestId"), Txt(requestId))] + (OptionalEntry("cursor", cursor) + OptionalEntry("version", version)))])
  {
    AckFields(requestId, cursor, version);
    StructFrame(FrickTable(calls), Ack, ["requestId", "cursor", "version"], [Req(TStr), Opt(TInt), Opt(TInt)], AckData(requestId, cursor, version),
                [Entry(Txt("requestId"), Txt(requestId))] + (OptionalEntry("cursor", cursor) + OptionalEntry("version", version)));
  }

  function NilDetails(): seq<Option<Data>> {
    [Some(DStr("server.internal")), Some(DStr("m")), Some(DStr("r")), Some(DBool(true)), Some(DDyn(Nil)), None, None]
  }

  lemma CodeFits()
    ensures HasType(ErrorCodeTy(), DStr("server.internal"))
  {
    assert ErrorCodeTy().options[15] == "server.internal";
  }

  lemma NilDetailsFit()
    ensures HasType(ErrorEnvelopeTy(), DStruct(NilDetails()))
  {
    CodeFits();
  }

  /** An error envelope with `details` set to nil does not come back as it was sent. */
  lemma NilDetailsAreDropped()
    ensures HasType(ErrorEnvelopeTy(), DStruct(NilDetails()))
    ensures Decode(ErrorEnvelopeTy(), Encode(ErrorEnvelopeTy(), DStruct(NilDetails()))) != Some(DStruct(NilDetails()))
  {
    NilDetailsFit();
    RoundTrip(ErrorEnvelopeTy(), DStruct(NilDetails()));
    assert IsNil(ErrorEnvelopeTy().slots[4], NilDetails()[4]);
    assert !FieldNoOptionalNil(ErrorEnvelopeTy().slots[4], NilDetails()[4]);
  }
}
