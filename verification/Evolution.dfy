/** What the linter, the codec and the validator promise together: records keep their meaning. */
module Evolution {
  import opened Text
  import opened Values
  import opened Schemas
  import opened Assignments
  import opened Codec
  import opened Lint
  import opened LintRules
  import opened Validation

  // ---- fields ----

  lemma AlignedEvolves(prev: seq<Field>, curr: seq<Field>, packed: Packed, named: Named)
    requires FieldsEvolve(prev, curr) && Aligned(prev, packed, named)
    ensures Aligned(curr, packed, named)
  {
    forall i | 0 <= i < |packed| ensures Declares(curr, packed[i].0, named[i].0) {
      assert Declares(prev, packed[i].0, named[i].0);
      var p :| p in prev && p.id == packed[i].0 && p.name == named[i].0;
      var c :| c in curr && c.id == p.id && c.name == p.name;
    }
  }

  lemma FieldsKeepReaders(prev: seq<Field>, curr: seq<Field>, packed: Packed, base: Named)
    requires UniqueIds(prev) && UniqueIds(curr) && FieldsEvolve(prev, curr) && UnpackInto(prev, packed, base).Ok?
    ensures UnpackInto(curr, packed, base) == UnpackInto(prev, packed, base)
  {
    var named := NameFields(prev, packed).value;
    NameFieldsAligned(prev, packed, named);
    AlignedEvolves(prev, curr, packed, named);
    NameFieldsAligned(curr, packed, named);
  }

  lemma FieldsKeepWriters(lower: string -> string, prev: seq<Field>, curr: seq<Field>, value: Value)
    requires UniqueNames(lower, prev) && UniqueNames(lower, curr) && FieldsEvolve(prev, curr) && PackFields(prev, value).Ok?
    ensures PackFields(curr, value) == PackFields(prev, value)
  {
    if value.Map? {
      var packed := PackFields(prev, value).value;
      PackEntriesAligned(lower, prev, value.entries, packed);
      AlignedEvolves(prev, curr, packed, NamesOf(value.entries));
      PackEntriesAligned(lower, curr, value.entries, packed);
    }
  }

  // ---- definitions ----

  lemma SuccessorOf<B(!new)>(prev: seq<Carrier<B>>, curr: seq<Carrier<B>>, bodies: (B, B) -> bool, p: Carrier<B>) returns (c: Carrier<B>)
    requires TypesEvolve(prev, curr, bodies) && p in prev
    ensures c in curr && c.id == p.id && c.name == p.name && bodies(p.body, c.body)
  {
    c :| c in curr && c.id == p.id && c.name == p.name && bodies(p.body, c.body);
  }

  /** The definition found under an id has a successor found under the same id. */
  lemma SuccessorById<B(!new)>(prev: seq<Carrier<B>>, curr: seq<Carrier<B>>, bodies: (B, B) -> bool, id: int) returns (p: Carrier<B>, c: Carrier<B>)
    requires UniqueIds(curr) && TypesEvolve(prev, curr, bodies) && ById(prev, id).Some?
    ensures ById(prev, id) == Some(p) && ById(curr, id) == Some(c)
    ensures p in prev && c in curr && p.name == c.name && p.id == c.id && bodies(p.body, c.body)
  {
    p := ById(prev, id).value;
    c :| c in curr && c.id == p.id && c.name == p.name && bodies(p.body, c.body);
    LookupById(curr, c);
  }

  lemma SuccessorByName<B(!new)>(lower: string -> string, prev: seq<Carrier<B>>, curr: seq<Carrier<B>>, bodies: (B, B) -> bool, name: string)
    returns (p: Carrier<B>, c: Carrier<B>)
    requires UniqueNames(lower, curr) && TypesEvolve(prev, curr, bodies) && ByName(prev, name).Some?
    ensures ByName(prev, name) == Some(p) && ByName(curr, name) == Some(c)
    ensures p in prev && c in curr && p.name == c.name && p.id == c.id && bodies(p.body, c.body)
  {
    p := ByName(prev, name).value;
    c :| c in curr && c.id == p.id && c.name == p.name && bodies(p.body, c.body);
    LookupByName(lower, curr, c);
  }

  // ---- each collection ----

  ghost predicate ObjectsUnique(lower: string -> string, ts: seq<ObjectDef>) {
    Unique(lower, ts) && forall t | t in ts :: Unique(lower, t.body.fields)
  }

  ghost predicate KeyedUnique(lower: string -> string, ts: seq<KeyedDef>) {
    Unique(lower, ts) && forall t | t in ts :: Unique(lower, t.body.fields)
  }

  ghost predicate EventsUnique(lower: string -> string, ts: seq<EventDef>) {
    Unique(lower, ts) && forall t | t in ts :: Unique(lower, t.body)
  }

  lemma ObjectsKeepReaders(lower: string -> string, prev: seq<ObjectDef>, curr: seq<ObjectDef>, p: PackedRecord)
    requires ObjectsUnique(lower, prev) && ObjectsUnique(lower, curr) && TypesEvolve(prev, curr, ObjectEvolves)
    requires UnpackObject(prev, p).Ok?
    ensures UnpackObject(curr, p) == UnpackObject(prev, p)
  {
    var a, b := SuccessorById(prev, curr, ObjectEvolves, p.typeId);
    FieldsKeepReaders(a.body.fields, b.body.fields, p.fields, IdBase(p.key));
  }

  lemma ObjectsKeepWriters(lower: string -> string, prev: seq<ObjectDef>, curr: seq<ObjectDef>, u: Unpacked)
    requires ObjectsUnique(lower, prev) && ObjectsUnique(lower, curr) && TypesEvolve(prev, curr, ObjectEvolves)
    requires PackObject(prev, u.typeName, u.key, u.value).Ok?
    ensures PackObject(curr, u.typeName, u.key, u.value) == PackObject(prev, u.typeName, u.key, u.value)
  {
    var a, b := SuccessorByName(lower, prev, curr, ObjectEvolves, u.typeName);
    FieldsKeepWriters(lower, a.body.fields, b.body.fields, u.value);
  }

  lemma KeyedKeepReaders(lower: string -> string, prev: seq<KeyedDef>, curr: seq<KeyedDef>, what: string, p: PackedRecord)
    requires KeyedUnique(lower, prev) && KeyedUnique(lower, curr) && TypesEvolve(prev, curr, KeyedEvolves)
    requires UnpackKeyed(prev, what, p).Ok?
    ensures UnpackKeyed(curr, what, p) == UnpackKeyed(prev, what, p)
  {
    var a, b := SuccessorById(prev, curr, KeyedEvolves, p.typeId);
    FieldsKeepReaders(a.body.fields, b.body.fields, p.fields, []);
  }

  lemma KeyedKeepWriters(lower: string -> string, prev: seq<KeyedDef>, curr: seq<KeyedDef>, what: string, u: Unpacked)
    requires KeyedUnique(lower, prev) && KeyedUnique(lower, curr) && TypesEvolve(prev, curr, KeyedEvolves)
    requires PackKeyed(prev, what, u.typeName, u.key, u.value).Ok?
    ensures PackKeyed(curr, what, u.typeName, u.key, u.value) == PackKeyed(prev, what, u.typeName, u.key, u.value)
  {
    var a, b := SuccessorByName(lower, prev, curr, KeyedEvolves, u.typeName);
    FieldsKeepWriters(lower, a.body.fields, b.body.fields, u.value);
  }

  lemma EventsKeepReaders(
    lower: string -> string, ps: seq<StreamDef>, pe: seq<EventDef>, cs: seq<StreamDef>, ce: seq<EventDef>, p: PackedStreamEvent)
    requires Unique(lower, ps) && Unique(lower, cs) && TypesEvolve(ps, cs, StreamEvolves)
    requires EventsUnique(lower, pe) && EventsUnique(lower, ce) && TypesEvolve(pe, ce, FieldsEvolve)
    requires UnpackStreamEvent(ps, pe, p).Ok?
    ensures UnpackStreamEvent(cs, ce, p) == UnpackStreamEvent(ps, pe, p)
  {
    var _, _ := SuccessorById(ps, cs, StreamEvolves, p.streamTypeId);
    var a, b := SuccessorById(pe, ce, FieldsEvolve, p.eventTypeId);
    FieldsKeepReaders(a.body, b.body, p.fields, []);
  }

  lemma EventsKeepWriters(
    lower: string -> string, ps: seq<StreamDef>, pe: seq<EventDef>, cs: seq<StreamDef>, ce: seq<EventDef>, input: StreamEventInput)
    requires Unique(lower, ps) && Unique(lower, cs) && TypesEvolve(ps, cs, StreamEvolves)
    requires EventsUnique(lower, pe) && EventsUnique(lower, ce) && TypesEvolve(pe, ce, FieldsEvolve)
    requires PackStreamEvent(ps, pe, input).Ok?
    ensures PackStreamEvent(cs, ce, input) == PackStreamEvent(ps, pe, input)
  {
    var _, _ := SuccessorByName(lower, ps, cs, StreamEvolves, input.stream);
    var a, b := SuccessorByName(lower, pe, ce, FieldsEvolve, input.event);
    FieldsKeepWriters(lower, a.body, b.body, input.payload);
  }

  // ---- every kind of record ----

  datatype Wire = WObject(record: PackedRecord) | WPresence(record: PackedRecord) | WSignal(record: PackedRecord) | WEvent(event: PackedStreamEvent)

  datatype Content =
    | CObject(item: Unpacked) | CPresence(item: Unpacked) | CSignal(item: Unpacked) | CEvent(input: StreamEventInput)

  function Unpack(s: Schema, w: Wire): Result<Content> {
    match w
    case WObject(p) => (match UnpackObject(s.objects, p) case Ok(u) => Ok(CObject(u)) case Err(e) => Err(e))
    case WPresence(p) => (match UnpackKeyed(s.presences, "presence", p) case Ok(u) => Ok(CPresence(u)) case Err(e) => Err(e))
    case WSignal(p) => (match UnpackKeyed(s.signals, "signal", p) case Ok(u) => Ok(CSignal(u)) case Err(e) => Err(e))
    case WEvent(p) => (match UnpackStreamEvent(s.streams, s.events, p) case Ok(u) => Ok(CEvent(u)) case Err(e) => Err(e))
  }

  function Pack(s: Schema, c: Content): Result<Wire> {
    match c
    case CObject(u) => (match PackObject(s.objects, u.typeName, u.key, u.value) case Ok(p) => Ok(WObject(p)) case Err(e) => Err(e))
    case CPresence(u) => (match PackKeyed(s.presences, "presence", u.typeName, u.key, u.value) case Ok(p) => Ok(WPresence(p)) case Err(e) => Err(e))
    case CSignal(u) => (match PackKeyed(s.signals, "signal", u.typeName, u.key, u.value) case Ok(p) => Ok(WSignal(p)) case Err(e) => Err(e))
    case CEvent(input) => (match PackStreamEvent(s.streams, s.events, input) case Ok(p) => Ok(WEvent(p)) case Err(e) => Err(e))
  }

  /** The schema passes validation. */
  predicate Validated(lower: string -> string, s: Schema) { SchemaVerdict(lower, s).None? }

  /** Two validated revisions with no breaking finding between them. */
  ghost predicate CleanStep(lower: string -> string, prev: Schema, curr: Schema) {
    Validated(lower, prev) && Validated(lower, curr) && CountBreaking(LintFindings(curr, prev)) == 0
  }

  lemma ValidatedUnique(lower: string -> string, s: Schema)
    requires Validated(lower, s)
    ensures RecordsUnique(lower, s)
  {
    ValidationExact(lower, s);
  }

  lemma CleanStepEvolves(lower: string -> string, prev: Schema, curr: Schema)
    requires CleanStep(lower, prev, curr)
    ensures Evolves(prev, curr)
  {
    ValidationExact(lower, prev);
    ValidationExact(lower, curr);
    WellFormedIdsUnique(lower, prev);
    WellFormedIdsUnique(lower, curr);
    LintExact(curr, prev);
  }

  lemma EvolvedReaders(lower: string -> string, prev: Schema, curr: Schema, w: Wire)
    requires RecordsUnique(lower, prev) && RecordsUnique(lower, curr) && Evolves(prev, curr) && Unpack(prev, w).Ok?
    ensures Unpack(curr, w) == Unpack(prev, w)
  {
    match w
    case WObject(p) => ObjectsKeepReaders(lower, prev.objects, curr.objects, p);
    case WPresence(p) => KeyedKeepReaders(lower, prev.presences, curr.presences, "presence", p);
    case WSignal(p) => KeyedKeepReaders(lower, prev.signals, curr.signals, "signal", p);
    case WEvent(p) => EventsKeepReaders(lower, prev.streams, prev.events, curr.streams, curr.events, p);
  }

  lemma EvolvedWriters(lower: string -> string, prev: Schema, curr: Schema, c: Content)
    requires RecordsUnique(lower, prev) && RecordsUnique(lower, curr) && Evolves(prev, curr) && Pack(prev, c).Ok?
    ensures Pack(curr, c) == Pack(prev, c)
  {
    match c
    case CObject(u) => ObjectsKeepWriters(lower, prev.objects, curr.objects, u);
    case CPresence(u) => KeyedKeepWriters(lower, prev.presences, curr.presences, "presence", u);
    case CSignal(u) => KeyedKeepWriters(lower, prev.signals, curr.signals, "signal", u);
    case CEvent(input) => EventsKeepWriters(lower, prev.streams, prev.events, curr.streams, curr.events, input);
  }

  /** Readers: whatever unpacks under the old schema unpacks to the same thing under the new one. */
  lemma ReadersKeepWorking(lower: string -> string, prev: Schema, curr: Schema, w: Wire)
    requires CleanStep(lower, prev, curr) && Unpack(prev, w).Ok?
    ensures Unpack(curr, w) == Unpack(prev, w)
  {
    CleanStepEvolves(lower, prev, curr);
    ValidatedUnique(lower, prev);
    ValidatedUnique(lower, curr);
    EvolvedReaders(lower, prev, curr, w);
  }

  /** Writers: whatever packs under the old schema packs to the same tuple under the new one. */
  lemma WritersKeepWorking(lower: string -> string, prev: Schema, curr: Schema, c: Content)
    requires CleanStep(lower, prev, curr) && Pack(prev, c).Ok?
    ensures Pack(curr, c) == Pack(prev, c)
  {
    CleanStepEvolves(lower, prev, curr);
    ValidatedUnique(lower, prev);
    ValidatedUnique(lower, curr);
    EvolvedWriters(lower, prev, curr, c);
  }

  // ---- whole histories ----

  ghost predicate Along<S>(h: seq<S>, ok: S -> bool, step: (S, S) -> bool) {
    && (forall i | 0 <= i < |h| :: ok(h[i]))
    && (forall i | 0 < i < |h| :: step(h[i - 1], h[i]))
  }

  function ValidatedBy(lower: string -> string): Schema -> bool { s => Validated(lower, s) }

  predicate Unbroken(prev: Schema, curr: Schema) { CountBreaking(LintFindings(curr, prev)) == 0 }

  /** Validated revisions, each with no breaking finding against its predecessor. */
  ghost predicate CleanHistory(lower: string -> string, h: seq<Schema>) { Along(h, ValidatedBy(lower), Unbroken) }

  /** What every step keeps, the chain keeps. */
  lemma {:induction false} ChainKeeps<S, R(!new)>(h: seq<S>, view: S -> R, good: R -> bool, i: nat, j: nat)
    requires i <= j < |h| && good(view(h[i]))
    requires forall k | i < k <= j :: good(view(h[k - 1])) ==> view(h[k]) == view(h[k - 1])
    ensures view(h[j]) == view(h[i])
    decreases j
  {
    if i < j {
      ChainKeeps(h, view, good, i, j - 1);
    }
  }

  lemma HistoryStep(lower: string -> string, h: seq<Schema>, k: nat)
    requires CleanHistory(lower, h) && 0 < k < |h|
    ensures CleanStep(lower, h[k - 1], h[k])
  {
  }

  /** However many revisions later, old records still read the same. */
  lemma HistoryKeepsReaders(lower: string -> string, h: seq<Schema>, i: nat, j: nat, w: Wire)
    requires CleanHistory(lower, h) && i <= j < |h| && Unpack(h[i], w).Ok?
    ensures Unpack(h[j], w) == Unpack(h[i], w)
  {
    var view := (s: Schema) => Unpack(s, w);
    var good := (r: Result<Content>) => r.Ok?;
    forall k | i < k <= j ensures good(view(h[k - 1])) ==> view(h[k]) == view(h[k - 1]) {
      HistoryStep(lower, h, k);
      if good(view(h[k - 1])) {
        ReadersKeepWorking(lower, h[k - 1], h[k], w);
      }
    }
    ChainKeeps(h, view, good, i, j);
  }

  lemma HistoryKeepsWriters(lower: string -> string, h: seq<Schema>, i: nat, j: nat, c: Content)
    requires CleanHistory(lower, h) && i <= j < |h| && Pack(h[i], c).Ok?
    ensures Pack(h[j], c) == Pack(h[i], c)
  {
    var view := (s: Schema) => Pack(s, c);
    var good := (r: Result<Wire>) => r.Ok?;
    forall k | i < k <= j ensures good(view(h[k - 1])) ==> view(h[k]) == view(h[k - 1]) {
      HistoryStep(lower, h, k);
      if good(view(h[k - 1])) {
        WritersKeepWorking(lower, h[k - 1], h[k], c);
      }
    }
    ChainKeeps(h, view, good, i, j);
  }

  ghost predicate PackableContent(c: Content) { Packable(if c.CEvent? then c.input.payload else c.item.value) }

  /** What a reader sees of `c`; it mentions no schema. */
  ghost function Delivered(c: Content): Content
    requires PackableContent(c)
  {
    match c
    case CObject(u) => CObject(u.(value := Materialise(IdBase(u.key), u.value)))
    case CPresence(u) => CPresence(u.(value := Materialise([], u.value)))
    case CSignal(u) => CSignal(u.(value := Materialise([], u.value)))
    case CEvent(input) => CEvent(input.(payload := Materialise([], input.payload)))
  }

  ghost predicate RecordsUnique(lower: string -> string, s: Schema) {
    && ObjectsUnique(lower, s.objects) && Unique(lower, s.streams) && EventsUnique(lower, s.events)
    && KeyedUnique(lower, s.presences) && KeyedUnique(lower, s.signals)
  }

  lemma UniqueRoundTrip(lower: string -> string, s: Schema, c: Content)
    requires RecordsUnique(lower, s) && Pack(s, c).Ok?
    ensures PackableContent(c) && Unpack(s, Pack(s, c).value) == Ok(Delivered(c))
  {
    match c
    case CObject(u) => ObjectRoundTrip(lower, s.objects, u.typeName, u.key, u.value);
    case CPresence(u) => KeyedRoundTrip(lower, s.presences, "presence", u.typeName, u.key, u.value);
    case CSignal(u) => KeyedRoundTrip(lower, s.signals, "signal", u.typeName, u.key, u.value);
    case CEvent(input) => StreamEventRoundTrip(lower, s.streams, s.events, input);
  }

  /** Under a validated schema, a reader sees exactly what was delivered. */
  lemma RoundTrip(lower: string -> string, s: Schema, c: Content)
    requires Validated(lower, s) && Pack(s, c).Ok?
    ensures PackableContent(c) && Unpack(s, Pack(s, c).value) == Ok(Delivered(c))
  {
    ValidatedUnique(lower, s);
    UniqueRoundTrip(lower, s, c);
  }

  /**
   * A writer and a reader on any two revisions agree: content that the older of the two can
   * express is packed by the writer, and the reader sees the same thing whichever revisions they run.
   */
  lemma AnyWriterAnyReader(lower: string -> string, h: seq<Schema>, writer: nat, reader: nat, c: Content)
    requires CleanHistory(lower, h) && writer < |h| && reader < |h|
    requires Pack(h[if writer < reader then writer else reader], c).Ok?
    ensures PackableContent(c) && Pack(h[writer], c).Ok?
    ensures Unpack(h[reader], Pack(h[writer], c).value) == Ok(Delivered(c))
  {
    var older := if writer < reader then writer else reader;
    HistoryKeepsWriters(lower, h, older, writer, c);
    RoundTrip(lower, h[older], c);
    HistoryKeepsReaders(lower, h, older, reader, Pack(h[older], c).value);
  }

  // ---- clean steps do not compose into a clean comparison ----

  function EnumField(values: seq<string>): Field { Carrier(1, "f", FieldBody(KEnum, true, None, Some(values), None)) }

  function OneEnum(values: seq<string>): Schema {
    Schema("s", "s", "1", 1, 1, 1, "frick.realtime", 1, "greenfield-cutover", "h",
           [Carrier(1, "O", ObjectBody([EnumField(values)], [], None))], [], [], [], [], [], [], [])
  }

  lemma OneEnumWellFormed(lower: string -> string, values: seq<string>)
    requires values != []
    ensures WellFormed(lower, OneEnum(values))
  {
    assert !IsWhitespace("s"[0]) && !IsWhitespace("1"[0]);
  }

  lemma OneEnumValidated(lower: string -> string, values: seq<string>)
    requires values != []
    ensures Validated(lower, OneEnum(values))
  {
    OneEnumWellFormed(lower, values);
    ValidationExact(lower, OneEnum(values));
  }

  lemma SingleEvolves<B(!new)>(p: Carrier<B>, c: Carrier<B>, bodies: (B, B) -> bool)
    ensures TypesEvolve([p], [c], bodies) <==> c.id == p.id && c.name == p.name && bodies(p.body, c.body)
  {
    assert c in [c] && p in [p];
  }

  lemma OneEnumBodyEvolves(a: seq<string>, b: seq<string>)
    ensures var p, c := OneEnum(a).objects[0], OneEnum(b).objects[0];
            ObjectEvolves(p.body, c.body) <==> EnumEvolves(a, b)
  {
    SingleEvolves(EnumField(a), EnumField(b), FieldBodyEvolves);
    assert HasId([EnumField(a)], 1) by { assert [EnumField(a)][0].id == 1; }
  }

  lemma OneEnumIds(values: seq<string>)
    ensures IdsUnique(OneEnum(values))
  {
  }

  lemma OneEnumRelation(a: seq<string>, b: seq<string>)
    ensures Evolves(OneEnum(a), OneEnum(b)) <==> EnumEvolves(a, b)
  {
    SingleEvolves(OneEnum(a).objects[0], OneEnum(b).objects[0], ObjectEvolves);
    OneEnumBodyEvolves(a, b);
  }

  lemma OneEnumUnbroken(a: seq<string>, b: seq<string>)
    ensures Unbroken(OneEnum(a), OneEnum(b)) <==> EnumEvolves(a, b)
  {
    OneEnumIds(a);
    OneEnumIds(b);
    LintExact(OneEnum(b), OneEnum(a));
    OneEnumRelation(a, b);
  }

  lemma ThreeAlong<S>(a: S, b: S, c: S, ok: S -> bool, step: (S, S) -> bool)
    requires ok(a) && ok(b) && ok(c) && step(a, b) && step(b, c)
    ensures Along([a, b, c], ok, step)
  {
  }

  lemma OneEnumHistory(lower: string -> string, p: seq<string>, q: seq<string>, r: seq<string>)
    requires p != [] && q != [] && r != [] && EnumEvolves(p, q) && EnumEvolves(q, r)
    ensures CleanHistory(lower, [OneEnum(p), OneEnum(q), OneEnum(r)])
  {
    OneEnumValidated(lower, p);
    OneEnumValidated(lower, q);
    OneEnumValidated(lower, r);
    OneEnumUnbroken(p, q);
    OneEnumUnbroken(q, r);
    ThreeAlong(OneEnum(p), OneEnum(q), OneEnum(r), ValidatedBy(lower), Unbroken);
  }

  function ReorderedHistory(): seq<Schema> { [OneEnum(["x"]), OneEnum(["x", "y"]), OneEnum(["y", "x"])] }

  function SampleRecord(): Content { CObject(Unpacked("O", "1", Map([Entry(Txt("f"), Txt("x"))]))) }

  lemma SampleRecordPacks(values: seq<string>)
    ensures Pack(OneEnum(values), SampleRecord()).Ok?
  {
    var entries := [Entry(Txt("f"), Txt("x"))];
    assert entries[..0] == [];
    assert PackEntries([EnumField(values)], entries).Ok?;
  }

  /** A history of clean steps whose ends do not compare clean. */
  lemma LintIsNotTransitive(lower: string -> string)
    ensures CleanHistory(lower, ReorderedHistory()) && !Unbroken(ReorderedHistory()[0], ReorderedHistory()[2])
  {
    EnumEvolutionIsNotTransitive();
    OneEnumHistory(lower, ["x"], ["x", "y"], ["y", "x"]);
    OneEnumUnbroken(["x"], ["y", "x"]);
  }

  lemma ReadAcross(lower: string -> string, h: seq<Schema>, c: Content)
    requires CleanHistory(lower, h) && |h| == 3 && Pack(h[0], c).Ok?
    ensures PackableContent(c) && Unpack(h[2], Pack(h[0], c).value) == Ok(Delivered(c))
  {
    AnyWriterAnyReader(lower, h, 0, 2, c);
  }

  /** A history whose ends the linter calls breaking, across which a record is still read as written. */
  lemma BreakingEndsStillRead(lower: string -> string)
    ensures var h, c := ReorderedHistory(), SampleRecord();
            && CleanHistory(lower, h) && !Unbroken(h[0], h[2])
            && PackableContent(c) && Pack(h[0], c).Ok? && Unpack(h[2], Pack(h[0], c).value) == Ok(Delivered(c))
  {
    LintIsNotTransitive(lower);
    SampleRecordPacks(["x"]);
    ReadAcross(lower, ReorderedHistory(), SampleRecord());
  }
}
