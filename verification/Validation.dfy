/** Schema validation: the loops, the first error they report, and what passing them means. */
module Validation {
  import opened Text
  import opened Schemas

  datatype SchemaError =
    | UnsupportedProtocol(protocol: string)
    | UnsupportedCompatibility(mode: string)
    | BadIdentity(part: string)
    | DuplicateId(what: string, id: int)
    | DuplicateName(what: string, name: string)
    | DuplicateFieldId(owner: string, id: int)
    | DuplicateFieldName(owner: string, name: string)
    | UnknownRefTarget(owner: string, field: string, target: string)
    | UndeclaredEnum(owner: string, field: string)
    | UnknownSensitivity(owner: string, field: string, text: string)
    | UnknownIndexField(owner: string, index: string, field: string)
    | UnknownStreamEvent(event: string, stream: string)
    | UnknownProjectionSource(source: string, projection: string)

  type Verdict = Option<SchemaError>

  /** The verdict of the first check in `[i, n)` that fails. */
  function First(check: nat -> Verdict, i: nat, n: nat): Verdict
    decreases n - i
  {
    if i >= n then None else if check(i).Some? then check(i) else First(check, i + 1, n)
  }

  function Then(a: Verdict, b: Verdict): Verdict { if a.Some? then a else b }

  lemma {:induction false} FirstNone(check: nat -> Verdict, i: nat, n: nat)
    ensures First(check, i, n).None? <==> forall k: nat | i <= k < n :: check(k).None?
    decreases n - i
  {
    if i < n && check(i).None? {
      FirstNone(check, i + 1, n);
    }
  }

  /** The reported error is the earliest one. */
  lemma {:induction false} FirstIsEarliest(check: nat -> Verdict, i: nat, n: nat)
    requires First(check, i, n).Some?
    ensures exists k: nat | i <= k < n :: check(k) == First(check, i, n) && forall j: nat | i <= j < k :: check(j).None?
    decreases n - i
  {
    if check(i).None? {
      FirstIsEarliest(check, i + 1, n);
    }
  }

  // ---- type sets ----

  predicate IdSeen<B>(ts: seq<Carrier<B>>, i: nat)
    requires i < |ts|
  {
    exists j | 0 <= j < i :: ts[j].id == ts[i].id
  }

  predicate NameSeen<B>(lower: string -> string, ts: seq<Carrier<B>>, i: nat)
    requires i < |ts|
  {
    exists j | 0 <= j < i :: lower(ts[j].name) == lower(ts[i].name)
  }

  lemma UniqueUnseen<B>(lower: string -> string, ts: seq<Carrier<B>>)
    ensures Unique(lower, ts) <==> forall j: nat | j < |ts| :: !IdSeen(ts, j) && !NameSeen(lower, ts, j)
  {
    if !Unique(lower, ts) {
      var i, j :| 0 <= i < j < |ts| && (ts[i].id == ts[j].id || lower(ts[i].name) == lower(ts[j].name));
      assert IdSeen(ts, j) || NameSeen(lower, ts, j);
    }
  }

  function TypeCheck<B>(lower: string -> string, ts: seq<Carrier<B>>, what: string): nat -> Verdict {
    (i: nat) =>
      if i >= |ts| then None
      else if IdSeen(ts, i) then Some(DuplicateId(what, ts[i].id))
      else if NameSeen(lower, ts, i) then Some(DuplicateName(what, ts[i].name))
      else None
  }

  function TypeSetVerdict<B>(lower: string -> string, ts: seq<Carrier<B>>, what: string): Verdict {
    First(TypeCheck(lower, ts, what), 0, |ts|)
  }

  lemma TypeSetExact<B>(lower: string -> string, ts: seq<Carrier<B>>, what: string)
    ensures TypeSetVerdict(lower, ts, what).None? <==> Unique(lower, ts)
  {
    var check := TypeCheck(lower, ts, what);
    FirstNone(check, 0, |ts|);
    UniqueUnseen(lower, ts);
    assert forall j: nat | j < |ts| :: check(j).None? <==> !IdSeen(ts, j) && !NameSeen(lower, ts, j);
  }

  method ValidateTypeSet<B>(lower: string -> string, ts: seq<Carrier<B>>, what: string) returns (r: Verdict)
    ensures r == TypeSetVerdict(lower, ts, what)
  {
    var ids: set<int>, names: set<string> := {}, {};
    ghost var check := TypeCheck(lower, ts, what);
    for i := 0 to |ts|
      invariant ids == set j | 0 <= j < i :: ts[j].id
      invariant names == set j | 0 <= j < i :: lower(ts[j].name)
      invariant TypeSetVerdict(lower, ts, what) == First(check, i, |ts|)
    {
      if ts[i].id in ids {
        return Some(DuplicateId(what, ts[i].id));
      }
      ids := ids + {ts[i].id};
      if lower(ts[i].name) in names {
        return Some(DuplicateName(what, ts[i].name));
      }
      names := names + {lower(ts[i].name)};
    }
    r := None;
  }

  // ---- fields ----

  function FieldBodyVerdict(owner: string, refs: RefTargets, f: Field): Verdict {
    if !RefResolves(refs, f.body) then Some(UnknownRefTarget(owner, f.name, f.body.ref.value))
    else if !EnumDeclared(f.body) then Some(UndeclaredEnum(owner, f.name))
    else if !SensitivityKnown(f.body) then Some(UnknownSensitivity(owner, f.name, f.body.sensitivity.value))
    else None
  }

  function FieldCheck(lower: string -> string, owner: string, refs: RefTargets, fields: seq<Field>): nat -> Verdict {
    (i: nat) =>
      if i >= |fields| then None
      else if IdSeen(fields, i) then Some(DuplicateFieldId(owner, fields[i].id))
      else if NameSeen(lower, fields, i) then Some(DuplicateFieldName(owner, fields[i].name))
      else FieldBodyVerdict(owner, refs, fields[i])
  }

  function FieldsVerdict(lower: string -> string, owner: string, refs: RefTargets, fields: seq<Field>): Verdict {
    First(FieldCheck(lower, owner, refs, fields), 0, |fields|)
  }

  lemma FieldsExact(lower: string -> string, owner: string, refs: RefTargets, fields: seq<Field>)
    ensures FieldsVerdict(lower, owner, refs, fields).None? <==> WellFormedFields(lower, refs, fields)
  {
    var check := FieldCheck(lower, owner, refs, fields);
    FirstNone(check, 0, |fields|);
    UniqueUnseen(lower, fields);
    assert forall j: nat | j < |fields| ::
        check(j).None? <==> !IdSeen(fields, j) && !NameSeen(lower, fields, j) && FieldBodyVerdict(owner, refs, fields[j]).None?;
  }

  method ValidateFieldBody(owner: string, refs: RefTargets, f: Field) returns (r: Verdict)
    ensures r == FieldBodyVerdict(owner, refs, f)
  {
    if f.body.kind.KRef? && f.body.ref.Some? && f.body.ref.value != ""
      && f.body.ref.value !in refs.objects && f.body.ref.value !in refs.blobs
    {
      return Some(UnknownRefTarget(owner, f.name, f.body.ref.value));
    }
    if f.body.kind.KEnum? && (f.body.enumValues.None? || f.body.enumValues.value == []) {
      return Some(UndeclaredEnum(owner, f.name));
    }
    if f.body.sensitivity.Some? && !KnownSensitivity(f.body.sensitivity.value) {
      return Some(UnknownSensitivity(owner, f.name, f.body.sensitivity.value));
    }
    r := None;
  }

  method ValidateFields(lower: string -> string, owner: string, refs: RefTargets, fields: seq<Field>) returns (r: Verdict)
    ensures r == FieldsVerdict(lower, owner, refs, fields)
  {
    var ids: set<int>, names: set<string> := {}, {};
    ghost var check := FieldCheck(lower, owner, refs, fields);
    for i := 0 to |fields|
      invariant ids == set j | 0 <= j < i :: fields[j].id
      invariant names == set j | 0 <= j < i :: lower(fields[j].name)
      invariant FieldsVerdict(lower, owner, refs, fields) == First(check, i, |fields|)
    {
      assert fields[i].id in ids <==> IdSeen(fields, i);
      if fields[i].id in ids {
        return Some(DuplicateFieldId(owner, fields[i].id));
      }
      ids := ids + {fields[i].id};
      assert lower(fields[i].name) in names <==> NameSeen(lower, fields, i);
      if lower(fields[i].name) in names {
        return Some(DuplicateFieldName(owner, fields[i].name));
      }
      names := names + {lower(fields[i].name)};
      r := ValidateFieldBody(owner, refs, fields[i]);
      if r.Some? { return; }
    }
    r := None;
  }

  // ---- indexes ----

  function IndexNameCheck(owner: string, fields: seq<Field>, index: Index): nat -> Verdict {
    (j: nat) =>
      if j >= |index.body| || index.body[j] in Names(fields) then None
      else Some(UnknownIndexField(owner, index.name, index.body[j]))
  }

  function IndexCheck(owner: string, fields: seq<Field>, indexes: seq<Index>): nat -> Verdict {
    (i: nat) => if i >= |indexes| then None else First(IndexNameCheck(owner, fields, indexes[i]), 0, |indexes[i].body|)
  }

  function IndexesVerdict(lower: string -> string, owner: string, fields: seq<Field>, indexes: seq<Index>): Verdict {
    Then(TypeSetVerdict(lower, indexes, owner + " index"), First(IndexCheck(owner, fields, indexes), 0, |indexes|))
  }

  lemma IndexesExact(lower: string -> string, owner: string, fields: seq<Field>, indexes: seq<Index>)
    ensures IndexesVerdict(lower, owner, fields, indexes).None? <==> WellFormedIndexes(lower, fields, indexes)
  {
    TypeSetExact(lower, indexes, owner + " index");
    var check := IndexCheck(owner, fields, indexes);
    FirstNone(check, 0, |indexes|);
    forall i: nat | i < |indexes|
      ensures check(i).None? <==> forall n | n in indexes[i].body :: n in Names(fields)
    {
      var names := IndexNameCheck(owner, fields, indexes[i]);
      FirstNone(names, 0, |indexes[i].body|);
      assert forall j: nat | j < |indexes[i].body| :: names(j).None? <==> indexes[i].body[j] in Names(fields);
    }
  }

  method ValidateIndexes(lower: string -> string, owner: string, fields: seq<Field>, indexes: seq<Index>) returns (r: Verdict)
    ensures r == IndexesVerdict(lower, owner, fields, indexes)
  {
    r := ValidateTypeSet(lower, indexes, owner + " index");
    if r.Some? {
      return;
    }
    var names := Names(fields);
    ghost var check := IndexCheck(owner, fields, indexes);
    for i := 0 to |indexes|
      invariant IndexesVerdict(lower, owner, fields, indexes) == First(check, i, |indexes|)
    {
      ghost var inner := IndexNameCheck(owner, fields, indexes[i]);
      for j := 0 to |indexes[i].body|
        invariant check(i) == First(inner, j, |indexes[i].body|)
      {
        if indexes[i].body[j] !in names {
          return Some(UnknownIndexField(owner, indexes[i].name, indexes[i].body[j]));
        }
      }
    }
    r := None;
  }

  // ---- the whole schema ----

  function IdentityVerdict(s: Schema): Verdict {
    if s.protocol != "frick.realtime" then Some(UnsupportedProtocol(s.protocol))
    else if s.compatibility != "greenfield-cutover" then Some(UnsupportedCompatibility(s.compatibility))
    else if Blank(s.schemaId) then Some(BadIdentity("schemaId"))
    else if Blank(s.schemaVersion) then Some(BadIdentity("schemaVersion"))
    else if s.schemaRevision <= 0 then Some(BadIdentity("schemaRevision"))
    else if s.minimumClientRevision <= 0 then Some(BadIdentity("minimumClientRevision"))
    else if s.minimumServerRevision <= 0 then Some(BadIdentity("minimumServerRevision"))
    else None
  }

  function TypeSetsVerdict(lower: string -> string, s: Schema): Verdict {
    Then(TypeSetVerdict(lower, s.objects, "object"),
    Then(TypeSetVerdict(lower, s.streams, "stream"),
    Then(TypeSetVerdict(lower, s.events, "event"),
    Then(TypeSetVerdict(lower, s.presences, "presence"),
    Then(TypeSetVerdict(lower, s.signals, "signal"),
    Then(TypeSetVerdict(lower, s.blobs, "blob"),
    Then(TypeSetVerdict(lower, s.jobs, "job"),
         TypeSetVerdict(lower, s.projections, "projection"))))))))
  }

  function ObjectCheck(lower: string -> string, s: Schema): nat -> Verdict {
    (i: nat) =>
      if i >= |s.objects| then None
      else
        var o := s.objects[i];
        Then(FieldsVerdict(lower, o.name, Refs(s), o.body.fields), IndexesVerdict(lower, o.name, o.body.fields, o.body.indexes))
  }

  function StreamEventCheck(s: Schema, stream: StreamDef): nat -> Verdict {
    (j: nat) =>
      if j >= |stream.body.events| || stream.body.events[j] in Names(s.events) then None
      else Some(UnknownStreamEvent(stream.body.events[j], stream.name))
  }

  function StreamCheck(lower: string -> string, s: Schema): nat -> Verdict {
    (i: nat) =>
      if i >= |s.streams| then None
      else
        var t := s.streams[i];
        Then(FieldsVerdict(lower, t.name + ".key", Refs(s), t.body.keyFields), First(StreamEventCheck(s, t), 0, |t.body.events|))
  }

  /** Events, blobs and jobs: definitions that only hold fields. */
  function PlainCheck(lower: string -> string, s: Schema, ts: seq<Carrier<seq<Field>>>): nat -> Verdict {
    (i: nat) => if i >= |ts| then None else FieldsVerdict(lower, ts[i].name, Refs(s), ts[i].body)
  }

  function KeyedCheck(lower: string -> string, s: Schema, ts: seq<KeyedDef>): nat -> Verdict {
    (i: nat) =>
      if i >= |ts| then None
      else Then(FieldsVerdict(lower, ts[i].name + ".key", Refs(s), ts[i].body.keyFields),
                FieldsVerdict(lower, ts[i].name, Refs(s), ts[i].body.fields))
  }

  function ProjectionCheck(lower: string -> string, s: Schema): nat -> Verdict {
    (i: nat) =>
      if i >= |s.projections| then None
      else
        var p := s.projections[i];
        if p.body.source !in Names(s.streams) && p.body.source !in Names(s.objects)
        then Some(UnknownProjectionSource(p.body.source, p.name))
        else Then(FieldsVerdict(lower, p.name, Refs(s), p.body.fields), IndexesVerdict(lower, p.name, p.body.fields, p.body.indexes))
  }

  function MembersVerdict(lower: string -> string, s: Schema): Verdict {
    Then(First(ObjectCheck(lower, s), 0, |s.objects|),
    Then(First(StreamCheck(lower, s), 0, |s.streams|),
    Then(First(PlainCheck(lower, s, s.events), 0, |s.events|),
    Then(First(KeyedCheck(lower, s, s.presences), 0, |s.presences|),
    Then(First(KeyedCheck(lower, s, s.signals), 0, |s.signals|),
    Then(First(PlainCheck(lower, s, s.blobs), 0, |s.blobs|),
    Then(First(PlainCheck(lower, s, s.jobs), 0, |s.jobs|),
         First(ProjectionCheck(lower, s), 0, |s.projections|))))))))
  }

  function SchemaVerdict(lower: string -> string, s: Schema): Verdict {
    Then(IdentityVerdict(s), Then(TypeSetsVerdict(lower, s), MembersVerdict(lower, s)))
  }

  lemma TypeSetsExact(lower: string -> string, s: Schema)
    ensures TypeSetsVerdict(lower, s).None? <==> WellFormedTypeSets(lower, s)
  {
    TypeSetExact(lower, s.objects, "object");
    TypeSetExact(lower, s.streams, "stream");
    TypeSetExact(lower, s.events, "event");
    TypeSetExact(lower, s.presences, "presence");
    TypeSetExact(lower, s.signals, "signal");
    TypeSetExact(lower, s.blobs, "blob");
    TypeSetExact(lower, s.jobs, "job");
    TypeSetExact(lower, s.projections, "projection");
  }

  lemma ObjectsExact(lower: string -> string, s: Schema)
    ensures First(ObjectCheck(lower, s), 0, |s.objects|).None? <==>
            forall o | o in s.objects :: WellFormedFields(lower, Refs(s), o.body.fields) && WellFormedIndexes(lower, o.body.fields, o.body.indexes)
  {
    var check := ObjectCheck(lower, s);
    FirstNone(check, 0, |s.objects|);
    forall i: nat | i < |s.objects|
      ensures var o := s.objects[i];
              check(i).None? <==> WellFormedFields(lower, Refs(s), o.body.fields) && WellFormedIndexes(lower, o.body.fields, o.body.indexes)
    {
      var o := s.objects[i];
      FieldsExact(lower, o.name, Refs(s), o.body.fields);
      IndexesExact(lower, o.name, o.body.fields, o.body.indexes);
    }
  }

  lemma StreamsExact(lower: string -> string, s: Schema)
    ensures First(StreamCheck(lower, s), 0, |s.streams|).None? <==>
            forall t | t in s.streams :: WellFormedFields(lower, Refs(s), t.body.keyFields) && forall e | e in t.body.events :: e in Names(s.events)
  {
    var check := StreamCheck(lower, s);
    FirstNone(check, 0, |s.streams|);
    forall i: nat | i < |s.streams|
      ensures var t := s.streams[i];
              check(i).None? <==> WellFormedFields(lower, Refs(s), t.body.keyFields) && forall e | e in t.body.events :: e in Names(s.events)
    {
      var t := s.streams[i];
      FieldsExact(lower, t.name + ".key", Refs(s), t.body.keyFields);
      var inner := StreamEventCheck(s, t);
      FirstNone(inner, 0, |t.body.events|);
      assert forall j: nat | j < |t.body.events| :: inner(j).None? <==> t.body.events[j] in Names(s.events);
    }
  }

  lemma PlainExact(lower: string -> string, s: Schema, ts: seq<Carrier<seq<Field>>>)
    ensures First(PlainCheck(lower, s, ts), 0, |ts|).None? <==> forall t | t in ts :: WellFormedFields(lower, Refs(s), t.body)
  {
    var check := PlainCheck(lower, s, ts);
    FirstNone(check, 0, |ts|);
    forall i: nat | i < |ts| ensures check(i).None? <==> WellFormedFields(lower, Refs(s), ts[i].body) {
      FieldsExact(lower, ts[i].name, Refs(s), ts[i].body);
    }
  }

  lemma KeyedExact(lower: string -> string, s: Schema, ts: seq<KeyedDef>)
    ensures First(KeyedCheck(lower, s, ts), 0, |ts|).None? <==>
            forall t | t in ts :: WellFormedFields(lower, Refs(s), t.body.keyFields) && WellFormedFields(lower, Refs(s), t.body.fields)
  {
    var check := KeyedCheck(lower, s, ts);
    FirstNone(check, 0, |ts|);
    forall i: nat | i < |ts|
      ensures check(i).None? <==> WellFormedFields(lower, Refs(s), ts[i].body.keyFields) && WellFormedFields(lower, Refs(s), ts[i].body.fields)
    {
      FieldsExact(lower, ts[i].name + ".key", Refs(s), ts[i].body.keyFields);
      FieldsExact(lower, ts[i].name, Refs(s), ts[i].body.fields);
    }
  }

  lemma ProjectionsExact(lower: string -> string, s: Schema)
    ensures First(ProjectionCheck(lower, s), 0, |s.projections|).None? <==>
            forall p | p in s.projections ::
              && (p.body.source in Names(s.streams) || p.body.source in Names(s.objects))
              && WellFormedFields(lower, Refs(s), p.body.fields) && WellFormedIndexes(lower, p.body.fields, p.body.indexes)
  {
    var check := ProjectionCheck(lower, s);
    FirstNone(check, 0, |s.projections|);
    forall i: nat | i < |s.projections|
      ensures var p := s.projections[i];
              check(i).None? <==>
              && (p.body.source in Names(s.streams) || p.body.source in Names(s.objects))
              && WellFormedFields(lower, Refs(s), p.body.fields) && WellFormedIndexes(lower, p.body.fields, p.body.indexes)
    {
      var p := s.projections[i];
      FieldsExact(lower, p.name, Refs(s), p.body.fields);
      IndexesExact(lower, p.name, p.body.fields, p.body.indexes);
    }
  }

  lemma MembersExact(lower: string -> string, s: Schema)
    ensures MembersVerdict(lower, s).None? <==> WellFormedMembers(lower, s)
  {
    ObjectsExact(lower, s);
    StreamsExact(lower, s);
    PlainExact(lower, s, s.events);
    KeyedExact(lower, s, s.presences);
    KeyedExact(lower, s, s.signals);
    PlainExact(lower, s, s.blobs);
    PlainExact(lower, s, s.jobs);
    ProjectionsExact(lower, s);
  }

  /** Validation passes exactly the well-formed schemas. */
  lemma ValidationExact(lower: string -> string, s: Schema)
    ensures SchemaVerdict(lower, s).None? <==> WellFormed(lower, s)
  {
    TypeSetsExact(lower, s);
    MembersExact(lower, s);
  }

  // ---- the loops of `validate_schema` ----

  method ValidateObjects(lower: string -> string, s: Schema) returns (r: Verdict)
    ensures r == First(ObjectCheck(lower, s), 0, |s.objects|)
  {
    ghost var check := ObjectCheck(lower, s);
    for i := 0 to |s.objects|
      invariant First(check, 0, |s.objects|) == First(check, i, |s.objects|)
    {
      var o := s.objects[i];
      r := ValidateFields(lower, o.name, Refs(s), o.body.fields);
      if r.Some? { return; }
      r := ValidateIndexes(lower, o.name, o.body.fields, o.body.indexes);
      if r.Some? { return; }
    }
    r := None;
  }

  method ValidateStreams(lower: string -> string, s: Schema) returns (r: Verdict)
    ensures r == First(StreamCheck(lower, s), 0, |s.streams|)
  {
    var eventNames := Names(s.events);
    ghost var check := StreamCheck(lower, s);
    for i := 0 to |s.streams|
      invariant First(check, 0, |s.streams|) == First(check, i, |s.streams|)
    {
      var t := s.streams[i];
      r := ValidateFields(lower, t.name + ".key", Refs(s), t.body.keyFields);
      if r.Some? { return; }
      ghost var inner := StreamEventCheck(s, t);
      for j := 0 to |t.body.events|
        invariant check(i) == First(inner, j, |t.body.events|)
      {
        if t.body.events[j] !in eventNames {
          return Some(UnknownStreamEvent(t.body.events[j], t.name));
        }
      }
    }
    r := None;
  }

  method ValidatePlain(lower: string -> string, s: Schema, ts: seq<Carrier<seq<Field>>>) returns (r: Verdict)
    ensures r == First(PlainCheck(lower, s, ts), 0, |ts|)
  {
    ghost var check := PlainCheck(lower, s, ts);
    for i := 0 to |ts|
      invariant First(check, 0, |ts|) == First(check, i, |ts|)
    {
      r := ValidateFields(lower, ts[i].name, Refs(s), ts[i].body);
      if r.Some? { return; }
    }
    r := None;
  }

  method ValidateKeyed(lower: string -> string, s: Schema, ts: seq<KeyedDef>) returns (r: Verdict)
    ensures r == First(KeyedCheck(lower, s, ts), 0, |ts|)
  {
    ghost var check := KeyedCheck(lower, s, ts);
    for i := 0 to |ts|
      invariant First(check, 0, |ts|) == First(check, i, |ts|)
    {
      r := ValidateFields(lower, ts[i].name + ".key", Refs(s), ts[i].body.keyFields);
      if r.Some? { return; }
      r := ValidateFields(lower, ts[i].name, Refs(s), ts[i].body.fields);
      if r.Some? { return; }
    }
    r := None;
  }

  method ValidateProjections(lower: string -> string, s: Schema) returns (r: Verdict)
    ensures r == First(ProjectionCheck(lower, s), 0, |s.projections|)
  {
    var streamNames, objectNames := Names(s.streams), Names(s.objects);
    ghost var check := ProjectionCheck(lower, s);
    for i := 0 to |s.projections|
      invariant First(check, 0, |s.projections|) == First(check, i, |s.projections|)
    {
      var p := s.projections[i];
      if p.body.source !in streamNames && p.body.source !in objectNames {
        return Some(UnknownProjectionSource(p.body.source, p.name));
      }
      r := ValidateFields(lower, p.name, Refs(s), p.body.fields);
      if r.Some? { return; }
      r := ValidateIndexes(lower, p.name, p.body.fields, p.body.indexes);
      if r.Some? { return; }
    }
    r := None;
  }

  method ValidateTypeSets(lower: string -> string, s: Schema) returns (r: Verdict)
    ensures r == TypeSetsVerdict(lower, s)
  {
    r := ValidateTypeSet(lower, s.objects, "object");
    if r.Some? { return; }
    r := ValidateTypeSet(lower, s.streams, "stream");
    if r.Some? { return; }
    r := ValidateTypeSet(lower, s.events, "event");
    if r.Some? { return; }
    r := ValidateTypeSet(lower, s.presences, "presence");
    if r.Some? { return; }
    r := ValidateTypeSet(lower, s.signals, "signal");
    if r.Some? { return; }
    r := ValidateTypeSet(lower, s.blobs, "blob");
    if r.Some? { return; }
    r := ValidateTypeSet(lower, s.jobs, "job");
    if r.Some? { return; }
    r := ValidateTypeSet(lower, s.projections, "projection");
  }

  method ValidateMembers(lower: string -> string, s: Schema) returns (r: Verdict)
    ensures r == MembersVerdict(lower, s)
  {
    r := ValidateObjects(lower, s);
    if r.Some? { return; }
    r := ValidateStreams(lower, s);
    if r.Some? { return; }
    r := ValidatePlain(lower, s, s.events);
    if r.Some? { return; }
    r := ValidateKeyed(lower, s, s.presences);
    if r.Some? { return; }
    r := ValidateKeyed(lower, s, s.signals);
    if r.Some? { return; }
    r := ValidatePlain(lower, s, s.blobs);
    if r.Some? { return; }
    r := ValidatePlain(lower, s, s.jobs);
    if r.Some? { return; }
    r := ValidateProjections(lower, s);
  }

  /** Passes exactly the well-formed schemas, and reports the first error of any other. */
  method ValidateSchema(lower: string -> string, s: Schema) returns (r: Verdict)
    ensures r.None? <==> WellFormed(lower, s)
    ensures r == SchemaVerdict(lower, s)
  {
    ValidationExact(lower, s);
    r := IdentityVerdict(s);
    if r.Some? { return; }
    r := ValidateTypeSets(lower, s);
    if r.Some? { return; }
    r := ValidateMembers(lower, s);
  }

  // ---- blob references ----

  datatype BlobRefField = BlobRefField(objectName: string, field: Field, blobName: string)

  /** Field `j` of object `i` holds a blob id. */
  predicate IsBlobRef(s: Schema, i: int, j: int) {
    && 0 <= i < |s.objects| && 0 <= j < |s.objects[i].body.fields|
    && var f := s.objects[i].body.fields[j].body; f.kind.KRef? && f.ref.Some? && f.ref.value in Names(s.blobs)
  }

  function BlobRefAt(s: Schema, i: int, j: int): BlobRefField
    requires IsBlobRef(s, i, j)
  {
    var o := s.objects[i];
    BlobRefField(o.name, o.body.fields[j], o.body.fields[j].body.ref.value)
  }

  predicate Earlier(p: (int, int), q: (int, int)) { p.0 < q.0 || (p.0 == q.0 && p.1 < q.1) }

  /** `pos` lists, in order and once each, the blob references that come before position `(m, n)`. */
  ghost predicate ListsBlobRefs(s: Schema, pos: seq<(int, int)>, m: int, n: int) {
    && (forall k | 0 <= k < |pos| :: IsBlobRef(s, pos[k].0, pos[k].1) && Earlier(pos[k], (m, n)))
    && (forall k, l | 0 <= k < l < |pos| :: Earlier(pos[k], pos[l]))
    && (forall i, j | IsBlobRef(s, i, j) && Earlier((i, j), (m, n)) :: (i, j) in pos)
  }

  /** The positions of the blob references before `(i, j)`, row by row. */
  function PositionsBefore(s: Schema, i: nat, j: nat): (pos: seq<(int, int)>)
    requires i <= |s.objects|
    requires if i < |s.objects| then j <= |s.objects[i].body.fields| else j == 0
    ensures forall k | 0 <= k < |pos| :: IsBlobRef(s, pos[k].0, pos[k].1)
    decreases i, j
  {
    if j > 0 then PositionsBefore(s, i, j - 1) + (if IsBlobRef(s, i, j - 1) then [(i, j - 1)] else [])
    else if i > 0 then PositionsBefore(s, i - 1, |s.objects[i - 1].body.fields|)
    else []
  }

  function BlobRefPositions(s: Schema): seq<(int, int)> { PositionsBefore(s, |s.objects|, 0) }

  lemma ListStep(s: Schema, pos: seq<(int, int)>, i: int, j: int)
    requires ListsBlobRefs(s, pos, i, j)
    ensures ListsBlobRefs(s, pos + (if IsBlobRef(s, i, j) then [(i, j)] else []), i, j + 1)
  {
    var next := pos + (if IsBlobRef(s, i, j) then [(i, j)] else []);
    forall a, b | IsBlobRef(s, a, b) && Earlier((a, b), (i, j + 1)) ensures (a, b) in next {
      assert (a, b) == (i, j) || (a, b) in pos;
    }
  }

  lemma NextRow(s: Schema, pos: seq<(int, int)>, i: int)
    requires 0 <= i < |s.objects| && ListsBlobRefs(s, pos, i, |s.objects[i].body.fields|)
    ensures ListsBlobRefs(s, pos, i + 1, 0)
  {
    forall a, b | IsBlobRef(s, a, b) && Earlier((a, b), (i + 1, 0)) ensures (a, b) in pos {
      assert Earlier((a, b), (i, |s.objects[i].body.fields|));
    }
  }

  /** Every declared blob reference is listed, in declaration order, exactly once. */
  lemma {:induction false} PositionsComplete(s: Schema, i: nat, j: nat)
    requires i <= |s.objects|
    requires if i < |s.objects| then j <= |s.objects[i].body.fields| else j == 0
    ensures ListsBlobRefs(s, PositionsBefore(s, i, j), i, j)
    decreases i, j
  {
    if j > 0 {
      PositionsComplete(s, i, j - 1);
      ListStep(s, PositionsBefore(s, i, j - 1), i, j - 1);
      assert PositionsBefore(s, i, j) == PositionsBefore(s, i, j - 1) + if IsBlobRef(s, i, j - 1) then [(i, j - 1)] else [];
    } else if i > 0 {
      var n := |s.objects[i - 1].body.fields|;
      PositionsComplete(s, i - 1, n);
      NextRow(s, PositionsBefore(s, i - 1, n), i - 1);
    }
  }

  function BlobRefsAt(s: Schema, pos: seq<(int, int)>): (r: seq<BlobRefField>)
    requires forall k | 0 <= k < |pos| :: IsBlobRef(s, pos[k].0, pos[k].1)
    ensures |r| == |pos| && forall k | 0 <= k < |pos| :: r[k] == BlobRefAt(s, pos[k].0, pos[k].1)
  {
    seq(|pos|, k requires 0 <= k < |pos| => BlobRefAt(s, pos[k].0, pos[k].1))
  }

  lemma BlobRefsStep(s: Schema, pos: seq<(int, int)>, i: int, j: int)
    requires (forall k | 0 <= k < |pos| :: IsBlobRef(s, pos[k].0, pos[k].1)) && IsBlobRef(s, i, j)
    ensures BlobRefsAt(s, pos + [(i, j)]) == BlobRefsAt(s, pos) + [BlobRefAt(s, i, j)]
  {
  }

  method BlobRefFields(s: Schema) returns (r: seq<BlobRefField>)
    ensures ListsBlobRefs(s, BlobRefPositions(s), |s.objects|, 0)
    ensures r == BlobRefsAt(s, BlobRefPositions(s))
  {
    PositionsComplete(s, |s.objects|, 0);
    r := [];
    for i := 0 to |s.objects|
      invariant r == BlobRefsAt(s, PositionsBefore(s, i, 0))
    {
      r := BlobRefsOf(s, i, r);
    }
  }

  /** The inner loop, over the fields of one object. */
  method BlobRefsOf(s: Schema, i: nat, before: seq<BlobRefField>) returns (r: seq<BlobRefField>)
    requires i < |s.objects| && before == BlobRefsAt(s, PositionsBefore(s, i, 0))
    ensures r == BlobRefsAt(s, PositionsBefore(s, i + 1, 0))
  {
    var blobNames := Names(s.blobs);
    var o := s.objects[i];
    r := before;
    for j := 0 to |o.body.fields|
      invariant r == BlobRefsAt(s, PositionsBefore(s, i, j))
    {
      var f := o.body.fields[j];
      if f.body.kind.KRef? && f.body.ref.Some? && f.body.ref.value in blobNames {
        BlobRefsStep(s, PositionsBefore(s, i, j), i, j);
        r := r + [BlobRefField(o.name, f, f.body.ref.value)];
      }
    }
  }

  /** A field is listed exactly when it is a reference that names a declared blob. */
  lemma BlobRefsExactly(s: Schema, i: nat, j: nat)
    requires i < |s.objects| && j < |s.objects[i].body.fields|
    ensures (i, j) in BlobRefPositions(s) <==>
            exists b | b in s.blobs :: s.objects[i].body.fields[j].body.kind == KRef && s.objects[i].body.fields[j].body.ref == Some(b.name)
  {
    PositionsComplete(s, |s.objects|, 0);
  }

  /** In a well-formed schema a field that names a target is either a listed blob reference or names an object. */
  lemma EveryRefIsAccountedFor(lower: string -> string, s: Schema, i: int, j: int)
    requires WellFormed(lower, s)
    requires 0 <= i < |s.objects| && 0 <= j < |s.objects[i].body.fields|
    ensures var f := s.objects[i].body.fields[j].body;
            f.kind.KRef? && f.ref.Some? && f.ref.value != "" ==> (i, j) in BlobRefPositions(s) || f.ref.value in Names(s.objects)
  {
    var o := s.objects[i];
    assert o in s.objects;
    var f := o.body.fields[j];
    assert RefResolves(Refs(s), f.body);
    PositionsComplete(s, |s.objects|, 0);
    assert f.body.kind.KRef? && f.body.ref.Some? && f.body.ref.value in Names(s.blobs) ==> IsBlobRef(s, i, j);
  }

  /** Listing each position once lists each reference once, because definitions are unique. */
  lemma BlobRefsDistinct(lower: string -> string, s: Schema, p: (int, int), q: (int, int))
    requires WellFormed(lower, s) && IsBlobRef(s, p.0, p.1) && IsBlobRef(s, q.0, q.1)
    ensures BlobRefAt(s, p.0, p.1) == BlobRefAt(s, q.0, q.1) <==> p == q
  {
    var o := s.objects[p.0];
    assert o in s.objects && Unique(lower, o.body.fields);
  }
}
