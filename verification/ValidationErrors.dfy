/** A reported validation error is true of the schema: the definition it names has the defect it names. */
module ValidationErrors {
  import opened Text
  import opened Schemas
  import opened Validation

  // ---- the defects ----

  ghost predicate RepeatsId<B>(ts: seq<Carrier<B>>, id: int) {
    exists i, j | 0 <= i < j < |ts| :: ts[i].id == id == ts[j].id
  }

  ghost predicate RepeatsName<B>(lower: string -> string, ts: seq<Carrier<B>>, name: string) {
    exists i, j | 0 <= i < j < |ts| :: ts[j].name == name && lower(ts[i].name) == lower(name)
  }

  ghost predicate TypeSetError<B>(lower: string -> string, ts: seq<Carrier<B>>, what: string, e: SchemaError) {
    match e
    case DuplicateId(w, id) => w == what && RepeatsId(ts, id)
    case DuplicateName(w, name) => w == what && RepeatsName(lower, ts, name)
    case _ => false
  }

  ghost predicate DanglingRef(f: Field, target: string, refs: RefTargets) {
    && f.body.kind.KRef? && f.body.ref == Some(target) && target != ""
    && target !in refs.objects && target !in refs.blobs
  }

  ghost predicate FieldsError(lower: string -> string, owner: string, refs: RefTargets, fields: seq<Field>, e: SchemaError) {
    match e
    case DuplicateFieldId(o, id) => o == owner && RepeatsId(fields, id)
    case DuplicateFieldName(o, name) => o == owner && RepeatsName(lower, fields, name)
    case UnknownRefTarget(o, name, target) => o == owner && exists f | f in fields :: f.name == name && DanglingRef(f, target, refs)
    case UndeclaredEnum(o, name) =>
      o == owner && exists f | f in fields :: f.name == name && f.body.kind.KEnum? && (f.body.enumValues.None? || f.body.enumValues.value == [])
    case UnknownSensitivity(o, name, text) =>
      o == owner && text !in ["public", "private", "pii", "secret", "content"] && exists f | f in fields :: f.name == name && f.body.sensitivity == Some(text)
    case _ => false
  }

  ghost predicate IndexesError(lower: string -> string, owner: string, fields: seq<Field>, indexes: seq<Index>, e: SchemaError) {
    || TypeSetError(lower, indexes, owner + " index", e)
    || (&& e.UnknownIndexField? && e.owner == owner && (forall f | f in fields :: f.name != e.field)
        && exists x | x in indexes :: x.name == e.index && e.field in x.body)
  }

  ghost predicate IdentityError(s: Schema, e: SchemaError) {
    match e
    case UnsupportedProtocol(p) => s.protocol == p != "frick.realtime"
    case UnsupportedCompatibility(m) => s.compatibility == m != "greenfield-cutover"
    case BadIdentity(part) =>
      || (part == "schemaId" && Blank(s.schemaId))
      || (part == "schemaVersion" && Blank(s.schemaVersion))
      || (part == "schemaRevision" && s.schemaRevision < 1)
      || (part == "minimumClientRevision" && s.minimumClientRevision < 1)
      || (part == "minimumServerRevision" && s.minimumServerRevision < 1)
    case _ => false
  }

  ghost predicate TypeSetsError(lower: string -> string, s: Schema, e: SchemaError) {
    || TypeSetError(lower, s.objects, "object", e) || TypeSetError(lower, s.streams, "stream", e)
    || TypeSetError(lower, s.events, "event", e) || TypeSetError(lower, s.presences, "presence", e)
    || TypeSetError(lower, s.signals, "signal", e) || TypeSetError(lower, s.blobs, "blob", e)
    || TypeSetError(lower, s.jobs, "job", e) || TypeSetError(lower, s.projections, "projection", e)
  }

  ghost function ObjectError(lower: string -> string, s: Schema, e: SchemaError): ObjectDef -> bool {
    (o: ObjectDef) =>
      FieldsError(lower, o.name, Refs(s), o.body.fields, e) || IndexesError(lower, o.name, o.body.fields, o.body.indexes, e)
  }

  ghost function StreamError(lower: string -> string, s: Schema, e: SchemaError): StreamDef -> bool {
    (t: StreamDef) =>
      || FieldsError(lower, t.name + ".key", Refs(s), t.body.keyFields, e)
      || (e.UnknownStreamEvent? && e.stream == t.name && e.event in t.body.events && forall d | d in s.events :: d.name != e.event)
  }

  ghost function PlainError(lower: string -> string, s: Schema, e: SchemaError): Carrier<seq<Field>> -> bool {
    (t: Carrier<seq<Field>>) => FieldsError(lower, t.name, Refs(s), t.body, e)
  }

  ghost function KeyedError(lower: string -> string, s: Schema, e: SchemaError): KeyedDef -> bool {
    (t: KeyedDef) =>
      FieldsError(lower, t.name + ".key", Refs(s), t.body.keyFields, e) || FieldsError(lower, t.name, Refs(s), t.body.fields, e)
  }

  ghost function ProjectionError(lower: string -> string, s: Schema, e: SchemaError): ProjectionDef -> bool {
    (p: ProjectionDef) =>
      || (&& e == UnknownProjectionSource(p.body.source, p.name)
          && (forall d | d in s.streams :: d.name != p.body.source) && (forall d | d in s.objects :: d.name != p.body.source))
      || FieldsError(lower, p.name, Refs(s), p.body.fields, e)
      || IndexesError(lower, p.name, p.body.fields, p.body.indexes, e)
  }

  ghost predicate AnyOf<T(!new)>(ts: seq<T>, wrong: T -> bool) { exists t | t in ts :: wrong(t) }

  ghost predicate MembersError(lower: string -> string, s: Schema, e: SchemaError) {
    || AnyOf(s.objects, ObjectError(lower, s, e))
    || AnyOf(s.streams, StreamError(lower, s, e))
    || AnyOf(s.events, PlainError(lower, s, e))
    || AnyOf(s.presences, KeyedError(lower, s, e))
    || AnyOf(s.signals, KeyedError(lower, s, e))
    || AnyOf(s.blobs, PlainError(lower, s, e))
    || AnyOf(s.jobs, PlainError(lower, s, e))
    || AnyOf(s.projections, ProjectionError(lower, s, e))
  }

  // ---- every check tells the truth ----

  lemma TypeSetTells<B>(lower: string -> string, ts: seq<Carrier<B>>, what: string)
    requires TypeSetVerdict(lower, ts, what).Some?
    ensures TypeSetError(lower, ts, what, TypeSetVerdict(lower, ts, what).value)
  {
    var check := TypeCheck(lower, ts, what);
    FirstIsEarliest(check, 0, |ts|);
    var k: nat :| k < |ts| && check(k) == First(check, 0, |ts|);
  }

  lemma FieldBodyTells(lower: string -> string, owner: string, refs: RefTargets, fields: seq<Field>, f: Field)
    requires f in fields && FieldBodyVerdict(owner, refs, f).Some?
    ensures FieldsError(lower, owner, refs, fields, FieldBodyVerdict(owner, refs, f).value)
  {
  }

  lemma FieldsTell(lower: string -> string, owner: string, refs: RefTargets, fields: seq<Field>)
    requires FieldsVerdict(lower, owner, refs, fields).Some?
    ensures FieldsError(lower, owner, refs, fields, FieldsVerdict(lower, owner, refs, fields).value)
  {
    var check := FieldCheck(lower, owner, refs, fields);
    FirstIsEarliest(check, 0, |fields|);
    var k: nat :| k < |fields| && check(k) == First(check, 0, |fields|);
    if !IdSeen(fields, k) && !NameSeen(lower, fields, k) {
      FieldBodyTells(lower, owner, refs, fields, fields[k]);
    }
  }

  lemma IndexesTell(lower: string -> string, owner: string, fields: seq<Field>, indexes: seq<Index>)
    requires IndexesVerdict(lower, owner, fields, indexes).Some?
    ensures IndexesError(lower, owner, fields, indexes, IndexesVerdict(lower, owner, fields, indexes).value)
  {
    if TypeSetVerdict(lower, indexes, owner + " index").Some? {
      TypeSetTells(lower, indexes, owner + " index");
    } else {
      var check := IndexCheck(owner, fields, indexes);
      FirstIsEarliest(check, 0, |indexes|);
      var k: nat :| k < |indexes| && check(k) == First(check, 0, |indexes|);
      var inner := IndexNameCheck(owner, fields, indexes[k]);
      FirstIsEarliest(inner, 0, |indexes[k].body|);
      assert indexes[k] in indexes;
    }
  }

  lemma ObjectTells(lower: string -> string, s: Schema)
    requires First(ObjectCheck(lower, s), 0, |s.objects|).Some?
    ensures AnyOf(s.objects, ObjectError(lower, s, First(ObjectCheck(lower, s), 0, |s.objects|).value))
  {
    var check := ObjectCheck(lower, s);
    FirstIsEarliest(check, 0, |s.objects|);
    var k: nat :| k < |s.objects| && check(k) == First(check, 0, |s.objects|);
    var o := s.objects[k];
    if FieldsVerdict(lower, o.name, Refs(s), o.body.fields).Some? {
      FieldsTell(lower, o.name, Refs(s), o.body.fields);
    } else {
      IndexesTell(lower, o.name, o.body.fields, o.body.indexes);
    }
    assert ObjectError(lower, s, check(k).value)(o);
  }

  lemma StreamTells(lower: string -> string, s: Schema)
    requires First(StreamCheck(lower, s), 0, |s.streams|).Some?
    ensures AnyOf(s.streams, StreamError(lower, s, First(StreamCheck(lower, s), 0, |s.streams|).value))
  {
    var check := StreamCheck(lower, s);
    FirstIsEarliest(check, 0, |s.streams|);
    var k: nat :| k < |s.streams| && check(k) == First(check, 0, |s.streams|);
    var t := s.streams[k];
    if FieldsVerdict(lower, t.name + ".key", Refs(s), t.body.keyFields).Some? {
      FieldsTell(lower, t.name + ".key", Refs(s), t.body.keyFields);
    } else {
      FirstIsEarliest(StreamEventCheck(s, t), 0, |t.body.events|);
    }
    assert StreamError(lower, s, check(k).value)(t);
  }

  lemma PlainTells(lower: string -> string, s: Schema, ts: seq<Carrier<seq<Field>>>)
    requires First(PlainCheck(lower, s, ts), 0, |ts|).Some?
    ensures AnyOf(ts, PlainError(lower, s, First(PlainCheck(lower, s, ts), 0, |ts|).value))
  {
    var check := PlainCheck(lower, s, ts);
    FirstIsEarliest(check, 0, |ts|);
    var k: nat :| k < |ts| && check(k) == First(check, 0, |ts|);
    FieldsTell(lower, ts[k].name, Refs(s), ts[k].body);
    assert PlainError(lower, s, check(k).value)(ts[k]);
  }

  lemma KeyedTells(lower: string -> string, s: Schema, ts: seq<KeyedDef>)
    requires First(KeyedCheck(lower, s, ts), 0, |ts|).Some?
    ensures AnyOf(ts, KeyedError(lower, s, First(KeyedCheck(lower, s, ts), 0, |ts|).value))
  {
    var check := KeyedCheck(lower, s, ts);
    FirstIsEarliest(check, 0, |ts|);
    var k: nat :| k < |ts| && check(k) == First(check, 0, |ts|);
    if FieldsVerdict(lower, ts[k].name + ".key", Refs(s), ts[k].body.keyFields).Some? {
      FieldsTell(lower, ts[k].name + ".key", Refs(s), ts[k].body.keyFields);
    } else {
      FieldsTell(lower, ts[k].name, Refs(s), ts[k].body.fields);
    }
    assert KeyedError(lower, s, check(k).value)(ts[k]);
  }

  lemma ProjectionTells(lower: string -> string, s: Schema)
    requires First(ProjectionCheck(lower, s), 0, |s.projections|).Some?
    ensures AnyOf(s.projections, ProjectionError(lower, s, First(ProjectionCheck(lower, s), 0, |s.projections|).value))
  {
    var check := ProjectionCheck(lower, s);
    FirstIsEarliest(check, 0, |s.projections|);
    var k: nat :| k < |s.projections| && check(k) == First(check, 0, |s.projections|);
    var p := s.projections[k];
    if p.body.source in Names(s.streams) || p.body.source in Names(s.objects) {
      if FieldsVerdict(lower, p.name, Refs(s), p.body.fields).Some? {
        FieldsTell(lower, p.name, Refs(s), p.body.fields);
      } else {
        IndexesTell(lower, p.name, p.body.fields, p.body.indexes);
      }
    }
    assert ProjectionError(lower, s, check(k).value)(p);
  }

  lemma TypeSetsTell(lower: string -> string, s: Schema)
    requires TypeSetsVerdict(lower, s).Some?
    ensures TypeSetsError(lower, s, TypeSetsVerdict(lower, s).value)
  {
    if TypeSetVerdict(lower, s.objects, "object").Some? { TypeSetTells(lower, s.objects, "object"); }
    else if TypeSetVerdict(lower, s.streams, "stream").Some? { TypeSetTells(lower, s.streams, "stream"); }
    else if TypeSetVerdict(lower, s.events, "event").Some? { TypeSetTells(lower, s.events, "event"); }
    else if TypeSetVerdict(lower, s.presences, "presence").Some? { TypeSetTells(lower, s.presences, "presence"); }
    else if TypeSetVerdict(lower, s.signals, "signal").Some? { TypeSetTells(lower, s.signals, "signal"); }
    else if TypeSetVerdict(lower, s.blobs, "blob").Some? { TypeSetTells(lower, s.blobs, "blob"); }
    else if TypeSetVerdict(lower, s.jobs, "job").Some? { TypeSetTells(lower, s.jobs, "job"); }
    else { TypeSetTells(lower, s.projections, "projection"); }
  }

  lemma MembersTell(lower: string -> string, s: Schema)
    requires MembersVerdict(lower, s).Some?
    ensures MembersError(lower, s, MembersVerdict(lower, s).value)
  {
    if First(ObjectCheck(lower, s), 0, |s.objects|).Some? { ObjectTells(lower, s); }
    else if First(StreamCheck(lower, s), 0, |s.streams|).Some? { StreamTells(lower, s); }
    else if First(PlainCheck(lower, s, s.events), 0, |s.events|).Some? { PlainTells(lower, s, s.events); }
    else if First(KeyedCheck(lower, s, s.presences), 0, |s.presences|).Some? { KeyedTells(lower, s, s.presences); }
    else if First(KeyedCheck(lower, s, s.signals), 0, |s.signals|).Some? { KeyedTells(lower, s, s.signals); }
    else if First(PlainCheck(lower, s, s.blobs), 0, |s.blobs|).Some? { PlainTells(lower, s, s.blobs); }
    else if First(PlainCheck(lower, s, s.jobs), 0, |s.jobs|).Some? { PlainTells(lower, s, s.jobs); }
    else { ProjectionTells(lower, s); }
  }

  lemma IdentityTells(s: Schema)
    requires IdentityVerdict(s).Some?
    ensures IdentityError(s, IdentityVerdict(s).value)
  {
  }

  ghost predicate HasDefect(lower: string -> string, s: Schema, e: SchemaError) {
    IdentityError(s, e) || TypeSetsError(lower, s, e) || MembersError(lower, s, e)
  }

  /** The error names a defect the schema has, in the definition it names. */
  lemma ErrorIsTrue(lower: string -> string, s: Schema)
    requires SchemaVerdict(lower, s).Some?
    ensures HasDefect(lower, s, SchemaVerdict(lower, s).value)
  {
    var identity, sets := IdentityVerdict(s), TypeSetsVerdict(lower, s);
    if identity.Some? {
      IdentityTells(s);
    } else if sets.Some? {
      TypeSetsTell(lower, s);
    } else {
      MembersTell(lower, s);
    }
  }
}
