/** What "no breaking finding" means, stated without the linter. */
module LintRules {
  import opened Text
  import opened Schemas
  import opened Lint

  // ---- findings without a breaking one ----

  ghost predicate Clean(fs: seq<Finding>) { forall i | 0 <= i < |fs| :: !fs[i].severity.Breaking? }

  lemma CleanConcat(a: seq<Finding>, b: seq<Finding>)
    ensures Clean(a + b) <==> Clean(a) && Clean(b)
  {
    assert forall i | 0 <= i < |a| :: (a + b)[i] == a[i];
    assert forall i | 0 <= i < |b| :: (a + b)[|a| + i] == b[i];
  }

  lemma {:induction false} CountZeroIsClean(fs: seq<Finding>)
    ensures CountBreaking(fs) == 0 <==> Clean(fs)
  {
    if fs != [] {
      var n := |fs| - 1;
      CountZeroIsClean(fs[..n]);
      CleanConcat(fs[..n], [fs[n]]);
      assert fs == fs[..n] + [fs[n]];
    }
  }

  lemma {:induction false} CollectClean<T(!new)>(xs: seq<T>, report: T -> seq<Finding>)
    ensures Clean(Collect(xs, report)) <==> forall x | x in xs :: Clean(report(x))
  {
    if xs != [] {
      var front, last := xs[..|xs| - 1], xs[|xs| - 1];
      CollectClean(front, report);
      CleanConcat(Collect(front, report), report(last));
      assert xs == front + [last];
    }
  }

  lemma {:induction false} CollectNothing<T(!new)>(xs: seq<T>, report: T -> seq<Finding>)
    requires forall x | x in xs :: report(x) == []
    ensures Collect(xs, report) == []
  {
    if xs != [] {
      CollectNothing(xs[..|xs| - 1], report);
    }
  }

  // ---- the evolution relation ----

  /** Every previous definition has a successor under the same id and name, with an evolved body. */
  ghost predicate TypesEvolve<B(!new)>(prev: seq<Carrier<B>>, curr: seq<Carrier<B>>, bodies: (B, B) -> bool) {
    forall p | p in prev :: exists c | c in curr :: c.id == p.id && c.name == p.name && bodies(p.body, c.body)
  }

  /** No value was dropped, and no new value sits among the first `|prev|`. */
  ghost predicate EnumEvolves(prev: seq<string>, curr: seq<string>) {
    && (forall v | v in prev :: v in curr)
    && (forall i | 0 <= i < |curr| && i < |prev| :: curr[i] in prev)
  }

  ghost predicate FieldBodyEvolves(p: FieldBody, c: FieldBody) {
    && p.kind == c.kind && p.required == c.required && RefText(p) == RefText(c)
    && (p.kind.KEnum? ==> EnumEvolves(ValuesOf(p), ValuesOf(c)))
  }

  /** Fields evolve, and no new field is required. */
  ghost predicate FieldsEvolve(prev: seq<Field>, curr: seq<Field>) {
    && TypesEvolve(prev, curr, FieldBodyEvolves)
    && forall c | c in curr && c.body.required :: HasId(prev, c.id)
  }

  /** Indexes are tracked by id alone. */
  ghost predicate IndexesEvolve(prev: seq<Index>, curr: seq<Index>) { forall p | p in prev :: HasId(curr, p.id) }

  ghost predicate ObjectEvolves(p: ObjectBody, c: ObjectBody) {
    FieldsEvolve(p.fields, c.fields) && IndexesEvolve(p.indexes, c.indexes)
  }

  ghost predicate StreamEvolves(p: StreamBody, c: StreamBody) {
    FieldsEvolve(p.keyFields, c.keyFields) && forall e | e in p.events :: e in c.events
  }

  ghost predicate KeyedEvolves(p: KeyedBody, c: KeyedBody) {
    FieldsEvolve(p.keyFields, c.keyFields) && FieldsEvolve(p.fields, c.fields)
  }

  ghost predicate ProjectionEvolves(p: ProjectionBody, c: ProjectionBody) {
    p.source == c.source && FieldsEvolve(p.fields, c.fields) && IndexesEvolve(p.indexes, c.indexes)
  }

  ghost predicate Evolves(prev: Schema, curr: Schema) {
    && prev.schemaId == curr.schemaId && prev.schemaRevision <= curr.schemaRevision
    && TypesEvolve(prev.objects, curr.objects, ObjectEvolves)
    && TypesEvolve(prev.streams, curr.streams, StreamEvolves)
    && TypesEvolve(prev.events, curr.events, FieldsEvolve)
    && TypesEvolve(prev.presences, curr.presences, KeyedEvolves)
    && TypesEvolve(prev.signals, curr.signals, KeyedEvolves)
    && TypesEvolve(prev.blobs, curr.blobs, FieldsEvolve)
    && TypesEvolve(prev.jobs, curr.jobs, FieldsEvolve)
    && TypesEvolve(prev.projections, curr.projections, ProjectionEvolves)
  }

  // ---- ids are unique ----

  function ObjectFields(b: ObjectBody): seq<Field> { b.fields }

  function StreamKeys(b: StreamBody): seq<Field> { b.keyFields }

  function PlainFields(b: seq<Field>): seq<Field> { b }

  function KeyedKeys(b: KeyedBody): seq<Field> { b.keyFields }

  function KeyedFields(b: KeyedBody): seq<Field> { b.fields }

  function ProjectionFields(b: ProjectionBody): seq<Field> { b.fields }

  /** The definitions have unique ids, and so do their fields. */
  ghost predicate IdsIn<B(!new)>(ts: seq<Carrier<B>>, fields: B -> seq<Field>) {
    UniqueIds(ts) && forall t | t in ts :: UniqueIds(fields(t.body))
  }

  ghost predicate IdsUnique(s: Schema) {
    && IdsIn(s.objects, ObjectFields) && IdsIn(s.streams, StreamKeys) && IdsIn(s.events, PlainFields)
    && IdsIn(s.presences, KeyedKeys) && IdsIn(s.presences, KeyedFields) && IdsIn(s.signals, KeyedKeys) && IdsIn(s.signals, KeyedFields)
    && IdsIn(s.blobs, PlainFields) && IdsIn(s.jobs, PlainFields) && IdsIn(s.projections, ProjectionFields)
  }

  lemma WellFormedIdsUnique(lower: string -> string, s: Schema)
    requires WellFormed(lower, s)
    ensures IdsUnique(s)
  {
  }

  lemma HasIdMember<B(!new)>(ts: seq<Carrier<B>>, id: int)
    ensures HasId(ts, id) <==> exists t | t in ts :: t.id == id
    ensures HasId(ts, id) <==> ById(ts, id).Some?
  {
  }

  lemma OnlyOneWithId<B(!new)>(ts: seq<Carrier<B>>, a: Carrier<B>, b: Carrier<B>)
    requires UniqueIds(ts) && a in ts && b in ts && a.id == b.id
    ensures a == b
  {
  }

  lemma LastIsFirst<B(!new)>(ts: seq<Carrier<B>>, id: int)
    requires UniqueIds(ts)
    ensures LastById(ts, id) == ById(ts, id)
  {
    HasIdMember(ts, id);
    if HasId(ts, id) {
      OnlyOneWithId(ts, LastById(ts, id).value, ById(ts, id).value);
    }
  }

  // ---- exactness ----

  /** With unique ids, the table entry for an id is the one definition that has it. */
  lemma LastByIdIs<B(!new)>(ts: seq<Carrier<B>>, t: Carrier<B>)
    requires UniqueIds(ts) && t in ts
    ensures LastById(ts, t.id) == Some(t)
  {
    LastIsFirst(ts, t.id);
    LookupById(ts, t);
  }

  lemma RemovedClean<B(!new)>(prev: seq<Carrier<B>>, curr: seq<Carrier<B>>, collection: string, what: string)
    ensures Clean(Collect(prev, TypeRemoved(curr, collection, what))) <==> forall p | p in prev :: HasId(curr, p.id)
  {
    var report := TypeRemoved(curr, collection, what);
    CollectClean(prev, report);
    forall p | p in prev ensures Clean(report(p)) <==> HasId(curr, p.id) {
      assert !HasId(curr, p.id) ==> report(p)[0].severity.Breaking?;
    }
  }

  lemma RenamedCleanAt<B(!new)>(prev: seq<Carrier<B>>, c: Carrier<B>, collection: string, what: string)
    requires UniqueIds(prev)
    ensures Clean(TypeRenamed(prev, collection, what)(c)) <==> forall p | p in prev && p.id == c.id :: p.name == c.name
  {
    var fs := TypeRenamed(prev, collection, what)(c);
    forall p | p in prev && p.id == c.id ensures LastById(prev, c.id) == Some(p) { LastByIdIs(prev, p); }
    match LastById(prev, c.id)
    case Some(p) => assert p.name != c.name ==> fs[0].severity.Breaking?;
    case None =>
  }

  lemma RenamedClean<B(!new)>(prev: seq<Carrier<B>>, curr: seq<Carrier<B>>, collection: string, what: string)
    requires UniqueIds(prev)
    ensures Clean(Collect(curr, TypeRenamed(prev, collection, what))) <==>
            forall c, p | c in curr && p in prev && p.id == c.id :: p.name == c.name
  {
    var report := TypeRenamed(prev, collection, what);
    CollectClean(curr, report);
    forall c | c in curr ensures Clean(report(c)) <==> forall p | p in prev && p.id == c.id :: p.name == c.name {
      RenamedCleanAt(prev, c, collection, what);
    }
  }

  lemma TypeSetClean<B(!new)>(prev: seq<Carrier<B>>, curr: seq<Carrier<B>>, collection: string, what: string)
    requires UniqueIds(prev) && UniqueIds(curr)
    ensures Clean(TypeSetFindings(prev, curr, collection, what)) <==>
            && (forall p | p in prev :: HasId(curr, p.id))
            && (forall c, p | c in curr && p in prev && p.id == c.id :: p.name == c.name)
  {
    var removed := Collect(prev, TypeRemoved(curr, collection, what));
    var added := Collect(curr, TypeAdded(prev, collection, what));
    var renamed := Collect(curr, TypeRenamed(prev, collection, what));
    CleanConcat(added, renamed);
    CleanConcat(removed, added + renamed);
    RemovedClean(prev, curr, collection, what);
    RenamedClean(prev, curr, collection, what);
    CollectClean(curr, TypeAdded(prev, collection, what));
  }

  /** Judged by pairs of definitions that share an id, evolution is the same relation. */
  lemma TypesEvolveByPairs<B(!new)>(prev: seq<Carrier<B>>, curr: seq<Carrier<B>>, bodies: (B, B) -> bool)
    requires UniqueIds(curr)
    ensures TypesEvolve(prev, curr, bodies) <==>
            && (forall p | p in prev :: HasId(curr, p.id))
            && (forall c, p | c in curr && p in prev && p.id == c.id :: p.name == c.name && bodies(p.body, c.body))
  {
    if TypesEvolve(prev, curr, bodies) {
      forall c, p | c in curr && p in prev && p.id == c.id ensures p.name == c.name && bodies(p.body, c.body) {
        var c' :| c' in curr && c'.id == p.id && c'.name == p.name && bodies(p.body, c'.body);
        OnlyOneWithId(curr, c, c');
      }
    }
    forall p | p in prev ensures HasId(curr, p.id) <==> exists c | c in curr :: c.id == p.id { HasIdMember(curr, p.id); }
  }

  /** A collection diff is clean exactly when the collection evolved, given what each kept pair reports. */
  lemma TypesExact<B(!new)>(
    prev: seq<Carrier<B>>, curr: seq<Carrier<B>>, collection: string, what: string,
    report: Carrier<B> -> seq<Finding>, bodies: (B, B) -> bool)
    requires UniqueIds(prev) && UniqueIds(curr)
    requires forall c | c in curr && ById(prev, c.id).None? :: report(c) == []
    requires forall c, p | c in curr && p in prev && p.id == c.id :: Clean(report(c)) <==> bodies(p.body, c.body)
    ensures Clean(TypeSetFindings(prev, curr, collection, what)) && Clean(Collect(curr, report)) <==> TypesEvolve(prev, curr, bodies)
  {
    TypeSetClean(prev, curr, collection, what);
    TypesEvolveByPairs(prev, curr, bodies);
    CollectClean(curr, report);
    forall c | c in curr ensures Clean(report(c)) <==> forall p | p in prev && p.id == c.id :: bodies(p.body, c.body) {
      if ById(prev, c.id).Some? {
        var p := ById(prev, c.id).value;
        forall q | q in prev && q.id == c.id ensures q == p { OnlyOneWithId(prev, p, q); }
      }
    }
  }

  lemma {:induction false} EnumAddedClean(prev: seq<string>, curr: seq<string>, path: string, n: nat)
    requires n <= |curr|
    ensures Clean(EnumAdded(prev, curr, path, n)) <==> forall i | 0 <= i < n && i < |prev| :: curr[i] in prev
  {
    if n > 0 {
      EnumAddedClean(prev, curr, path, n - 1);
      var front := EnumAdded(prev, curr, path, n - 1);
      var fs := EnumAdded(prev, curr, path, n);
      var last := fs[|front|..];
      assert fs == front + last;
      CleanConcat(front, last);
      assert curr[n - 1] !in prev && n - 1 < |prev| ==> last[0].severity.Breaking?;
    }
  }

  lemma EnumExact(prev: seq<string>, curr: seq<string>, path: string)
    ensures Clean(EnumValueFindings(prev, curr, path)) <==> EnumEvolves(prev, curr)
  {
    var report := EnumRemoved(curr, path);
    CollectClean(prev, report);
    forall v | v in prev ensures Clean(report(v)) <==> v in curr {
      assert v !in curr ==> report(v)[0].severity.Breaking?;
    }
    EnumAddedClean(prev, curr, path, |curr|);
    CleanConcat(Collect(prev, report), EnumAdded(prev, curr, path, |curr|));
  }

  lemma OnlyClean(wanted: bool, f: Finding)
    requires f.severity.Breaking?
    ensures Clean(Only(wanted, f)) <==> !wanted
  {
    assert wanted ==> Only(wanted, f)[0].severity.Breaking?;
  }

  lemma PairExact(owner: string, p: Field, c: Field)
    ensures Clean(PairFindings(owner, p, c)) <==> p.name == c.name && FieldBodyEvolves(p.body, c.body)
  {
    var path := FieldAt(owner, c.name);
    var name := Only(p.name != c.name, Finding(Breaking, "field.renamed", path));
    var kind := Only(p.body.kind != c.body.kind, Finding(Breaking, "field.kind.changed", path));
    var req := Only(p.body.required != c.body.required, Finding(Breaking, ToggleRule(c.body.required), path));
    var ref := Only(RefText(p.body) != RefText(c.body), Finding(Breaking, "field.ref.changed", path));
    var enums := EnumFindings(p.body, c.body, path);
    CleanConcat(ref, enums);
    CleanConcat(req, ref + enums);
    CleanConcat(kind, req + (ref + enums));
    CleanConcat(name, kind + (req + (ref + enums)));
    OnlyClean(p.name != c.name, Finding(Breaking, "field.renamed", path));
    OnlyClean(p.body.kind != c.body.kind, Finding(Breaking, "field.kind.changed", path));
    OnlyClean(p.body.required != c.body.required, Finding(Breaking, ToggleRule(c.body.required), path));
    OnlyClean(RefText(p.body) != RefText(c.body), Finding(Breaking, "field.ref.changed", path));
    EnumExact(ValuesOf(p.body), ValuesOf(c.body), path);
  }

  lemma FieldsRemovedClean(owner: string, prev: seq<Field>, curr: seq<Field>)
    ensures Clean(Collect(prev, FieldRemoved(owner, curr))) <==> forall p | p in prev :: HasId(curr, p.id)
  {
    var report := FieldRemoved(owner, curr);
    CollectClean(prev, report);
    forall p | p in prev ensures Clean(report(p)) <==> HasId(curr, p.id) {
      assert !HasId(curr, p.id) ==> report(p)[0].severity.Breaking?;
    }
  }

  lemma FieldsAddedClean(owner: string, prev: seq<Field>, curr: seq<Field>)
    ensures Clean(Collect(curr, FieldAdded(owner, prev))) <==> forall c | c in curr && c.body.required :: HasId(prev, c.id)
  {
    var report := FieldAdded(owner, prev);
    CollectClean(curr, report);
    forall c | c in curr ensures Clean(report(c)) <==> (c.body.required ==> HasId(prev, c.id)) {
      assert c.body.required && !HasId(prev, c.id) ==> report(c)[0].severity.Breaking?;
    }
  }

  lemma FieldsChangedClean(owner: string, prev: seq<Field>, curr: seq<Field>)
    requires UniqueIds(prev)
    ensures Clean(Collect(curr, FieldChanged(owner, prev))) <==>
            forall c, p | c in curr && p in prev && p.id == c.id :: p.name == c.name && FieldBodyEvolves(p.body, c.body)
  {
    var report := FieldChanged(owner, prev);
    CollectClean(curr, report);
    forall c | c in curr
      ensures Clean(report(c)) <==> forall p | p in prev && p.id == c.id :: p.name == c.name && FieldBodyEvolves(p.body, c.body)
    {
      forall p | p in prev && p.id == c.id ensures LastById(prev, c.id) == Some(p) { LastByIdIs(prev, p); }
      match LastById(prev, c.id)
      case Some(p) => PairExact(owner, p, c);
      case None =>
    }
  }

  lemma FieldsExact(owner: string, prev: seq<Field>, curr: seq<Field>)
    requires UniqueIds(prev) && UniqueIds(curr)
    ensures Clean(FieldFindings(owner, prev, curr)) <==> FieldsEvolve(prev, curr)
  {
    var removed := Collect(prev, FieldRemoved(owner, curr));
    var added := Collect(curr, FieldAdded(owner, prev));
    var changed := Collect(curr, FieldChanged(owner, prev));
    CleanConcat(added, changed);
    CleanConcat(removed, added + changed);
    FieldsRemovedClean(owner, prev, curr);
    FieldsAddedClean(owner, prev, curr);
    FieldsChangedClean(owner, prev, curr);
    TypesEvolveByPairs(prev, curr, FieldBodyEvolves);
  }

  lemma IndexesExact(owner: string, prev: seq<Index>, curr: seq<Index>)
    ensures Clean(IndexFindings(owner, prev, curr)) <==> IndexesEvolve(prev, curr)
  {
    var report := IndexRemoved(owner, curr);
    CollectClean(prev, report);
    forall p | p in prev ensures Clean(report(p)) <==> HasId(curr, p.id) {
      assert !HasId(curr, p.id) ==> report(p)[0].severity.Breaking?;
    }
  }

  lemma EventRemovedClean(stream: string, curr: seq<string>, e: string)
    ensures Clean(EventRemoved(stream, curr)(e)) <==> e in curr
  {
    if e !in curr {
      assert EventRemoved(stream, curr)(e)[0].severity.Breaking?;
    }
  }

  lemma EventsRemovedClean(stream: string, prev: seq<string>, curr: seq<string>)
    ensures Clean(Collect(prev, EventRemoved(stream, curr))) <==> forall e | e in prev :: e in curr
  {
    var removed := EventRemoved(stream, curr);
    CollectClean(prev, removed);
    forall e ensures Clean(removed(e)) <==> e in curr { EventRemovedClean(stream, curr, e); }
  }

  lemma EventsAddedClean(stream: string, prev: seq<string>, curr: seq<string>)
    ensures Clean(Collect(curr, EventAdded(stream, prev)))
  {
    CollectClean(curr, EventAdded(stream, prev));
  }

  lemma EventsExact(stream: string, prev: seq<string>, curr: seq<string>)
    ensures Clean(EventFindings(stream, prev, curr)) <==> forall e | e in prev :: e in curr
  {
    var p, c := Dedup(prev), Dedup(curr);
    EventsRemovedClean(stream, p, c);
    EventsAddedClean(stream, p, c);
    CleanConcat(Collect(p, EventRemoved(stream, c)), Collect(c, EventAdded(stream, p)));
  }

  // ---- one lemma per collection ----

  lemma ObjectsExact(prev: seq<ObjectDef>, curr: seq<ObjectDef>)
    requires IdsIn(prev, ObjectFields) && IdsIn(curr, ObjectFields)
    ensures Clean(TypeSetFindings(prev, curr, "objects", "object")) && Clean(Collect(curr, ObjectChanged(prev))) <==>
            TypesEvolve(prev, curr, ObjectEvolves)
  {
    var report := ObjectChanged(prev);
    forall c, p | c in curr && p in prev && p.id == c.id ensures Clean(report(c)) <==> ObjectEvolves(p.body, c.body) {
      LookupById(prev, p);
      var owner := At("objects", c.name);
      FieldsExact(owner, p.body.fields, c.body.fields);
      IndexesExact(owner, p.body.indexes, c.body.indexes);
      CleanConcat(FieldFindings(owner, p.body.fields, c.body.fields), IndexFindings(owner, p.body.indexes, c.body.indexes));
    }
    TypesExact(prev, curr, "objects", "object", report, ObjectEvolves);
  }

  lemma StreamsExact(prev: seq<StreamDef>, curr: seq<StreamDef>)
    requires IdsIn(prev, StreamKeys) && IdsIn(curr, StreamKeys)
    ensures Clean(TypeSetFindings(prev, curr, "streams", "stream")) && Clean(Collect(curr, StreamChanged(prev))) <==>
            TypesEvolve(prev, curr, StreamEvolves)
  {
    var report := StreamChanged(prev);
    forall c, p | c in curr && p in prev && p.id == c.id ensures Clean(report(c)) <==> StreamEvolves(p.body, c.body) {
      LookupById(prev, p);
      var owner := At("streams", c.name) + ".key";
      FieldsExact(owner, p.body.keyFields, c.body.keyFields);
      EventsExact(c.name, p.body.events, c.body.events);
      CleanConcat(FieldFindings(owner, p.body.keyFields, c.body.keyFields), EventFindings(c.name, p.body.events, c.body.events));
    }
    TypesExact(prev, curr, "streams", "stream", report, StreamEvolves);
  }

  lemma KeyedExact(prev: seq<KeyedDef>, curr: seq<KeyedDef>, collection: string, what: string)
    requires IdsIn(prev, KeyedKeys) && IdsIn(prev, KeyedFields) && IdsIn(curr, KeyedKeys) && IdsIn(curr, KeyedFields)
    ensures Clean(TypeSetFindings(prev, curr, collection, what)) && Clean(Collect(curr, KeyedChanged(collection, prev))) <==>
            TypesEvolve(prev, curr, KeyedEvolves)
  {
    var report := KeyedChanged(collection, prev);
    forall c, p | c in curr && p in prev && p.id == c.id ensures Clean(report(c)) <==> KeyedEvolves(p.body, c.body) {
      LookupById(prev, p);
      var owner := At(collection, c.name);
      FieldsExact(owner + ".key", p.body.keyFields, c.body.keyFields);
      FieldsExact(owner, p.body.fields, c.body.fields);
      CleanConcat(FieldFindings(owner + ".key", p.body.keyFields, c.body.keyFields), FieldFindings(owner, p.body.fields, c.body.fields));
    }
    TypesExact(prev, curr, collection, what, report, KeyedEvolves);
  }

  lemma PlainExact(prev: seq<Carrier<seq<Field>>>, curr: seq<Carrier<seq<Field>>>, collection: string, what: string, suffix: string)
    requires IdsIn(prev, PlainFields) && IdsIn(curr, PlainFields)
    ensures Clean(TypeSetFindings(prev, curr, collection, what)) && Clean(Collect(curr, PlainChanged(collection, suffix, prev))) <==>
            TypesEvolve(prev, curr, FieldsEvolve)
  {
    var report := PlainChanged(collection, suffix, prev);
    forall c, p | c in curr && p in prev && p.id == c.id ensures Clean(report(c)) <==> FieldsEvolve(p.body, c.body) {
      LookupById(prev, p);
      FieldsExact(At(collection, c.name) + suffix, p.body, c.body);
    }
    TypesExact(prev, curr, collection, what, report, FieldsEvolve);
  }

  lemma ProjectionsExact(prev: seq<ProjectionDef>, curr: seq<ProjectionDef>)
    requires IdsIn(prev, ProjectionFields) && IdsIn(curr, ProjectionFields)
    ensures Clean(TypeSetFindings(prev, curr, "projections", "projection")) && Clean(Collect(curr, ProjectionChanged(prev))) <==>
            TypesEvolve(prev, curr, ProjectionEvolves)
  {
    var report := ProjectionChanged(prev);
    forall c, p | c in curr && p in prev && p.id == c.id ensures Clean(report(c)) <==> ProjectionEvolves(p.body, c.body) {
      LookupById(prev, p);
      var owner := At("projections", c.name);
      var fields := FieldFindings(owner, p.body.fields, c.body.fields);
      var indexes := IndexFindings(owner, p.body.indexes, c.body.indexes);
      FieldsExact(owner, p.body.fields, c.body.fields);
      IndexesExact(owner, p.body.indexes, c.body.indexes);
      OnlyClean(p.body.source != c.body.source, Finding(Breaking, "projection.source.changed", owner + ".source"));
      CleanConcat(fields, indexes);
      CleanConcat(SourceFindings(p, c), fields + indexes);
    }
    TypesExact(prev, curr, "projections", "projection", report, ProjectionEvolves);
  }

  // ---- the whole comparison ----

  lemma IdentityExact(curr: Schema, prev: Schema)
    ensures Clean(IdentityFindings(curr, prev)) <==> prev.schemaId == curr.schemaId && prev.schemaRevision <= curr.schemaRevision
  {
    var ids := Only(prev.schemaId != curr.schemaId, Finding(Breaking, "schema.id.changed", "schemaId"));
    var revs := Only(curr.schemaRevision < prev.schemaRevision, Finding(Breaking, "schema.revision.decreased", "schemaRevision"));
    var mins := Only(curr.minimumClientRevision > prev.minimumClientRevision,
                     Finding(Warn, "schema.minimumClientRevision.raised", "minimumClientRevision"));
    OnlyClean(prev.schemaId != curr.schemaId, Finding(Breaking, "schema.id.changed", "schemaId"));
    OnlyClean(curr.schemaRevision < prev.schemaRevision, Finding(Breaking, "schema.revision.decreased", "schemaRevision"));
    CleanConcat(revs, mins);
    CleanConcat(ids, revs + mins);
  }

  lemma EightClean(a: seq<Finding>, b: seq<Finding>, c: seq<Finding>, d: seq<Finding>,
                   e: seq<Finding>, f: seq<Finding>, g: seq<Finding>, h: seq<Finding>)
    ensures Clean(Eight(a, b, c, d, e, f, g, h)) <==>
            Clean(a) && Clean(b) && Clean(c) && Clean(d) && Clean(e) && Clean(f) && Clean(g) && Clean(h)
  {
    CleanConcat(a, b);
    CleanConcat(a + b, c);
    CleanConcat(a + b + c, d);
    CleanConcat(a + b + c + d, e);
    CleanConcat(a + b + c + d + e, f);
    CleanConcat(a + b + c + d + e + f, g);
    CleanConcat(a + b + c + d + e + f + g, h);
  }

  /** Every collection is clean exactly when it is clean part by part. */
  lemma TypeSetsParts(curr: Schema, prev: Schema)
    ensures Clean(TypeSetsFindings(curr, prev)) <==>
            && Clean(TypeSetFindings(prev.objects, curr.objects, "objects", "object"))
            && Clean(TypeSetFindings(prev.streams, curr.streams, "streams", "stream"))
            && Clean(TypeSetFindings(prev.events, curr.events, "events", "event"))
            && Clean(TypeSetFindings(prev.presences, curr.presences, "presences", "presence"))
            && Clean(TypeSetFindings(prev.signals, curr.signals, "signals", "signal"))
            && Clean(TypeSetFindings(prev.blobs, curr.blobs, "blobs", "blob"))
            && Clean(TypeSetFindings(prev.jobs, curr.jobs, "jobs", "job"))
            && Clean(TypeSetFindings(prev.projections, curr.projections, "projections", "projection"))
  {
    EightClean(
      TypeSetFindings(prev.objects, curr.objects, "objects", "object"),
      TypeSetFindings(prev.streams, curr.streams, "streams", "stream"),
      TypeSetFindings(prev.events, curr.events, "events", "event"),
      TypeSetFindings(prev.presences, curr.presences, "presences", "presence"),
      TypeSetFindings(prev.signals, curr.signals, "signals", "signal"),
      TypeSetFindings(prev.blobs, curr.blobs, "blobs", "blob"),
      TypeSetFindings(prev.jobs, curr.jobs, "jobs", "job"),
      TypeSetFindings(prev.projections, curr.projections, "projections", "projection"));
  }

  lemma MembersParts(curr: Schema, prev: Schema)
    ensures Clean(MembersFindings(curr, prev)) <==>
            && Clean(Collect(curr.objects, ObjectChanged(prev.objects)))
            && Clean(Collect(curr.events, PlainChanged("events", "", prev.events)))
            && Clean(Collect(curr.streams, StreamChanged(prev.streams)))
            && Clean(Collect(curr.presences, KeyedChanged("presences", prev.presences)))
            && Clean(Collect(curr.signals, KeyedChanged("signals", prev.signals)))
            && Clean(Collect(curr.blobs, PlainChanged("blobs", ".metadata", prev.blobs)))
            && Clean(Collect(curr.jobs, PlainChanged("jobs", "", prev.jobs)))
            && Clean(Collect(curr.projections, ProjectionChanged(prev.projections)))
  {
    EightClean(
      Collect(curr.objects, ObjectChanged(prev.objects)),
      Collect(curr.events, PlainChanged("events", "", prev.events)),
      Collect(curr.streams, StreamChanged(prev.streams)),
      Collect(curr.presences, KeyedChanged("presences", prev.presences)),
      Collect(curr.signals, KeyedChanged("signals", prev.signals)),
      Collect(curr.blobs, PlainChanged("blobs", ".metadata", prev.blobs)),
      Collect(curr.jobs, PlainChanged("jobs", "", prev.jobs)),
      Collect(curr.projections, ProjectionChanged(prev.projections)));
  }

  lemma DefinitionsExact(curr: Schema, prev: Schema)
    requires IdsUnique(prev) && IdsUnique(curr)
    ensures Clean(TypeSetsFindings(curr, prev)) && Clean(MembersFindings(curr, prev)) <==>
            && TypesEvolve(prev.objects, curr.objects, ObjectEvolves)
            && TypesEvolve(prev.streams, curr.streams, StreamEvolves)
            && TypesEvolve(prev.events, curr.events, FieldsEvolve)
            && TypesEvolve(prev.presences, curr.presences, KeyedEvolves)
            && TypesEvolve(prev.signals, curr.signals, KeyedEvolves)
            && TypesEvolve(prev.blobs, curr.blobs, FieldsEvolve)
            && TypesEvolve(prev.jobs, curr.jobs, FieldsEvolve)
            && TypesEvolve(prev.projections, curr.projections, ProjectionEvolves)
  {
    TypeSetsParts(curr, prev);
    MembersParts(curr, prev);
    ObjectsExact(prev.objects, curr.objects);
    StreamsExact(prev.streams, curr.streams);
    PlainExact(prev.events, curr.events, "events", "event", "");
    KeyedExact(prev.presences, curr.presences, "presences", "presence");
    KeyedExact(prev.signals, curr.signals, "signals", "signal");
    PlainExact(prev.blobs, curr.blobs, "blobs", "blob", ".metadata");
    PlainExact(prev.jobs, curr.jobs, "jobs", "job", "");
    ProjectionsExact(prev.projections, curr.projections);
  }

  /** With unique ids, a comparison has no breaking finding exactly when the schema evolved. */
  lemma LintExact(curr: Schema, prev: Schema)
    requires IdsUnique(prev) && IdsUnique(curr)
    ensures CountBreaking(LintFindings(curr, prev)) == 0 <==> Evolves(prev, curr)
  {
    CountZeroIsClean(LintFindings(curr, prev));
    CleanConcat(TypeSetsFindings(curr, prev), MembersFindings(curr, prev));
    CleanConcat(IdentityFindings(curr, prev), TypeSetsFindings(curr, prev) + MembersFindings(curr, prev));
    IdentityExact(curr, prev);
    DefinitionsExact(curr, prev);
  }

  // ---- a schema against itself ----

  lemma TypeSetSelf<B(!new)>(ts: seq<Carrier<B>>, collection: string, what: string)
    requires UniqueIds(ts)
    ensures TypeSetFindings(ts, ts, collection, what) == []
  {
    CollectNothing(ts, TypeRemoved(ts, collection, what));
    CollectNothing(ts, TypeAdded(ts, collection, what));
    forall t | t in ts ensures TypeRenamed(ts, collection, what)(t) == [] { LastByIdIs(ts, t); }
    CollectNothing(ts, TypeRenamed(ts, collection, what));
  }

  lemma {:induction false} EnumAddedSelf(values: seq<string>, path: string, n: nat)
    requires n <= |values|
    ensures EnumAdded(values, values, path, n) == []
  {
    if n > 0 {
      EnumAddedSelf(values, path, n - 1);
    }
  }

  lemma FieldsSelf(owner: string, fields: seq<Field>)
    requires UniqueIds(fields)
    ensures FieldFindings(owner, fields, fields) == []
  {
    CollectNothing(fields, FieldRemoved(owner, fields));
    CollectNothing(fields, FieldAdded(owner, fields));
    forall f | f in fields ensures FieldChanged(owner, fields)(f) == [] {
      LastByIdIs(fields, f);
      var path, values := FieldAt(owner, f.name), ValuesOf(f.body);
      CollectNothing(values, EnumRemoved(values, path));
      EnumAddedSelf(values, path, |values|);
    }
    CollectNothing(fields, FieldChanged(owner, fields));
  }

  lemma IndexesSelf(owner: string, indexes: seq<Index>)
    ensures IndexFindings(owner, indexes, indexes) == []
  {
    CollectNothing(indexes, IndexRemoved(owner, indexes));
  }

  lemma EventsSelf(stream: string, events: seq<string>)
    ensures EventFindings(stream, events, events) == []
  {
    CollectNothing(Dedup(events), EventRemoved(stream, Dedup(events)));
    CollectNothing(Dedup(events), EventAdded(stream, Dedup(events)));
  }

  lemma MembersSelf(s: Schema)
    requires IdsUnique(s)
    ensures MembersFindings(s, s) == []
  {
    forall o | o in s.objects ensures ObjectChanged(s.objects)(o) == [] {
      LookupById(s.objects, o);
      FieldsSelf(At("objects", o.name), o.body.fields);
      IndexesSelf(At("objects", o.name), o.body.indexes);
    }
    CollectNothing(s.objects, ObjectChanged(s.objects));
    forall t | t in s.streams ensures StreamChanged(s.streams)(t) == [] {
      LookupById(s.streams, t);
      FieldsSelf(At("streams", t.name) + ".key", t.body.keyFields);
      EventsSelf(t.name, t.body.events);
    }
    CollectNothing(s.streams, StreamChanged(s.streams));
    PlainSelf("events", "", s.events);
    KeyedSelf("presences", s.presences);
    KeyedSelf("signals", s.signals);
    PlainSelf("blobs", ".metadata", s.blobs);
    PlainSelf("jobs", "", s.jobs);
    forall p | p in s.projections ensures ProjectionChanged(s.projections)(p) == [] {
      LookupById(s.projections, p);
      FieldsSelf(At("projections", p.name), p.body.fields);
      IndexesSelf(At("projections", p.name), p.body.indexes);
    }
    CollectNothing(s.projections, ProjectionChanged(s.projections));
  }

  lemma PlainSelf(collection: string, suffix: string, ts: seq<Carrier<seq<Field>>>)
    requires IdsIn(ts, PlainFields)
    ensures Collect(ts, PlainChanged(collection, suffix, ts)) == []
  {
    forall t | t in ts ensures PlainChanged(collection, suffix, ts)(t) == [] {
      LookupById(ts, t);
      FieldsSelf(At(collection, t.name) + suffix, t.body);
    }
    CollectNothing(ts, PlainChanged(collection, suffix, ts));
  }

  lemma KeyedSelf(collection: string, ts: seq<KeyedDef>)
    requires IdsIn(ts, KeyedKeys) && IdsIn(ts, KeyedFields)
    ensures Collect(ts, KeyedChanged(collection, ts)) == []
  {
    forall t | t in ts ensures KeyedChanged(collection, ts)(t) == [] {
      LookupById(ts, t);
      FieldsSelf(At(collection, t.name) + ".key", t.body.keyFields);
      FieldsSelf(At(collection, t.name), t.body.fields);
    }
    CollectNothing(ts, KeyedChanged(collection, ts));
  }

  /** A schema compared with itself yields no finding of any severity. */
  lemma SelfComparisonIsSilent(s: Schema)
    requires IdsUnique(s)
    ensures LintFindings(s, s) == []
  {
    TypeSetSelf(s.objects, "objects", "object");
    TypeSetSelf(s.streams, "streams", "stream");
    TypeSetSelf(s.events, "events", "event");
    TypeSetSelf(s.presences, "presences", "presence");
    TypeSetSelf(s.signals, "signals", "signal");
    TypeSetSelf(s.blobs, "blobs", "blob");
    TypeSetSelf(s.jobs, "jobs", "job");
    TypeSetSelf(s.projections, "projections", "projection");
    MembersSelf(s);
  }

  // ---- enum lists ----

  ghost function Members(xs: seq<string>): set<string> { set x | x in xs }

  lemma {:induction false} MembersCount(xs: seq<string>)
    requires Distinct(xs)
    ensures |Members(xs)| == |xs| && multiset(xs) == multiset(Members(xs))
  {
    if xs != [] {
      var front, last := xs[..|xs| - 1], xs[|xs| - 1];
      MembersCount(front);
      assert xs == front + [last];
      assert last !in front;
      assert Members(xs) == Members(front) + {last};
    }
  }

  lemma SubsetSize(a: set<string>, b: set<string>)
    requires a <= b
    ensures |a| <= |b|
    ensures |a| == |b| ==> a == b
  {
    assert b == a + (b - a);
    assert |b| == |a| + |b - a|;
  }

  /** In a list without repetitions, the first `|prev|` values are the old ones in some order exactly when it evolved. */
  lemma EnumEvolvesIsPermutation(prev: seq<string>, curr: seq<string>)
    requires Distinct(curr)
    ensures |prev| <= |curr| ==> (EnumEvolves(prev, curr) <==> multiset(curr[..|prev|]) == multiset(prev))
    ensures EnumEvolves(prev, curr) && Distinct(prev) ==> |prev| <= |curr|
  {
    if EnumEvolves(prev, curr) && Distinct(prev) {
      MembersCount(prev);
      MembersCount(curr);
      SubsetSize(Members(prev), Members(curr));
    }
    if |prev| <= |curr| {
      FirstEntriesPermuted(prev, curr);
    }
  }

  lemma FirstEntriesPermuted(prev: seq<string>, curr: seq<string>)
    requires Distinct(curr) && |prev| <= |curr|
    ensures EnumEvolves(prev, curr) <==> multiset(curr[..|prev|]) == multiset(prev)
  {
    var n := |prev|;
    var front := curr[..n];
    MembersCount(front);
    if EnumEvolves(prev, curr) {
      assert Members(front) <= Members(prev);
      SubsetSize(Members(front), Members(prev));
      AtMostOnce(prev);
    } else if multiset(front) == multiset(prev) {
      forall v | v in prev ensures v in curr { assert v in multiset(front); }
      forall i | 0 <= i < n ensures curr[i] in prev { assert front[i] in multiset(prev); }
    }
  }

  /** As many members as entries: no repetition. */
  lemma {:induction false} AtMostOnce(xs: seq<string>)
    ensures |Members(xs)| <= |xs|
    ensures |Members(xs)| == |xs| ==> multiset(xs) == multiset(Members(xs))
  {
    if xs != [] {
      var front, last := xs[..|xs| - 1], xs[|xs| - 1];
      AtMostOnce(front);
      assert xs == front + [last];
      assert Members(xs) == Members(front) + {last};
    }
  }

  /** With repetitions the two notions part: values may change how often they occur. */
  lemma RepetitionsAreNotCounted()
    ensures EnumEvolves(["x", "x", "y"], ["x", "y", "y"])
    ensures multiset(["x", "y", "y"]) != multiset(["x", "x", "y"])
  {
    assert multiset(["x", "y", "y"])["y"] == 2 && multiset(["x", "x", "y"])["y"] == 1;
  }

  ghost predicate AllEqual(xs: seq<string>) { forall i, j | 0 <= i < j < |xs| :: xs[i] == xs[j] }

  /** Whatever list evolved into `curr`, it was a permutation of as many first entries. */
  ghost predicate AlwaysPermuted(curr: seq<string>) {
    forall prev | |prev| <= |curr| && EnumEvolves(prev, curr) :: multiset(curr[..|prev|]) == multiset(prev)
  }

  lemma EqualListsPermuted(prev: seq<string>, curr: seq<string>)
    requires AllEqual(curr) && |prev| <= |curr| && EnumEvolves(prev, curr)
    ensures curr[..|prev|] == prev
  {
    forall i | 0 <= i < |prev| ensures curr[..|prev|][i] == prev[i] { assert prev[i] in curr; }
  }

  /** One copy of a repeated value replaced by another value: nothing is dropped or inserted. */
  lemma ReplacedCopy(curr: seq<string>, i: nat, j: nat, k: nat)
    requires i < |curr| && j < |curr| && k < |curr| && i != j && curr[i] == curr[j] && curr[k] != curr[j]
    ensures EnumEvolves(curr[j := curr[k]], curr) && multiset(curr[j := curr[k]]) != multiset(curr)
  {
    var prev := curr[j := curr[k]];
    forall n | 0 <= n < |curr| ensures curr[n] in prev { assert n != j ==> prev[n] == curr[n]; assert prev[i] == curr[j]; }
    assert multiset(prev)[curr[k]] == multiset(curr)[curr[k]] + 1;
  }

  /** The first entries are always a permutation exactly when the new list has no repetition, or nothing else. */
  lemma AlwaysPermutedExactly(curr: seq<string>)
    ensures AlwaysPermuted(curr) <==> Distinct(curr) || AllEqual(curr)
  {
    if Distinct(curr) || AllEqual(curr) {
      forall prev | |prev| <= |curr| && EnumEvolves(prev, curr) ensures multiset(curr[..|prev|]) == multiset(prev) {
        if Distinct(curr) {
          FirstEntriesPermuted(prev, curr);
        } else {
          EqualListsPermuted(prev, curr);
        }
      }
    } else {
      var i, j :| 0 <= i < j < |curr| && curr[i] == curr[j];
      var a, b :| 0 <= a < b < |curr| && curr[a] != curr[b];
      var k := if curr[a] != curr[j] then a else b;
      ReplacedCopy(curr, i, j, k);
      assert curr[..|curr|] == curr;
    }
  }

  /** Reordering old values is not reported, so clean steps do not compose into a clean comparison. */
  lemma EnumEvolutionIsNotTransitive()
    ensures EnumEvolves(["x"], ["x", "y"]) && EnumEvolves(["x", "y"], ["y", "x"]) && !EnumEvolves(["x"], ["y", "x"])
  {
    assert ["y", "x"][0] == "y" && ["y", "x"][1] == "x" && ["x", "y"][0] == "x" && ["x", "y"][1] == "y";
    assert "y" !in ["x"];
  }
}
