/** Which findings a comparison reports, read off the two schemas. */
module Findings {
  import opened Text
  import opened Schemas
  import opened Lint
  import opened LintRules

  lemma {:induction false} CollectMember<T(!new)>(xs: seq<T>, report: T -> seq<Finding>, f: Finding)
    ensures f in Collect(xs, report) <==> exists x | x in xs :: f in report(x)
  {
    if xs != [] {
      var front, last := xs[..|xs| - 1], xs[|xs| - 1];
      CollectMember(front, report, f);
      assert xs == front + [last];
    }
  }

  // ---- pairing definitions by id ----

  /** The first definition with its id: what a search finds. */
  ghost function Earliest<B(!new)>(ts: seq<Carrier<B>>): int -> bool {
    i => 0 <= i < |ts| && forall j | 0 <= j < i :: ts[j].id != ts[i].id
  }

  /** The last definition with its id: what a table filled in order keeps. */
  ghost function Latest<B(!new)>(ts: seq<Carrier<B>>): int -> bool {
    i => 0 <= i < |ts| && forall j | i < j < |ts| :: ts[j].id != ts[i].id
  }

  ghost predicate Stands<B>(ts: seq<Carrier<B>>, chosen: int -> bool, i: int, id: int) {
    0 <= i < |ts| && chosen(i) && ts[i].id == id
  }

  lemma {:induction false} EarliestFound<B(!new)>(ts: seq<Carrier<B>>, i: nat) returns (k: nat)
    requires i < |ts|
    ensures Stands(ts, Earliest(ts), k, ts[i].id) && ById(ts, ts[i].id) == Some(ts[k])
  {
    if j :| 0 <= j < i && ts[j].id == ts[i].id {
      k := EarliestFound(ts, j);
    } else {
      k := i;
      LookupsFindFirst(ts, i);
    }
  }

  lemma {:induction false} LatestFound<B(!new)>(ts: seq<Carrier<B>>, i: nat) returns (k: nat)
    requires i < |ts|
    ensures Stands(ts, Latest(ts), k, ts[i].id) && LastById(ts, ts[i].id) == Some(ts[k])
    decreases |ts| - i
  {
    if j :| i < j < |ts| && ts[j].id == ts[i].id {
      k := LatestFound(ts, j);
    } else {
      k := i;
      LastByIdIsLast(ts, i);
    }
  }

  /** A definition and the chosen one with its id are as `about` says. */
  ghost predicate SomePair<B(!new)>(prev: seq<Carrier<B>>, curr: seq<Carrier<B>>, chosen: int -> bool, about: (Carrier<B>, Carrier<B>) -> bool) {
    exists i, c | c in curr && Stands(prev, chosen, i, c.id) :: about(prev[i], c)
  }

  /** A report made definition by definition is a report on pairs. */
  lemma PairsMember<B(!new)>(
    prev: seq<Carrier<B>>, curr: seq<Carrier<B>>, chosen: int -> bool, find: int -> Option<Carrier<B>>,
    report: Carrier<B> -> seq<Finding>, about: (Carrier<B>, Carrier<B>) -> bool, f: Finding)
    requires forall i, j, id | Stands(prev, chosen, i, id) && Stands(prev, chosen, j, id) :: i == j
    requires forall c | c in curr && f in report(c) :: HasId(prev, c.id)
    requires forall c | c in curr && HasId(prev, c.id) :: exists i :: Stands(prev, chosen, i, c.id) && find(c.id) == Some(prev[i])
    requires forall c | c in curr && find(c.id).Some? :: f in report(c) <==> about(find(c.id).value, c)
    ensures f in Collect(curr, report) <==> SomePair(prev, curr, chosen, about)
  {
    CollectMember(curr, report, f);
    if f in Collect(curr, report) {
      var c :| c in curr && f in report(c);
      var i :| Stands(prev, chosen, i, c.id) && find(c.id) == Some(prev[i]);
      assert about(prev[i], c);
    }
    if SomePair(prev, curr, chosen, about) {
      var i, c :| c in curr && Stands(prev, chosen, i, c.id) && about(prev[i], c);
      assert HasId(prev, c.id);
      var j :| Stands(prev, chosen, j, c.id) && find(c.id) == Some(prev[j]);
    }
  }

  /** Reports on what a search of the older schema finds. */
  lemma SearchedMember<B(!new)>(
    prev: seq<Carrier<B>>, curr: seq<Carrier<B>>, report: Carrier<B> -> seq<Finding>, about: (Carrier<B>, Carrier<B>) -> bool, f: Finding)
    requires forall c | c in curr && ById(prev, c.id).None? :: report(c) == []
    requires forall c | c in curr && ById(prev, c.id).Some? :: f in report(c) <==> about(ById(prev, c.id).value, c)
    ensures f in Collect(curr, report) <==> SomePair(prev, curr, Earliest(prev), about)
  {
    forall c | c in curr && HasId(prev, c.id)
      ensures exists i :: Stands(prev, Earliest(prev), i, c.id) && ById(prev, c.id) == Some(prev[i])
    {
      var i :| 0 <= i < |prev| && prev[i].id == c.id;
      var k := EarliestFound(prev, i);
    }
    PairsMember(prev, curr, Earliest(prev), id => ById(prev, id), report, about, f);
  }

  /** Reports on what a table of the older schema holds. */
  lemma TabledMember<B(!new)>(
    prev: seq<Carrier<B>>, curr: seq<Carrier<B>>, report: Carrier<B> -> seq<Finding>, about: (Carrier<B>, Carrier<B>) -> bool, f: Finding)
    requires forall c | c in curr && LastById(prev, c.id).None? :: report(c) == []
    requires forall c | c in curr && LastById(prev, c.id).Some? :: f in report(c) <==> about(LastById(prev, c.id).value, c)
    ensures f in Collect(curr, report) <==> SomePair(prev, curr, Latest(prev), about)
  {
    forall c | c in curr && HasId(prev, c.id)
      ensures exists i :: Stands(prev, Latest(prev), i, c.id) && LastById(prev, c.id) == Some(prev[i])
    {
      var i :| 0 <= i < |prev| && prev[i].id == c.id;
      var k := LatestFound(prev, i);
    }
    PairsMember(prev, curr, Latest(prev), id => LastById(prev, id), report, about, f);
  }

  // ---- collections ----

  ghost predicate Removed<B(!new)>(prev: seq<Carrier<B>>, curr: seq<Carrier<B>>, collection: string, what: string, f: Finding) {
    exists p | p in prev :: !HasId(curr, p.id) && f == Finding(Breaking, what + ".removed", collection + "[" + p.name + "]")
  }

  ghost predicate Added<B(!new)>(prev: seq<Carrier<B>>, curr: seq<Carrier<B>>, collection: string, what: string, f: Finding) {
    exists c | c in curr :: !HasId(prev, c.id) && f == Finding(Info, what + ".added", collection + "[" + c.name + "]")
  }

  ghost function RenamedPair<B>(collection: string, what: string, f: Finding): (Carrier<B>, Carrier<B>) -> bool {
    (p: Carrier<B>, c: Carrier<B>) => p.name != c.name && f == Finding(Breaking, what + ".renamed", collection + "[" + c.name + "]")
  }

  ghost predicate Renamed<B(!new)>(prev: seq<Carrier<B>>, curr: seq<Carrier<B>>, collection: string, what: string, f: Finding) {
    SomePair(prev, curr, Latest(prev), RenamedPair(collection, what, f))
  }

  ghost predicate TypeReports<B(!new)>(prev: seq<Carrier<B>>, curr: seq<Carrier<B>>, collection: string, what: string, f: Finding) {
    Removed(prev, curr, collection, what, f) || Added(prev, curr, collection, what, f) || Renamed(prev, curr, collection, what, f)
  }

  lemma RenamedExactly<B(!new)>(prev: seq<Carrier<B>>, curr: seq<Carrier<B>>, collection: string, what: string, f: Finding)
    ensures f in Collect(curr, TypeRenamed(prev, collection, what)) <==> Renamed(prev, curr, collection, what, f)
  {
    var report, about := TypeRenamed(prev, collection, what), RenamedPair(collection, what, f);
    TabledMember(prev, curr, report, about, f);
  }

  lemma TypeFindingsExactly<B(!new)>(prev: seq<Carrier<B>>, curr: seq<Carrier<B>>, collection: string, what: string, f: Finding)
    ensures f in TypeSetFindings(prev, curr, collection, what) <==> TypeReports(prev, curr, collection, what, f)
  {
    CollectMember(prev, TypeRemoved(curr, collection, what), f);
    CollectMember(curr, TypeAdded(prev, collection, what), f);
    RenamedExactly(prev, curr, collection, what, f);
  }

  // ---- enum values ----

  ghost predicate EnumReports(prev: seq<string>, curr: seq<string>, path: string, f: Finding) {
    || (f == Finding(Breaking, "enum.value.removed", path) && exists v | v in prev :: v !in curr)
    || (f == Finding(Warn, "enum.value.added.trailing", path) && exists i | |prev| <= i < |curr| :: curr[i] !in prev)
    || (f == Finding(Breaking, "enum.value.inserted", path) && exists i | 0 <= i < |prev| && i < |curr| :: curr[i] !in prev)
  }

  lemma {:induction false} EnumAddedExactly(prev: seq<string>, curr: seq<string>, path: string, n: nat, f: Finding)
    requires n <= |curr|
    ensures f in EnumAdded(prev, curr, path, n) <==>
            || (f == Finding(Warn, "enum.value.added.trailing", path) && exists i | |prev| <= i < n :: curr[i] !in prev)
            || (f == Finding(Breaking, "enum.value.inserted", path) && exists i | 0 <= i < n && i < |prev| :: curr[i] !in prev)
  {
    if n > 0 {
      EnumAddedExactly(prev, curr, path, n - 1, f);
    }
  }

  lemma EnumFindingsExactly(prev: seq<string>, curr: seq<string>, path: string, f: Finding)
    ensures f in EnumValueFindings(prev, curr, path) <==> EnumReports(prev, curr, path, f)
  {
    CollectMember(prev, EnumRemoved(curr, path), f);
    EnumAddedExactly(prev, curr, path, |curr|, f);
  }

  // ---- fields ----

  /** What is reported about two fields that share an id. */
  ghost predicate PairReports(owner: string, p: Field, c: Field, f: Finding) {
    var path := owner + ".fields[" + c.name + "]";
    || (p.name != c.name && f == Finding(Breaking, "field.renamed", path))
    || (p.body.kind != c.body.kind && f == Finding(Breaking, "field.kind.changed", path))
    || (!p.body.required && c.body.required && f == Finding(Breaking, "field.required.toggled", path))
    || (p.body.required && !c.body.required && f == Finding(Breaking, "field.optional.toggled", path))
    || (RefText(p.body) != RefText(c.body) && f == Finding(Breaking, "field.ref.changed", path))
    || (p.body.kind.KEnum? && c.body.kind.KEnum? && EnumReports(ValuesOf(p.body), ValuesOf(c.body), path, f))
  }

  lemma PairFindingsExactly(owner: string, p: Field, c: Field, f: Finding)
    ensures f in PairFindings(owner, p, c) <==> PairReports(owner, p, c, f)
  {
    EnumFindingsExactly(ValuesOf(p.body), ValuesOf(c.body), FieldAt(owner, c.name), f);
  }

  ghost function FieldPair(owner: string, f: Finding): (Field, Field) -> bool { (p: Field, c: Field) => PairReports(owner, p, c, f) }

  ghost predicate FieldReports(owner: string, prev: seq<Field>, curr: seq<Field>, f: Finding) {
    || (exists p | p in prev :: !HasId(curr, p.id) && f == Finding(Breaking, "field.removed", owner + ".fields[" + p.name + "]"))
    || (exists c | c in curr ::
          !HasId(prev, c.id) && c.body.required && f == Finding(Breaking, "field.required.added", owner + ".fields[" + c.name + "]"))
    || (exists c | c in curr ::
          !HasId(prev, c.id) && !c.body.required && f == Finding(Info, "field.optional.added", owner + ".fields[" + c.name + "]"))
    || SomePair(prev, curr, Latest(prev), FieldPair(owner, f))
  }

  lemma FieldsChangedExactly(owner: string, prev: seq<Field>, curr: seq<Field>, f: Finding)
    ensures f in Collect(curr, FieldChanged(owner, prev)) <==> SomePair(prev, curr, Latest(prev), FieldPair(owner, f))
  {
    var report, about := FieldChanged(owner, prev), FieldPair(owner, f);
    forall c | c in curr && LastById(prev, c.id).Some? ensures f in report(c) <==> about(LastById(prev, c.id).value, c) {
      PairFindingsExactly(owner, LastById(prev, c.id).value, c, f);
    }
    TabledMember(prev, curr, report, about, f);
  }

  lemma FieldFindingsExactly(owner: string, prev: seq<Field>, curr: seq<Field>, f: Finding)
    ensures f in FieldFindings(owner, prev, curr) <==> FieldReports(owner, prev, curr, f)
  {
    CollectMember(prev, FieldRemoved(owner, curr), f);
    CollectMember(curr, FieldAdded(owner, prev), f);
    FieldsChangedExactly(owner, prev, curr, f);
  }

  // ---- indexes and stream events ----

  ghost predicate IndexReports(owner: string, prev: seq<Index>, curr: seq<Index>, f: Finding) {
    exists p | p in prev :: !HasId(curr, p.id) && f == Finding(Breaking, "index.removed", owner + ".indexes[" + p.name + "]")
  }

  lemma IndexFindingsExactly(owner: string, prev: seq<Index>, curr: seq<Index>, f: Finding)
    ensures f in IndexFindings(owner, prev, curr) <==> IndexReports(owner, prev, curr, f)
  {
    CollectMember(prev, IndexRemoved(owner, curr), f);
  }

  ghost predicate EventReports(stream: string, prev: seq<string>, curr: seq<string>, f: Finding) {
    || (exists e | e in prev :: e !in curr && f == Finding(Breaking, "stream.event.removed", "streams" + "[" + stream + "]" + ".events[" + e + "]"))
    || (exists e | e in curr :: e !in prev && f == Finding(Info, "stream.event.added", "streams" + "[" + stream + "]" + ".events[" + e + "]"))
  }

  lemma EventFindingsExactly(stream: string, prev: seq<string>, curr: seq<string>, f: Finding)
    ensures f in EventFindings(stream, prev, curr) <==> EventReports(stream, prev, curr, f)
  {
    var p, c := Dedup(prev), Dedup(curr);
    CollectMember(p, EventRemoved(stream, c), f);
    CollectMember(c, EventAdded(stream, p), f);
  }

  // ---- definitions that both schemas have ----

  ghost function ObjectPair(f: Finding): (ObjectDef, ObjectDef) -> bool {
    (p: ObjectDef, c: ObjectDef) =>
      || FieldReports("objects" + "[" + c.name + "]", p.body.fields, c.body.fields, f)
      || IndexReports("objects" + "[" + c.name + "]", p.body.indexes, c.body.indexes, f)
  }

  lemma ObjectFindingsExactly(prev: seq<ObjectDef>, curr: seq<ObjectDef>, f: Finding)
    ensures f in Collect(curr, ObjectChanged(prev)) <==> SomePair(prev, curr, Earliest(prev), ObjectPair(f))
  {
    var report, about := ObjectChanged(prev), ObjectPair(f);
    forall c | c in curr && ById(prev, c.id).Some? ensures f in report(c) <==> about(ById(prev, c.id).value, c) {
      var p := ById(prev, c.id).value;
      FieldFindingsExactly(At("objects", c.name), p.body.fields, c.body.fields, f);
      IndexFindingsExactly(At("objects", c.name), p.body.indexes, c.body.indexes, f);
    }
    SearchedMember(prev, curr, report, about, f);
  }

  ghost function StreamPair(f: Finding): (StreamDef, StreamDef) -> bool {
    (p: StreamDef, c: StreamDef) =>
      || FieldReports("streams" + "[" + c.name + "]" + ".key", p.body.keyFields, c.body.keyFields, f)
      || EventReports(c.name, p.body.events, c.body.events, f)
  }

  lemma StreamFindingsExactly(prev: seq<StreamDef>, curr: seq<StreamDef>, f: Finding)
    ensures f in Collect(curr, StreamChanged(prev)) <==> SomePair(prev, curr, Earliest(prev), StreamPair(f))
  {
    var report, about := StreamChanged(prev), StreamPair(f);
    forall c | c in curr && ById(prev, c.id).Some? ensures f in report(c) <==> about(ById(prev, c.id).value, c) {
      var p := ById(prev, c.id).value;
      FieldFindingsExactly(At("streams", c.name) + ".key", p.body.keyFields, c.body.keyFields, f);
      EventFindingsExactly(c.name, p.body.events, c.body.events, f);
    }
    SearchedMember(prev, curr, report, about, f);
  }

  ghost function PlainPair(collection: string, suffix: string, f: Finding): (Carrier<seq<Field>>, Carrier<seq<Field>>) -> bool {
    (p: Carrier<seq<Field>>, c: Carrier<seq<Field>>) => FieldReports(collection + "[" + c.name + "]" + suffix, p.body, c.body, f)
  }

  lemma PlainFindingsExactly(collection: string, suffix: string, prev: seq<Carrier<seq<Field>>>, curr: seq<Carrier<seq<Field>>>, f: Finding)
    ensures f in Collect(curr, PlainChanged(collection, suffix, prev)) <==> SomePair(prev, curr, Earliest(prev), PlainPair(collection, suffix, f))
  {
    var report, about := PlainChanged(collection, suffix, prev), PlainPair(collection, suffix, f);
    forall c | c in curr && ById(prev, c.id).Some? ensures f in report(c) <==> about(ById(prev, c.id).value, c) {
      var p := ById(prev, c.id).value;
      FieldFindingsExactly(At(collection, c.name) + suffix, p.body, c.body, f);
    }
    SearchedMember(prev, curr, report, about, f);
  }

  ghost function KeyedPair(collection: string, f: Finding): (KeyedDef, KeyedDef) -> bool {
    (p: KeyedDef, c: KeyedDef) =>
      || FieldReports(collection + "[" + c.name + "]" + ".key", p.body.keyFields, c.body.keyFields, f)
      || FieldReports(collection + "[" + c.name + "]", p.body.fields, c.body.fields, f)
  }

  lemma KeyedFindingsExactly(collection: string, prev: seq<KeyedDef>, curr: seq<KeyedDef>, f: Finding)
    ensures f in Collect(curr, KeyedChanged(collection, prev)) <==> SomePair(prev, curr, Earliest(prev), KeyedPair(collection, f))
  {
    var report, about := KeyedChanged(collection, prev), KeyedPair(collection, f);
    forall c | c in curr && ById(prev, c.id).Some? ensures f in report(c) <==> about(ById(prev, c.id).value, c) {
      var p := ById(prev, c.id).value;
      FieldFindingsExactly(At(collection, c.name) + ".key", p.body.keyFields, c.body.keyFields, f);
      FieldFindingsExactly(At(collection, c.name), p.body.fields, c.body.fields, f);
    }
    SearchedMember(prev, curr, report, about, f);
  }

  ghost function ProjectionPair(f: Finding): (ProjectionDef, ProjectionDef) -> bool {
    (p: ProjectionDef, c: ProjectionDef) =>
      || (p.body.source != c.body.source && f == Finding(Breaking, "projection.source.changed", "projections" + "[" + c.name + "]" + ".source"))
      || FieldReports("projections" + "[" + c.name + "]", p.body.fields, c.body.fields, f)
      || IndexReports("projections" + "[" + c.name + "]", p.body.indexes, c.body.indexes, f)
  }

  lemma ProjectionFindingsExactly(prev: seq<ProjectionDef>, curr: seq<ProjectionDef>, f: Finding)
    ensures f in Collect(curr, ProjectionChanged(prev)) <==> SomePair(prev, curr, Earliest(prev), ProjectionPair(f))
  {
    var report, about := ProjectionChanged(prev), ProjectionPair(f);
    forall c | c in curr && ById(prev, c.id).Some? ensures f in report(c) <==> about(ById(prev, c.id).value, c) {
      var p := ById(prev, c.id).value;
      FieldFindingsExactly(At("projections", c.name), p.body.fields, c.body.fields, f);
      IndexFindingsExactly(At("projections", c.name), p.body.indexes, c.body.indexes, f);
    }
    SearchedMember(prev, curr, report, about, f);
  }

  // ---- the whole comparison ----

  ghost predicate IdentityReports(prev: Schema, curr: Schema, f: Finding) {
    || (prev.schemaId != curr.schemaId && f == Finding(Breaking, "schema.id.changed", "schemaId"))
    || (curr.schemaRevision < prev.schemaRevision && f == Finding(Breaking, "schema.revision.decreased", "schemaRevision"))
    || (curr.minimumClientRevision > prev.minimumClientRevision
        && f == Finding(Warn, "schema.minimumClientRevision.raised", "minimumClientRevision"))
  }

  ghost predicate CollectionReports(prev: Schema, curr: Schema, f: Finding) {
    || TypeReports(prev.objects, curr.objects, "objects", "object", f)
    || TypeReports(prev.streams, curr.streams, "streams", "stream", f)
    || TypeReports(prev.events, curr.events, "events", "event", f)
    || TypeReports(prev.presences, curr.presences, "presences", "presence", f)
    || TypeReports(prev.signals, curr.signals, "signals", "signal", f)
    || TypeReports(prev.blobs, curr.blobs, "blobs", "blob", f)
    || TypeReports(prev.jobs, curr.jobs, "jobs", "job", f)
    || TypeReports(prev.projections, curr.projections, "projections", "projection", f)
  }

  ghost predicate MemberReports(prev: Schema, curr: Schema, f: Finding) {
    || SomePair(prev.objects, curr.objects, Earliest(prev.objects), ObjectPair(f))
    || SomePair(prev.events, curr.events, Earliest(prev.events), PlainPair("events", "", f))
    || SomePair(prev.streams, curr.streams, Earliest(prev.streams), StreamPair(f))
    || SomePair(prev.presences, curr.presences, Earliest(prev.presences), KeyedPair("presences", f))
    || SomePair(prev.signals, curr.signals, Earliest(prev.signals), KeyedPair("signals", f))
    || SomePair(prev.blobs, curr.blobs, Earliest(prev.blobs), PlainPair("blobs", ".metadata", f))
    || SomePair(prev.jobs, curr.jobs, Earliest(prev.jobs), PlainPair("jobs", "", f))
    || SomePair(prev.projections, curr.projections, Earliest(prev.projections), ProjectionPair(f))
  }

  lemma IdentityFindingsExactly(prev: Schema, curr: Schema, f: Finding)
    ensures f in IdentityFindings(curr, prev) <==> IdentityReports(prev, curr, f)
  {
    var a := Only(prev.schemaId != curr.schemaId, Finding(Breaking, "schema.id.changed", "schemaId"));
    var b := Only(curr.schemaRevision < prev.schemaRevision, Finding(Breaking, "schema.revision.decreased", "schemaRevision"));
    var c := Only(curr.minimumClientRevision > prev.minimumClientRevision,
                  Finding(Warn, "schema.minimumClientRevision.raised", "minimumClientRevision"));
    ConcatMember(b, c, f);
    ConcatMember(a, b + c, f);
  }

  lemma ConcatMember<T>(a: seq<T>, b: seq<T>, x: T)
    ensures x in a + b <==> x in a || x in b
  {
  }

  lemma CollectionFindingsExactly(prev: Schema, curr: Schema, f: Finding)
    ensures f in TypeSetsFindings(curr, prev) <==> CollectionReports(prev, curr, f)
  {
    TypeFindingsExactly(prev.objects, curr.objects, "objects", "object", f);
    TypeFindingsExactly(prev.streams, curr.streams, "streams", "stream", f);
    TypeFindingsExactly(prev.events, curr.events, "events", "event", f);
    TypeFindingsExactly(prev.presences, curr.presences, "presences", "presence", f);
    TypeFindingsExactly(prev.signals, curr.signals, "signals", "signal", f);
    TypeFindingsExactly(prev.blobs, curr.blobs, "blobs", "blob", f);
    TypeFindingsExactly(prev.jobs, curr.jobs, "jobs", "job", f);
    TypeFindingsExactly(prev.projections, curr.projections, "projections", "projection", f);
  }

  lemma MemberFindingsExactly(prev: Schema, curr: Schema, f: Finding)
    ensures f in MembersFindings(curr, prev) <==> MemberReports(prev, curr, f)
  {
    ObjectFindingsExactly(prev.objects, curr.objects, f);
    PlainFindingsExactly("events", "", prev.events, curr.events, f);
    StreamFindingsExactly(prev.streams, curr.streams, f);
    KeyedFindingsExactly("presences", prev.presences, curr.presences, f);
    KeyedFindingsExactly("signals", prev.signals, curr.signals, f);
    PlainFindingsExactly("blobs", ".metadata", prev.blobs, curr.blobs, f);
    PlainFindingsExactly("jobs", "", prev.jobs, curr.jobs, f);
    ProjectionFindingsExactly(prev.projections, curr.projections, f);
  }

  ghost predicate Reports(prev: Schema, curr: Schema, f: Finding) {
    IdentityReports(prev, curr, f) || CollectionReports(prev, curr, f) || MemberReports(prev, curr, f)
  }

  lemma ThreeMembers<T>(a: seq<T>, b: seq<T>, c: seq<T>, x: T)
    ensures x in a + (b + c) <==> x in a || x in b || x in c
  {
    ConcatMember(b, c, x);
    ConcatMember(a, b + c, x);
  }

  /** Every rule at once: a finding is reported exactly when the two schemas differ in the way it says, at the place it says. */
  lemma FindingsExactly(prev: Schema, curr: Schema, f: Finding)
    ensures f in LintFindings(curr, prev) <==> Reports(prev, curr, f)
  {
    IdentityFindingsExactly(prev, curr, f);
    CollectionFindingsExactly(prev, curr, f);
    MemberFindingsExactly(prev, curr, f);
    ThreeMembers(IdentityFindings(curr, prev), TypeSetsFindings(curr, prev), MembersFindings(curr, prev), f);
  }

  // ---- one rule alone ----

  predicate AboutObjects(f: Finding) { f.rule != "" && f.rule[0] == 'o' }

  lemma FieldsAreNotObjects(owner: string, prev: seq<Field>, curr: seq<Field>, f: Finding)
    requires FieldReports(owner, prev, curr, f)
    ensures !AboutObjects(f)
  {
  }

  lemma PartsAreNotObjects(owner: string, prev: seq<Index>, curr: seq<Index>, stream: string, before: seq<string>, after: seq<string>, f: Finding)
    requires IndexReports(owner, prev, curr, f) || EventReports(stream, before, after, f)
    ensures !AboutObjects(f)
  {
  }

  lemma TypesAreNotObjects<B(!new)>(prev: seq<Carrier<B>>, curr: seq<Carrier<B>>, collection: string, what: string, f: Finding)
    requires TypeReports(prev, curr, collection, what, f) && what != "" && what[0] != 'o'
    ensures !AboutObjects(f)
  {
  }

  lemma ObjectPairsAreNot(prev: seq<ObjectDef>, curr: seq<ObjectDef>, f: Finding)
    requires SomePair(prev, curr, Earliest(prev), ObjectPair(f))
    ensures !AboutObjects(f)
  {
    var i, c :| c in curr && Stands(prev, Earliest(prev), i, c.id) && ObjectPair(f)(prev[i], c);
    var p, owner := prev[i], "objects" + "[" + c.name + "]";
    if FieldReports(owner, p.body.fields, c.body.fields, f) {
      FieldsAreNotObjects(owner, p.body.fields, c.body.fields, f);
    } else {
      PartsAreNotObjects(owner, p.body.indexes, c.body.indexes, "", [], [], f);
    }
  }

  lemma StreamPairsAreNot(prev: seq<StreamDef>, curr: seq<StreamDef>, f: Finding)
    requires SomePair(prev, curr, Earliest(prev), StreamPair(f))
    ensures !AboutObjects(f)
  {
    var i, c :| c in curr && Stands(prev, Earliest(prev), i, c.id) && StreamPair(f)(prev[i], c);
    var p, owner := prev[i], "streams" + "[" + c.name + "]" + ".key";
    if FieldReports(owner, p.body.keyFields, c.body.keyFields, f) {
      FieldsAreNotObjects(owner, p.body.keyFields, c.body.keyFields, f);
    } else {
      PartsAreNotObjects("", [], [], c.name, p.body.events, c.body.events, f);
    }
  }

  lemma PlainPairsAreNot(collection: string, suffix: string, prev: seq<Carrier<seq<Field>>>, curr: seq<Carrier<seq<Field>>>, f: Finding)
    requires SomePair(prev, curr, Earliest(prev), PlainPair(collection, suffix, f))
    ensures !AboutObjects(f)
  {
    var i, c :| c in curr && Stands(prev, Earliest(prev), i, c.id) && PlainPair(collection, suffix, f)(prev[i], c);
    FieldsAreNotObjects(collection + "[" + c.name + "]" + suffix, prev[i].body, c.body, f);
  }

  lemma KeyedPairsAreNot(collection: string, prev: seq<KeyedDef>, curr: seq<KeyedDef>, f: Finding)
    requires SomePair(prev, curr, Earliest(prev), KeyedPair(collection, f))
    ensures !AboutObjects(f)
  {
    var i, c :| c in curr && Stands(prev, Earliest(prev), i, c.id) && KeyedPair(collection, f)(prev[i], c);
    var p, owner := prev[i], collection + "[" + c.name + "]";
    if FieldReports(owner, p.body.fields, c.body.fields, f) {
      FieldsAreNotObjects(owner, p.body.fields, c.body.fields, f);
    } else {
      FieldsAreNotObjects(owner + ".key", p.body.keyFields, c.body.keyFields, f);
    }
  }

  lemma ProjectionPairsAreNot(prev: seq<ProjectionDef>, curr: seq<ProjectionDef>, f: Finding)
    requires SomePair(prev, curr, Earliest(prev), ProjectionPair(f))
    ensures !AboutObjects(f)
  {
    var i, c :| c in curr && Stands(prev, Earliest(prev), i, c.id) && ProjectionPair(f)(prev[i], c);
    var p, owner := prev[i], "projections" + "[" + c.name + "]";
    if FieldReports(owner, p.body.fields, c.body.fields, f) {
      FieldsAreNotObjects(owner, p.body.fields, c.body.fields, f);
    } else if IndexReports(owner, p.body.indexes, c.body.indexes, f) {
      PartsAreNotObjects(owner, p.body.indexes, c.body.indexes, "", [], [], f);
    }
  }

  lemma MembersAreNotObjects(prev: Schema, curr: Schema, f: Finding)
    requires MemberReports(prev, curr, f)
    ensures !AboutObjects(f)
  {
    if SomePair(prev.objects, curr.objects, Earliest(prev.objects), ObjectPair(f)) {
      ObjectPairsAreNot(prev.objects, curr.objects, f);
    } else if SomePair(prev.events, curr.events, Earliest(prev.events), PlainPair("events", "", f)) {
      PlainPairsAreNot("events", "", prev.events, curr.events, f);
    } else if SomePair(prev.streams, curr.streams, Earliest(prev.streams), StreamPair(f)) {
      StreamPairsAreNot(prev.streams, curr.streams, f);
    } else if SomePair(prev.presences, curr.presences, Earliest(prev.presences), KeyedPair("presences", f)) {
      KeyedPairsAreNot("presences", prev.presences, curr.presences, f);
    } else if SomePair(prev.signals, curr.signals, Earliest(prev.signals), KeyedPair("signals", f)) {
      KeyedPairsAreNot("signals", prev.signals, curr.signals, f);
    } else if SomePair(prev.blobs, curr.blobs, Earliest(prev.blobs), PlainPair("blobs", ".metadata", f)) {
      PlainPairsAreNot("blobs", ".metadata", prev.blobs, curr.blobs, f);
    } else if SomePair(prev.jobs, curr.jobs, Earliest(prev.jobs), PlainPair("jobs", "", f)) {
      PlainPairsAreNot("jobs", "", prev.jobs, curr.jobs, f);
    } else {
      ProjectionPairsAreNot(prev.projections, curr.projections, f);
    }
  }

  lemma OthersAreNotObjects(prev: Schema, curr: Schema, f: Finding)
    requires Reports(prev, curr, f) && AboutObjects(f)
    ensures TypeReports(prev.objects, curr.objects, "objects", "object", f)
  {
    if !TypeReports(prev.objects, curr.objects, "objects", "object", f) {
      if MemberReports(prev, curr, f) { MembersAreNotObjects(prev, curr, f); }
      if TypeReports(prev.streams, curr.streams, "streams", "stream", f) { TypesAreNotObjects(prev.streams, curr.streams, "streams", "stream", f); }
      if TypeReports(prev.events, curr.events, "events", "event", f) { TypesAreNotObjects(prev.events, curr.events, "events", "event", f); }
      if TypeReports(prev.presences, curr.presences, "presences", "presence", f) {
        TypesAreNotObjects(prev.presences, curr.presences, "presences", "presence", f);
      }
      if TypeReports(prev.signals, curr.signals, "signals", "signal", f) { TypesAreNotObjects(prev.signals, curr.signals, "signals", "signal", f); }
      if TypeReports(prev.blobs, curr.blobs, "blobs", "blob", f) { TypesAreNotObjects(prev.blobs, curr.blobs, "blobs", "blob", f); }
      if TypeReports(prev.jobs, curr.jobs, "jobs", "job", f) { TypesAreNotObjects(prev.jobs, curr.jobs, "jobs", "job", f); }
      if TypeReports(prev.projections, curr.projections, "projections", "projection", f) {
        TypesAreNotObjects(prev.projections, curr.projections, "projections", "projection", f);
      }
    }
  }

  lemma PlaceIsName(n: string, m: string)
    requires "objects" + "[" + n + "]" == "objects" + "[" + m + "]"
    ensures n == m
  {
    assert n == ("objects" + "[" + n + "]")[8..8 + |n|];
    assert m == ("objects" + "[" + m + "]")[8..8 + |m|];
  }

  lemma RemovalOnly(prev: seq<ObjectDef>, curr: seq<ObjectDef>, name: string, f: Finding)
    requires f == Finding(Breaking, "object.removed", "objects[" + name + "]")
    ensures TypeReports(prev, curr, "objects", "object", f) <==> exists p | p in prev :: p.name == name && !HasId(curr, p.id)
  {
    assert "objects" + "[" + name + "]" == "objects[" + name + "]" && "object" + ".removed" == "object.removed";
    assert ("object" + ".added")[7] != f.rule[7] && ("object" + ".renamed")[9] != f.rule[9];
    assert TypeReports(prev, curr, "objects", "object", f) <==> Removed(prev, curr, "objects", "object", f);
    if Removed(prev, curr, "objects", "object", f) {
      var p :| p in prev && !HasId(curr, p.id) && f.path == "objects" + "[" + p.name + "]";
      PlaceIsName(p.name, name);
    }
  }

  /** The removal of an object is reported exactly when an object of that name lost its id. */
  lemma ObjectRemovedExactly(prev: Schema, curr: Schema, name: string)
    ensures Finding(Breaking, "object.removed", "objects[" + name + "]") in LintFindings(curr, prev) <==>
            exists p | p in prev.objects :: p.name == name && !HasId(curr.objects, p.id)
  {
    var f := Finding(Breaking, "object.removed", "objects[" + name + "]");
    FindingsExactly(prev, curr, f);
    RemovalOnly(prev.objects, curr.objects, name, f);
    if Reports(prev, curr, f) {
      OthersAreNotObjects(prev, curr, f);
    }
  }
}
