/** When clean steps compose: what a history keeps at every site, and the one rule that can break it. */
module Composition {
  import opened Text
  import opened Schemas
  import opened Validation
  import opened Lint
  import opened LintRules
  import opened Evolution

  // ---- enum values: dropping and inserting apart ----

  ghost predicate NoneDropped(prev: seq<string>, curr: seq<string>) { forall v | v in prev :: v in curr }

  /** No new value sits among the first `|prev|`: the guard under which an insertion is not reported. */
  ghost predicate NoneInserted(prev: seq<string>, curr: seq<string>) {
    forall i | 0 <= i < |curr| && i < |prev| :: curr[i] in prev
  }

  /** Two clean steps of an enum list compose exactly when no value ends up inserted. */
  lemma EnumComposesExactly(a: seq<string>, b: seq<string>, c: seq<string>)
    requires EnumEvolves(a, b) && EnumEvolves(b, c)
    ensures EnumEvolves(a, c) <==> NoneInserted(a, c)
  {
  }

  /** Everything a reader relies on, and every enum value, is kept. */
  ghost predicate BodyKeeps(p: FieldBody, c: FieldBody) {
    && p.kind == c.kind && p.required == c.required && RefText(p) == RefText(c)
    && (p.kind.KEnum? ==> NoneDropped(ValuesOf(p), ValuesOf(c)))
  }

  ghost predicate FieldsKeep(prev: seq<Field>, curr: seq<Field>) {
    && TypesEvolve(prev, curr, BodyKeeps)
    && forall c | c in curr && c.body.required :: HasId(prev, c.id)
  }

  /** Between enum fields that share an id, no value was inserted. */
  ghost predicate FieldsInsertNone(prev: seq<Field>, curr: seq<Field>) {
    forall p, c | p in prev && c in curr && p.id == c.id && p.body.kind.KEnum? && c.body.kind.KEnum? ::
      NoneInserted(ValuesOf(p.body), ValuesOf(c.body))
  }

  /** Field evolution is keeping everything and inserting nothing. */
  lemma FieldsEvolveSplit(prev: seq<Field>, curr: seq<Field>)
    requires UniqueIds(curr)
    ensures FieldsEvolve(prev, curr) <==> FieldsKeep(prev, curr) && FieldsInsertNone(prev, curr)
  {
    TypesEvolveByPairs(prev, curr, FieldBodyEvolves);
    TypesEvolveByPairs(prev, curr, BodyKeeps);
  }

  lemma TypesCompose<B(!new)>(a: seq<Carrier<B>>, b: seq<Carrier<B>>, c: seq<Carrier<B>>, bodies: (B, B) -> bool)
    requires TypesEvolve(a, b, bodies) && TypesEvolve(b, c, bodies)
    requires forall x, y, z :: bodies(x, y) && bodies(y, z) ==> bodies(x, z)
    ensures TypesEvolve(a, c, bodies)
  {
    forall p | p in a ensures exists r | r in c :: r.id == p.id && r.name == p.name && bodies(p.body, r.body) {
      var q := SuccessorOf(a, b, bodies, p);
      var r := SuccessorOf(b, c, bodies, q);
    }
  }

  lemma FieldsKeepCompose(a: seq<Field>, b: seq<Field>, c: seq<Field>)
    requires UniqueIds(c) && FieldsKeep(a, b) && FieldsKeep(b, c)
    ensures FieldsKeep(a, c)
  {
    TypesCompose(a, b, c, BodyKeeps);
    forall r | r in c && r.body.required ensures HasId(a, r.id) {
      var i :| 0 <= i < |b| && b[i].id == r.id;
      var s := SuccessorOf(b, c, BodyKeeps, b[i]);
      OnlyOneWithId(c, r, s);
    }
  }

  // ---- every place in a schema that holds fields ----

  datatype Place =
    InObjects | InStreamKeys | InEvents | InPresenceKeys | InPresences | InSignalKeys | InSignals | InBlobs | InJobs | InProjections

  /** The name of a definition and its fields. */
  type Declared = Option<(string, seq<Field>)>

  function DeclaredIn<B>(ts: seq<Carrier<B>>, fields: B -> seq<Field>, id: int): Declared {
    match ById(ts, id)
    case None => None
    case Some(t) => Some((t.name, fields(t.body)))
  }

  function At(s: Schema, place: Place, id: int): Declared {
    match place
    case InObjects => DeclaredIn(s.objects, ObjectFields, id)
    case InStreamKeys => DeclaredIn(s.streams, StreamKeys, id)
    case InEvents => DeclaredIn(s.events, PlainFields, id)
    case InPresenceKeys => DeclaredIn(s.presences, KeyedKeys, id)
    case InPresences => DeclaredIn(s.presences, KeyedFields, id)
    case InSignalKeys => DeclaredIn(s.signals, KeyedKeys, id)
    case InSignals => DeclaredIn(s.signals, KeyedFields, id)
    case InBlobs => DeclaredIn(s.blobs, PlainFields, id)
    case InJobs => DeclaredIn(s.jobs, PlainFields, id)
    case InProjections => DeclaredIn(s.projections, ProjectionFields, id)
  }

  /** Declared before: still declared, under the same name, with related fields. */
  ghost predicate Stays(prev: Declared, curr: Declared, fields: (seq<Field>, seq<Field>) -> bool) {
    prev.Some? ==> curr.Some? && prev.value.0 == curr.value.0 && fields(prev.value.1, curr.value.1)
  }

  /** What a definition keeps besides its fields. */
  ghost predicate ObjectShell(p: ObjectBody, c: ObjectBody) { IndexesEvolve(p.indexes, c.indexes) }

  ghost predicate StreamShell(p: StreamBody, c: StreamBody) { forall e | e in p.events :: e in c.events }

  ghost predicate ProjectionShell(p: ProjectionBody, c: ProjectionBody) {
    p.source == c.source && IndexesEvolve(p.indexes, c.indexes)
  }

  ghost predicate ShellEvolves(prev: Schema, curr: Schema) {
    && prev.schemaId == curr.schemaId && prev.schemaRevision <= curr.schemaRevision
    && TypesEvolve(prev.objects, curr.objects, ObjectShell)
    && TypesEvolve(prev.streams, curr.streams, StreamShell)
    && TypesEvolve(prev.projections, curr.projections, ProjectionShell)
  }

  ghost predicate StayAt(prev: Schema, curr: Schema, rel: (seq<Field>, seq<Field>) -> bool, place: Place) {
    forall id :: Stays(At(prev, place, id), At(curr, place, id), rel)
  }

  /** Evolution, place by place. */
  ghost predicate Relates(prev: Schema, curr: Schema, rel: (seq<Field>, seq<Field>) -> bool) {
    ShellEvolves(prev, curr) && forall place :: StayAt(prev, curr, rel, place)
  }

  // ---- evolution is evolution at every place ----

  ghost predicate StayIn<B>(prev: seq<Carrier<B>>, curr: seq<Carrier<B>>, fields: B -> seq<Field>, rel: (seq<Field>, seq<Field>) -> bool) {
    forall id :: Stays(DeclaredIn(prev, fields, id), DeclaredIn(curr, fields, id), rel)
  }

  lemma TypesByPlace<B(!new)>(
    prev: seq<Carrier<B>>, curr: seq<Carrier<B>>, bodies: (B, B) -> bool, fields: B -> seq<Field>, rel: (seq<Field>, seq<Field>) -> bool)
    requires UniqueIds(prev) && UniqueIds(curr)
    requires forall p, c :: bodies(p, c) <==> rel(fields(p), fields(c))
    ensures TypesEvolve(prev, curr, bodies) <==> StayIn(prev, curr, fields, rel)
  {
    if TypesEvolve(prev, curr, bodies) {
      forall id ensures Stays(DeclaredIn(prev, fields, id), DeclaredIn(curr, fields, id), rel) {
        if ById(prev, id).Some? {
          var p, c := SuccessorById(prev, curr, bodies, id);
        }
      }
    }
    if StayIn(prev, curr, fields, rel) {
      forall p | p in prev ensures exists c | c in curr :: c.id == p.id && c.name == p.name && bodies(p.body, c.body) {
        LookupById(prev, p);
        assert Stays(DeclaredIn(prev, fields, p.id), DeclaredIn(curr, fields, p.id), rel);
        var c := ById(curr, p.id).value;
        assert c in curr;
      }
    }
  }

  /** Two demands on the bodies of one collection are met together or one by one. */
  lemma TypesTogether<B(!new)>(prev: seq<Carrier<B>>, curr: seq<Carrier<B>>, both: (B, B) -> bool, one: (B, B) -> bool, two: (B, B) -> bool)
    requires UniqueIds(curr)
    requires forall p, c :: both(p, c) <==> one(p, c) && two(p, c)
    ensures TypesEvolve(prev, curr, both) <==> TypesEvolve(prev, curr, one) && TypesEvolve(prev, curr, two)
  {
    TypesEvolveByPairs(prev, curr, both);
    TypesEvolveByPairs(prev, curr, one);
    TypesEvolveByPairs(prev, curr, two);
  }

  /** A collection evolves when its shell does and its fields do, site by site. */
  lemma TypesSplit<B(!new)>(prev: seq<Carrier<B>>, curr: seq<Carrier<B>>, bodies: (B, B) -> bool, shell: (B, B) -> bool, fields: B -> seq<Field>)
    requires UniqueIds(prev) && UniqueIds(curr)
    requires forall p, c :: bodies(p, c) <==> shell(p, c) && FieldsEvolve(fields(p), fields(c))
    ensures TypesEvolve(prev, curr, bodies) <==> TypesEvolve(prev, curr, shell) && StayIn(prev, curr, fields, FieldsEvolve)
  {
    var inner := (p: B, c: B) => FieldsEvolve(fields(p), fields(c));
    TypesTogether(prev, curr, bodies, shell, inner);
    TypesByPlace(prev, curr, inner, fields, FieldsEvolve);
  }

  lemma KeyedSplit(prev: seq<KeyedDef>, curr: seq<KeyedDef>)
    requires UniqueIds(prev) && UniqueIds(curr)
    ensures TypesEvolve(prev, curr, KeyedEvolves) <==>
            StayIn(prev, curr, KeyedKeys, FieldsEvolve) && StayIn(prev, curr, KeyedFields, FieldsEvolve)
  {
    var keys := (p: KeyedBody, c: KeyedBody) => FieldsEvolve(KeyedKeys(p), KeyedKeys(c));
    TypesSplit(prev, curr, KeyedEvolves, keys, KeyedFields);
    TypesByPlace(prev, curr, keys, KeyedKeys, FieldsEvolve);
  }

  ghost predicate StayInCollection(prev: Schema, curr: Schema, rel: (seq<Field>, seq<Field>) -> bool, place: Place) {
    match place
    case InObjects => StayIn(prev.objects, curr.objects, ObjectFields, rel)
    case InStreamKeys => StayIn(prev.streams, curr.streams, StreamKeys, rel)
    case InEvents => StayIn(prev.events, curr.events, PlainFields, rel)
    case InPresenceKeys => StayIn(prev.presences, curr.presences, KeyedKeys, rel)
    case InPresences => StayIn(prev.presences, curr.presences, KeyedFields, rel)
    case InSignalKeys => StayIn(prev.signals, curr.signals, KeyedKeys, rel)
    case InSignals => StayIn(prev.signals, curr.signals, KeyedFields, rel)
    case InBlobs => StayIn(prev.blobs, curr.blobs, PlainFields, rel)
    case InJobs => StayIn(prev.jobs, curr.jobs, PlainFields, rel)
    case InProjections => StayIn(prev.projections, curr.projections, ProjectionFields, rel)
  }

  lemma PlaceIsCollection(prev: Schema, curr: Schema, rel: (seq<Field>, seq<Field>) -> bool, place: Place)
    ensures StayAt(prev, curr, rel, place) <==> StayInCollection(prev, curr, rel, place)
  {
    match place
    case InObjects => assert forall id :: At(prev, InObjects, id) == DeclaredIn(prev.objects, ObjectFields, id);
    case InStreamKeys => assert forall id :: At(prev, InStreamKeys, id) == DeclaredIn(prev.streams, StreamKeys, id);
    case InEvents => assert forall id :: At(prev, InEvents, id) == DeclaredIn(prev.events, PlainFields, id);
    case InPresenceKeys => assert forall id :: At(prev, InPresenceKeys, id) == DeclaredIn(prev.presences, KeyedKeys, id);
    case InPresences => assert forall id :: At(prev, InPresences, id) == DeclaredIn(prev.presences, KeyedFields, id);
    case InSignalKeys => assert forall id :: At(prev, InSignalKeys, id) == DeclaredIn(prev.signals, KeyedKeys, id);
    case InSignals => assert forall id :: At(prev, InSignals, id) == DeclaredIn(prev.signals, KeyedFields, id);
    case InBlobs => assert forall id :: At(prev, InBlobs, id) == DeclaredIn(prev.blobs, PlainFields, id);
    case InJobs => assert forall id :: At(prev, InJobs, id) == DeclaredIn(prev.jobs, PlainFields, id);
    case InProjections => assert forall id :: At(prev, InProjections, id) == DeclaredIn(prev.projections, ProjectionFields, id);
  }

  lemma EveryPlace(prev: Schema, curr: Schema, rel: (seq<Field>, seq<Field>) -> bool)
    ensures (forall place :: StayInCollection(prev, curr, rel, place)) <==>
            && StayIn(prev.objects, curr.objects, ObjectFields, rel)
            && StayIn(prev.streams, curr.streams, StreamKeys, rel)
            && StayIn(prev.events, curr.events, PlainFields, rel)
            && StayIn(prev.presences, curr.presences, KeyedKeys, rel)
            && StayIn(prev.presences, curr.presences, KeyedFields, rel)
            && StayIn(prev.signals, curr.signals, KeyedKeys, rel)
            && StayIn(prev.signals, curr.signals, KeyedFields, rel)
            && StayIn(prev.blobs, curr.blobs, PlainFields, rel)
            && StayIn(prev.jobs, curr.jobs, PlainFields, rel)
            && StayIn(prev.projections, curr.projections, ProjectionFields, rel)
  {
    if forall place :: StayInCollection(prev, curr, rel, place) {
      assert StayInCollection(prev, curr, rel, InObjects);
      assert StayInCollection(prev, curr, rel, InStreamKeys);
      assert StayInCollection(prev, curr, rel, InEvents);
      assert StayInCollection(prev, curr, rel, InPresenceKeys);
      assert StayInCollection(prev, curr, rel, InPresences);
      assert StayInCollection(prev, curr, rel, InSignalKeys);
      assert StayInCollection(prev, curr, rel, InSignals);
      assert StayInCollection(prev, curr, rel, InBlobs);
      assert StayInCollection(prev, curr, rel, InJobs);
      assert StayInCollection(prev, curr, rel, InProjections);
    }
  }

  lemma EvolvesByPlace(prev: Schema, curr: Schema)
    requires IdsUnique(prev) && IdsUnique(curr)
    ensures Evolves(prev, curr) <==> Relates(prev, curr, FieldsEvolve)
  {
    TypesSplit(prev.objects, curr.objects, ObjectEvolves, ObjectShell, ObjectFields);
    TypesSplit(prev.streams, curr.streams, StreamEvolves, StreamShell, StreamKeys);
    TypesByPlace(prev.events, curr.events, FieldsEvolve, PlainFields, FieldsEvolve);
    KeyedSplit(prev.presences, curr.presences);
    KeyedSplit(prev.signals, curr.signals);
    TypesByPlace(prev.blobs, curr.blobs, FieldsEvolve, PlainFields, FieldsEvolve);
    TypesByPlace(prev.jobs, curr.jobs, FieldsEvolve, PlainFields, FieldsEvolve);
    TypesSplit(prev.projections, curr.projections, ProjectionEvolves, ProjectionShell, ProjectionFields);
    forall place ensures StayAt(prev, curr, FieldsEvolve, place) <==> StayInCollection(prev, curr, FieldsEvolve, place) {
      PlaceIsCollection(prev, curr, FieldsEvolve, place);
    }
    EveryPlace(prev, curr, FieldsEvolve);
  }

  // ---- keeping composes, inserting nothing is what is left ----

  lemma FieldIdsAt(s: Schema, place: Place, id: int)
    requires IdsUnique(s) && At(s, place, id).Some?
    ensures UniqueIds(At(s, place, id).value.1)
  {
  }

  ghost predicate NoneInsertedAt(prev: Declared, curr: Declared) {
    prev.Some? && curr.Some? ==> FieldsInsertNone(prev.value.1, curr.value.1)
  }

  ghost predicate NoneInsertedIn(prev: Schema, curr: Schema, place: Place) {
    forall id :: NoneInsertedAt(At(prev, place, id), At(curr, place, id))
  }

  /** No value was inserted into an enum field of a definition that both schemas have, wherever it is. */
  ghost predicate NoEnumInserted(prev: Schema, curr: Schema) { forall place :: NoneInsertedIn(prev, curr, place) }

  lemma StaysSplit(prev: Schema, curr: Schema, place: Place, id: int)
    requires IdsUnique(curr)
    ensures var p, c := At(prev, place, id), At(curr, place, id);
            Stays(p, c, FieldsEvolve) <==> Stays(p, c, FieldsKeep) && (p.Some? ==> NoneInsertedAt(p, c))
  {
    var p, c := At(prev, place, id), At(curr, place, id);
    if p.Some? && c.Some? {
      FieldIdsAt(curr, place, id);
      FieldsEvolveSplit(p.value.1, c.value.1);
    }
  }

  lemma StayAtSplit(prev: Schema, curr: Schema, place: Place)
    requires IdsUnique(curr)
    ensures StayAt(prev, curr, FieldsEvolve, place) <==> StayAt(prev, curr, FieldsKeep, place) && NoneInsertedIn(prev, curr, place)
  {
    forall id ensures var p, c := At(prev, place, id), At(curr, place, id);
                      Stays(p, c, FieldsEvolve) <==> Stays(p, c, FieldsKeep) && NoneInsertedAt(p, c)
    {
      StaysSplit(prev, curr, place, id);
    }
  }

  lemma RelatesSplit(prev: Schema, curr: Schema)
    requires IdsUnique(curr)
    ensures Relates(prev, curr, FieldsEvolve) <==> Relates(prev, curr, FieldsKeep) && NoEnumInserted(prev, curr)
  {
    forall place
      ensures StayAt(prev, curr, FieldsEvolve, place) <==> StayAt(prev, curr, FieldsKeep, place) && NoneInsertedIn(prev, curr, place)
    {
      StayAtSplit(prev, curr, place);
    }
  }

  lemma EvolvesIsKeepingWithoutInsertion(prev: Schema, curr: Schema)
    requires IdsUnique(prev) && IdsUnique(curr)
    ensures Evolves(prev, curr) <==> Relates(prev, curr, FieldsKeep) && NoEnumInserted(prev, curr)
  {
    EvolvesByPlace(prev, curr);
    RelatesSplit(prev, curr);
  }

  lemma ShellsCompose(a: Schema, b: Schema, c: Schema)
    requires ShellEvolves(a, b) && ShellEvolves(b, c)
    ensures ShellEvolves(a, c)
  {
    TypesCompose(a.objects, b.objects, c.objects, ObjectShell);
    TypesCompose(a.streams, b.streams, c.streams, StreamShell);
    TypesCompose(a.projections, b.projections, c.projections, ProjectionShell);
  }

  lemma StaysCompose(a: Declared, b: Declared, c: Declared)
    requires Stays(a, b, FieldsKeep) && Stays(b, c, FieldsKeep) && (c.Some? ==> UniqueIds(c.value.1))
    ensures Stays(a, c, FieldsKeep)
  {
    if a.Some? {
      FieldsKeepCompose(a.value.1, b.value.1, c.value.1);
    }
  }

  lemma KeepingComposes(a: Schema, b: Schema, c: Schema)
    requires IdsUnique(c) && Relates(a, b, FieldsKeep) && Relates(b, c, FieldsKeep)
    ensures Relates(a, c, FieldsKeep)
  {
    ShellsCompose(a, b, c);
    forall place, id ensures Stays(At(a, place, id), At(c, place, id), FieldsKeep) {
      assert StayAt(a, b, FieldsKeep, place) && StayAt(b, c, FieldsKeep, place);
      if At(c, place, id).Some? {
        FieldIdsAt(c, place, id);
      }
      StaysCompose(At(a, place, id), At(b, place, id), At(c, place, id));
    }
  }

  // ---- whole histories ----

  lemma ValidatedIds(lower: string -> string, s: Schema)
    requires Validated(lower, s)
    ensures IdsUnique(s)
  {
    ValidationExact(lower, s);
    WellFormedIdsUnique(lower, s);
  }

  lemma KeepsItself(s: Schema)
    requires IdsUnique(s)
    ensures Relates(s, s, FieldsKeep)
  {
    SelfComparisonIsSilent(s);
    LintExact(s, s);
    EvolvesIsKeepingWithoutInsertion(s, s);
  }

  lemma CleanStepKeeps(lower: string -> string, prev: Schema, curr: Schema)
    requires CleanStep(lower, prev, curr)
    ensures Relates(prev, curr, FieldsKeep)
  {
    ValidatedIds(lower, prev);
    ValidatedIds(lower, curr);
    CleanStepEvolves(lower, prev, curr);
    EvolvesIsKeepingWithoutInsertion(prev, curr);
  }

  ghost function KeptFrom(s: Schema): Schema -> bool { t => Relates(s, t, FieldsKeep) }

  lemma HistoryStepKeeps(lower: string -> string, h: seq<Schema>, i: nat, k: nat)
    requires CleanHistory(lower, h) && i < k < |h| && Relates(h[i], h[k - 1], FieldsKeep)
    ensures Relates(h[i], h[k], FieldsKeep)
  {
    HistoryStep(lower, h, k);
    CleanStepKeeps(lower, h[k - 1], h[k]);
    ValidatedIds(lower, h[k]);
    KeepingComposes(h[i], h[k - 1], h[k]);
  }

  /** A clean history keeps every definition, field, enum value, index, stream event and projection source. */
  lemma HistoryKeeps(lower: string -> string, h: seq<Schema>, i: nat, j: nat)
    requires CleanHistory(lower, h) && i <= j < |h|
    ensures Relates(h[i], h[j], FieldsKeep)
  {
    var kept := KeptFrom(h[i]);
    assert kept(h[i]) by {
      HistoryValidated(lower, h, i);
      ValidatedIds(lower, h[i]);
      KeepsItself(h[i]);
    }
    forall k | i < k <= j && kept(h[k - 1]) ensures kept(h[k]) { HistoryStepKeeps(lower, h, i, k); }
    ChainKeeps(h, kept, b => b, i, j);
  }

  lemma HistoryValidated(lower: string -> string, h: seq<Schema>, i: nat)
    requires CleanHistory(lower, h) && i < |h|
    ensures Validated(lower, h[i])
  {
    assert ValidatedBy(lower)(h[i]);
  }

  /** The ends of a clean history compare clean exactly when no enum value was inserted between them. */
  lemma EndsCompareExactly(lower: string -> string, h: seq<Schema>, i: nat, j: nat)
    requires CleanHistory(lower, h) && i <= j < |h|
    ensures Unbroken(h[i], h[j]) <==> NoEnumInserted(h[i], h[j])
  {
    HistoryKeeps(lower, h, i, j);
    HistoryValidated(lower, h, i);
    HistoryValidated(lower, h, j);
    ValidatedIds(lower, h[i]);
    ValidatedIds(lower, h[j]);
    LintExact(h[j], h[i]);
    EvolvesIsKeepingWithoutInsertion(h[i], h[j]);
  }

  /** `c` is `p` at a later revision. */
  ghost predicate Survives(p: Field, c: Field) { p.id == c.id && p.name == c.name && BodyKeeps(p.body, c.body) }

  /** A field once declared, wherever it is, keeps its id, name, kind, flag, target and every enum value for good. */
  lemma HistoryKeepsFields(lower: string -> string, h: seq<Schema>, i: nat, j: nat, place: Place, id: int, f: Field)
    requires CleanHistory(lower, h) && i <= j < |h|
    requires At(h[i], place, id).Some? && f in At(h[i], place, id).value.1
    ensures At(h[j], place, id).Some? && At(h[j], place, id).value.0 == At(h[i], place, id).value.0
    ensures exists g | g in At(h[j], place, id).value.1 :: Survives(f, g)
  {
    HistoryKeeps(lower, h, i, j);
    assert StayAt(h[i], h[j], FieldsKeep, place);
    var g := SuccessorOf(At(h[i], place, id).value.1, At(h[j], place, id).value.1, BodyKeeps, f);
  }
}
