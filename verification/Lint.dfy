/** The breaking-change linter: what each loop reports, in order. */
module Lint {
  import opened Text
  import opened Schemas

  datatype Severity = Info | Warn | Breaking

  datatype Finding = Finding(severity: Severity, rule: string, path: string)

  // ---- collecting findings ----

  /** The findings `report` gives for each element, in order. */
  function Collect<T>(xs: seq<T>, report: T -> seq<Finding>): seq<Finding> {
    if xs == [] then [] else Collect(xs[..|xs| - 1], report) + report(xs[|xs| - 1])
  }

  lemma CollectStep<T>(xs: seq<T>, report: T -> seq<Finding>, i: nat)
    requires i < |xs|
    ensures Collect(xs[..i + 1], report) == Collect(xs[..i], report) + report(xs[i])
  {
    assert xs[..i + 1][..i] == xs[..i];
  }

  function Only(wanted: bool, f: Finding): seq<Finding> { if wanted then [f] else [] }

  lemma Assoc<T>(a: seq<T>, b: seq<T>, c: seq<T>)
    ensures (a + b) + c == a + (b + c)
  {
  }

  /** The findings of eight diffs, one after the other. */
  function Eight<T>(a: seq<T>, b: seq<T>, c: seq<T>, d: seq<T>, e: seq<T>, f: seq<T>, g: seq<T>, h: seq<T>): seq<T> {
    a + b + c + d + e + f + g + h
  }

  lemma Regroup<T>(before: seq<T>, a: seq<T>, b: seq<T>, c: seq<T>, d: seq<T>, e: seq<T>, f: seq<T>, g: seq<T>, h: seq<T>)
    ensures before + a + b + c + d + e + f + g + h == before + Eight(a, b, c, d, e, f, g, h)
  {
    Assoc(before, a, b);
    Assoc(before, a + b, c);
    Assoc(before, a + b + c, d);
    Assoc(before, a + b + c + d, e);
    Assoc(before, a + b + c + d + e, f);
    Assoc(before, a + b + c + d + e + f, g);
    Assoc(before, a + b + c + d + e + f + g, h);
  }

  /** The list every diff appends to. */
  class Log {
    var items: seq<Finding>

    constructor ()
      ensures items == []
    {
      items := [];
    }

    method Push(f: Finding)
      modifies this
      ensures items == old(items) + [f]
    {
      items := items + [f];
    }

    method PushIf(wanted: bool, f: Finding)
      modifies this
      ensures items == old(items) + Only(wanted, f)
    {
      if wanted {
        Push(f);
      }
    }
  }

  // ---- id tables ----

  predicate HasId<B>(ts: seq<Carrier<B>>, id: int) { exists i | 0 <= i < |ts| :: ts[i].id == id }

  /** The last definition with this id: what a table built by inserting in order holds. */
  function LastById<B>(ts: seq<Carrier<B>>, id: int): (r: Option<Carrier<B>>)
    ensures r.Some? <==> HasId(ts, id)
    ensures r.Some? ==> r.value in ts && r.value.id == id
  {
    if ts == [] then None
    else
      var last := ts[|ts| - 1];
      assert ts == ts[..|ts| - 1] + [last];
      if last.id == id then Some(last) else LastById(ts[..|ts| - 1], id)
  }

  lemma {:induction false} LastByIdIsLast<B>(ts: seq<Carrier<B>>, i: nat)
    requires i < |ts| && forall j | i < j < |ts| :: ts[j].id != ts[i].id
    ensures LastById(ts, ts[i].id) == Some(ts[i])
  {
    if i < |ts| - 1 {
      LastByIdIsLast(ts[..|ts| - 1], i);
    }
  }

  method TableById<B>(ts: seq<Carrier<B>>) returns (m: map<int, Carrier<B>>)
    ensures forall id :: id in m <==> HasId(ts, id)
    ensures forall id | id in m :: LastById(ts, id) == Some(m[id])
  {
    m := map[];
    for i := 0 to |ts|
      invariant forall id :: id in m <==> HasId(ts[..i], id)
      invariant forall id | id in m :: LastById(ts[..i], id) == Some(m[id])
    {
      m := m[ts[i].id := ts[i]];
      assert ts[..i + 1][..i] == ts[..i] && ts[..i + 1][i] == ts[i];
      assert forall id :: HasId(ts[..i + 1], id) <==> HasId(ts[..i], id) || id == ts[i].id;
    }
    assert ts[..|ts|] == ts;
  }

  // ---- type sets ----

  function At(collection: string, name: string): string { collection + "[" + name + "]" }

  function TypeRemoved<B>(curr: seq<Carrier<B>>, collection: string, what: string): Carrier<B> -> seq<Finding> {
    (p: Carrier<B>) => if HasId(curr, p.id) then [] else [Finding(Breaking, what + ".removed", At(collection, p.name))]
  }

  function TypeAdded<B>(prev: seq<Carrier<B>>, collection: string, what: string): Carrier<B> -> seq<Finding> {
    (c: Carrier<B>) => if HasId(prev, c.id) then [] else [Finding(Info, what + ".added", At(collection, c.name))]
  }

  function TypeRenamed<B>(prev: seq<Carrier<B>>, collection: string, what: string): Carrier<B> -> seq<Finding> {
    (c: Carrier<B>) =>
      match LastById(prev, c.id)
      case Some(p) => if p.name != c.name then [Finding(Breaking, what + ".renamed", At(collection, c.name))] else []
      case None => []
  }

  function TypeSetFindings<B>(prev: seq<Carrier<B>>, curr: seq<Carrier<B>>, collection: string, what: string): seq<Finding> {
    Collect(prev, TypeRemoved(curr, collection, what))
    + (Collect(curr, TypeAdded(prev, collection, what))
    + Collect(curr, TypeRenamed(prev, collection, what)))
  }

  method ReportRemoved<B>(log: Log, prev: seq<Carrier<B>>, curr: seq<Carrier<B>>, collection: string, what: string)
    modifies log
    ensures log.items == old(log.items) + Collect(prev, TypeRemoved(curr, collection, what))
  {
    var currIds := TableById(curr);
    ghost var report := TypeRemoved(curr, collection, what);
    for i := 0 to |prev|
      invariant log.items == old(log.items) + Collect(prev[..i], report)
    {
      CollectStep(prev, report, i);
      log.PushIf(prev[i].id !in currIds, Finding(Breaking, what + ".removed", At(collection, prev[i].name)));
    }
    assert prev[..|prev|] == prev;
  }

  method ReportAdded<B>(log: Log, prev: seq<Carrier<B>>, curr: seq<Carrier<B>>, collection: string, what: string)
    modifies log
    ensures log.items == old(log.items) + Collect(curr, TypeAdded(prev, collection, what))
  {
    var prevIds := TableById(prev);
    ghost var report := TypeAdded(prev, collection, what);
    for i := 0 to |curr|
      invariant log.items == old(log.items) + Collect(curr[..i], report)
    {
      CollectStep(curr, report, i);
      log.PushIf(curr[i].id !in prevIds, Finding(Info, what + ".added", At(collection, curr[i].name)));
    }
    assert curr[..|curr|] == curr;
  }

  method ReportRenamed<B>(log: Log, prev: seq<Carrier<B>>, curr: seq<Carrier<B>>, collection: string, what: string)
    modifies log
    ensures log.items == old(log.items) + Collect(curr, TypeRenamed(prev, collection, what))
  {
    var prevIds := TableById(prev);
    ghost var report := TypeRenamed(prev, collection, what);
    for i := 0 to |curr|
      invariant log.items == old(log.items) + Collect(curr[..i], report)
    {
      CollectStep(curr, report, i);
      log.PushIf(curr[i].id in prevIds && prevIds[curr[i].id].name != curr[i].name,
                 Finding(Breaking, what + ".renamed", At(collection, curr[i].name)));
    }
    assert curr[..|curr|] == curr;
  }

  method DiffTypeSet<B>(log: Log, prev: seq<Carrier<B>>, curr: seq<Carrier<B>>, collection: string, what: string)
    modifies log
    ensures log.items == old(log.items) + TypeSetFindings(prev, curr, collection, what)
  {
    ghost var removed := Collect(prev, TypeRemoved(curr, collection, what));
    ghost var added := Collect(curr, TypeAdded(prev, collection, what));
    ghost var renamed := Collect(curr, TypeRenamed(prev, collection, what));
    ReportRemoved(log, prev, curr, collection, what);
    Assoc(log.items, added, renamed);
    ReportAdded(log, prev, curr, collection, what);
    ReportRenamed(log, prev, curr, collection, what);
    Assoc(old(log.items), removed, added + renamed);
  }

  // ---- enum values ----

  function EnumRemoved(curr: seq<string>, path: string): string -> seq<Finding> {
    (v: string) => if v in curr then [] else [Finding(Breaking, "enum.value.removed", path)]
  }

  /** A new value is trailing exactly when its index is at least the previous length. */
  function EnumAdded(prev: seq<string>, curr: seq<string>, path: string, n: nat): seq<Finding>
    requires n <= |curr|
  {
    if n == 0 then []
    else
      EnumAdded(prev, curr, path, n - 1) +
      if curr[n - 1] in prev then []
      else if n - 1 >= |prev| then [Finding(Warn, "enum.value.added.trailing", path)]
      else [Finding(Breaking, "enum.value.inserted", path)]
  }

  function EnumValueFindings(prev: seq<string>, curr: seq<string>, path: string): seq<Finding> {
    Collect(prev, EnumRemoved(curr, path)) + EnumAdded(prev, curr, path, |curr|)
  }

  function ValuesOf(f: FieldBody): seq<string> { if f.enumValues.Some? then f.enumValues.value else [] }

  function EnumFindings(prev: FieldBody, curr: FieldBody, path: string): seq<Finding> {
    if prev.kind.KEnum? && curr.kind.KEnum? then EnumValueFindings(ValuesOf(prev), ValuesOf(curr), path) else []
  }

  method ReportEnumRemoved(log: Log, prev: seq<string>, curr: seq<string>, path: string)
    modifies log
    ensures log.items == old(log.items) + Collect(prev, EnumRemoved(curr, path))
  {
    ghost var report := EnumRemoved(curr, path);
    for i := 0 to |prev|
      invariant log.items == old(log.items) + Collect(prev[..i], report)
    {
      CollectStep(prev, report, i);
      log.PushIf(prev[i] !in curr, Finding(Breaking, "enum.value.removed", path));
    }
    assert prev[..|prev|] == prev;
  }

  /** The moving cursor never changes a classification: see `EnumAdded`. */
  method ReportEnumAdded(log: Log, prev: seq<string>, curr: seq<string>, path: string)
    modifies log
    ensures log.items == old(log.items) + EnumAdded(prev, curr, path, |curr|)
  {
    var prevTail := |prev|;
    for i := 0 to |curr|
      invariant |prev| <= prevTail && (prevTail == |prev| || prevTail <= i)
      invariant log.items == old(log.items) + EnumAdded(prev, curr, path, i)
    {
      if curr[i] !in prev {
        var trailing := i >= prevTail;
        if trailing {
          log.Push(Finding(Warn, "enum.value.added.trailing", path));
        } else {
          log.Push(Finding(Breaking, "enum.value.inserted", path));
        }
        prevTail := if prevTail >= i + 1 then prevTail else i + 1;
      }
    }
  }

  method DiffEnumValues(log: Log, path: string, prev: FieldBody, curr: FieldBody)
    modifies log
    ensures log.items == old(log.items) + EnumFindings(prev, curr, path)
  {
    if !prev.kind.KEnum? || !curr.kind.KEnum? {
      return;
    }
    ReportEnumRemoved(log, ValuesOf(prev), ValuesOf(curr), path);
    ReportEnumAdded(log, ValuesOf(prev), ValuesOf(curr), path);
  }

  // ---- fields ----

  function FieldAt(owner: string, name: string): string { owner + ".fields[" + name + "]" }

  function FieldRemoved(owner: string, curr: seq<Field>): Field -> seq<Finding> {
    (p: Field) => if HasId(curr, p.id) then [] else [Finding(Breaking, "field.removed", FieldAt(owner, p.name))]
  }

  function FieldAdded(owner: string, prev: seq<Field>): Field -> seq<Finding> {
    (c: Field) =>
      if HasId(prev, c.id) then [] else [AddedFinding(owner, c)]
  }

  function AddedFinding(owner: string, c: Field): Finding {
    if c.body.required then Finding(Breaking, "field.required.added", FieldAt(owner, c.name))
    else Finding(Info, "field.optional.added", FieldAt(owner, c.name))
  }

  function RefText(f: FieldBody): string { if f.ref.Some? then f.ref.value else "" }

  function PairFindings(owner: string, p: Field, c: Field): seq<Finding> {
    var path := FieldAt(owner, c.name);
    Only(p.name != c.name, Finding(Breaking, "field.renamed", path))
    + (Only(p.body.kind != c.body.kind, Finding(Breaking, "field.kind.changed", path))
    + (Only(p.body.required != c.body.required, Finding(Breaking, ToggleRule(c.body.required), path))
    + (Only(RefText(p.body) != RefText(c.body), Finding(Breaking, "field.ref.changed", path))
    + EnumFindings(p.body, c.body, path))))
  }

  function ToggleRule(required: bool): string { if required then "field.required.toggled" else "field.optional.toggled" }

  function FieldChanged(owner: string, prev: seq<Field>): Field -> seq<Finding> {
    (c: Field) =>
      match LastById(prev, c.id)
      case Some(p) => PairFindings(owner, p, c)
      case None => []
  }

  function FieldFindings(owner: string, prev: seq<Field>, curr: seq<Field>): seq<Finding> {
    Collect(prev, FieldRemoved(owner, curr)) + (Collect(curr, FieldAdded(owner, prev)) + Collect(curr, FieldChanged(owner, prev)))
  }

  method DiffPair(log: Log, owner: string, p: Field, c: Field)
    modifies log
    ensures log.items == old(log.items) + PairFindings(owner, p, c)
  {
    var path := FieldAt(owner, c.name);
    log.PushIf(p.name != c.name, Finding(Breaking, "field.renamed", path));
    ghost var i1 := log.items;
    log.PushIf(p.body.kind != c.body.kind, Finding(Breaking, "field.kind.changed", path));
    ghost var i2 := log.items;
    log.PushIf(p.body.required != c.body.required, Finding(Breaking, ToggleRule(c.body.required), path));
    ghost var i3 := log.items;
    log.PushIf(RefText(p.body) != RefText(c.body), Finding(Breaking, "field.ref.changed", path));
    ghost var i4 := log.items;
    DiffEnumValues(log, path, p.body, c.body);
    ghost var enums := EnumFindings(p.body, c.body, path);
    ghost var refs := Only(RefText(p.body) != RefText(c.body), Finding(Breaking, "field.ref.changed", path));
    ghost var req := Only(p.body.required != c.body.required, Finding(Breaking, ToggleRule(c.body.required), path));
    ghost var kind := Only(p.body.kind != c.body.kind, Finding(Breaking, "field.kind.changed", path));
    ghost var name := Only(p.name != c.name, Finding(Breaking, "field.renamed", path));
    Assoc(i3, refs, enums);
    Assoc(i2, req, refs + enums);
    Assoc(i1, kind, req + (refs + enums));
    Assoc(old(log.items), name, kind + (req + (refs + enums)));
  }

  method ReportFieldsRemoved(log: Log, owner: string, prev: seq<Field>, curr: seq<Field>)
    modifies log
    ensures log.items == old(log.items) + Collect(prev, FieldRemoved(owner, curr))
  {
    var currById := TableById(curr);
    ghost var report := FieldRemoved(owner, curr);
    for i := 0 to |prev|
      invariant log.items == old(log.items) + Collect(prev[..i], report)
    {
      CollectStep(prev, report, i);
      log.PushIf(prev[i].id !in currById, Finding(Breaking, "field.removed", FieldAt(owner, prev[i].name)));
    }
    assert prev[..|prev|] == prev;
  }

  method ReportFieldsAdded(log: Log, owner: string, prev: seq<Field>, curr: seq<Field>)
    modifies log
    ensures log.items == old(log.items) + Collect(curr, FieldAdded(owner, prev))
  {
    var prevById := TableById(prev);
    ghost var report := FieldAdded(owner, prev);
    for i := 0 to |curr|
      invariant log.items == old(log.items) + Collect(curr[..i], report)
    {
      CollectStep(curr, report, i);
      log.PushIf(curr[i].id !in prevById, AddedFinding(owner, curr[i]));
    }
    assert curr[..|curr|] == curr;
  }

  method ReportFieldsChanged(log: Log, owner: string, prev: seq<Field>, curr: seq<Field>)
    modifies log
    ensures log.items == old(log.items) + Collect(curr, FieldChanged(owner, prev))
  {
    var prevById := TableById(prev);
    ghost var report := FieldChanged(owner, prev);
    for i := 0 to |curr|
      invariant log.items == old(log.items) + Collect(curr[..i], report)
    {
      CollectStep(curr, report, i);
      Assoc(old(log.items), Collect(curr[..i], report), report(curr[i]));
      if curr[i].id in prevById {
        DiffPair(log, owner, prevById[curr[i].id], curr[i]);
      }
    }
    assert curr[..|curr|] == curr;
  }

  method DiffFields(log: Log, owner: string, prev: seq<Field>, curr: seq<Field>)
    modifies log
    ensures log.items == old(log.items) + FieldFindings(owner, prev, curr)
  {
    ghost var removed := Collect(prev, FieldRemoved(owner, curr));
    ghost var added := Collect(curr, FieldAdded(owner, prev));
    ghost var changed := Collect(curr, FieldChanged(owner, prev));
    ReportFieldsRemoved(log, owner, prev, curr);
    Assoc(log.items, added, changed);
    ReportFieldsAdded(log, owner, prev, curr);
    ReportFieldsChanged(log, owner, prev, curr);
    Assoc(old(log.items), removed, added + changed);
  }

  // ---- indexes ----

  function IndexRemoved(owner: string, curr: seq<Index>): Index -> seq<Finding> {
    (p: Index) => if HasId(curr, p.id) then [] else [Finding(Breaking, "index.removed", owner + ".indexes[" + p.name + "]")]
  }

  function IndexFindings(owner: string, prev: seq<Index>, curr: seq<Index>): seq<Finding> {
    Collect(prev, IndexRemoved(owner, curr))
  }

  method DiffIndexes(log: Log, owner: string, prev: seq<Index>, curr: seq<Index>)
    modifies log
    ensures log.items == old(log.items) + IndexFindings(owner, prev, curr)
  {
    var currIds := set i | 0 <= i < |curr| :: curr[i].id;
    ghost var report := IndexRemoved(owner, curr);
    for i := 0 to |prev|
      invariant log.items == old(log.items) + Collect(prev[..i], report)
    {
      CollectStep(prev, report, i);
      log.PushIf(prev[i].id !in currIds, Finding(Breaking, "index.removed", owner + ".indexes[" + prev[i].name + "]"));
    }
    assert prev[..|prev|] == prev;
  }

  // ---- stream events ----

  function Dedup(values: seq<string>): (r: seq<string>)
    ensures forall v :: v in r <==> v in values
  {
    if values == [] then []
    else
      var front := Dedup(values[..|values| - 1]);
      var last := values[|values| - 1];
      assert values == values[..|values| - 1] + [last];
      if last in front then front else front + [last]
  }

  /** `v` occurs in `values` before `w` first does. */
  ghost predicate OccursBefore(values: seq<string>, v: string, w: string) {
    exists i | 0 <= i < |values| :: values[i] == v && forall j | 0 <= j <= i :: values[j] != w
  }

  lemma OccursBeforeExtend(values: seq<string>, v: string, w: string)
    requires values != [] && OccursBefore(values[..|values| - 1], v, w)
    ensures OccursBefore(values, v, w)
  {
    var front := values[..|values| - 1];
    var i :| 0 <= i < |front| && front[i] == v && forall j | 0 <= j <= i :: front[j] != w;
    assert values[i] == v && forall j | 0 <= j <= i :: values[j] == front[j];
  }

  lemma OccursBeforeLast(values: seq<string>, v: string)
    requires values != [] && v in values[..|values| - 1] && values[|values| - 1] !in values[..|values| - 1]
    ensures OccursBefore(values, v, values[|values| - 1])
  {
    var front := values[..|values| - 1];
    var i :| 0 <= i < |front| && front[i] == v;
    assert values[i] == v && forall j | 0 <= j <= i :: values[j] == front[j];
  }

  /** Each value once, in the order of first occurrences. */
  lemma {:induction false} DedupKeepsFirst(values: seq<string>)
    ensures Distinct(Dedup(values))
    ensures forall a, b | 0 <= a < b < |Dedup(values)| :: OccursBefore(values, Dedup(values)[a], Dedup(values)[b])
  {
    if values != [] {
      var front, last := values[..|values| - 1], values[|values| - 1];
      DedupKeepsFirst(front);
      var d, r := Dedup(front), Dedup(values);
      forall a, b | 0 <= a < b < |r| ensures OccursBefore(values, r[a], r[b]) {
        if b < |d| {
          OccursBeforeExtend(values, d[a], d[b]);
        } else {
          assert d[a] in front;
          OccursBeforeLast(values, d[a]);
        }
      }
    }
  }

  method DedupPreservingOrder(values: seq<string>) returns (r: seq<string>)
    ensures r == Dedup(values)
  {
    r := [];
    for i := 0 to |values|
      invariant r == Dedup(values[..i])
    {
      assert values[..i + 1][..i] == values[..i];
      if values[i] !in r {
        r := r + [values[i]];
      }
    }
    assert values[..|values|] == values;
  }

  function EventAt(stream: string, event: string): string { At("streams", stream) + ".events[" + event + "]" }

  function EventRemoved(stream: string, curr: seq<string>): string -> seq<Finding> {
    (e: string) => if e in curr then [] else [Finding(Breaking, "stream.event.removed", EventAt(stream, e))]
  }

  function EventAdded(stream: string, prev: seq<string>): string -> seq<Finding> {
    (e: string) => if e in prev then [] else [Finding(Info, "stream.event.added", EventAt(stream, e))]
  }

  function EventFindings(stream: string, prev: seq<string>, curr: seq<string>): seq<Finding> {
    Collect(Dedup(prev), EventRemoved(stream, Dedup(curr))) + Collect(Dedup(curr), EventAdded(stream, Dedup(prev)))
  }

  method DiffEvents(log: Log, stream: string, prev: seq<string>, curr: seq<string>)
    modifies log
    ensures log.items == old(log.items) + EventFindings(stream, prev, curr)
  {
    var prevEvents := DedupPreservingOrder(prev);
    var currEvents := DedupPreservingOrder(curr);
    ghost var removed, added := Collect(prevEvents, EventRemoved(stream, currEvents)), Collect(currEvents, EventAdded(stream, prevEvents));
    ReportEventsRemoved(log, stream, prevEvents, currEvents);
    Assoc(old(log.items), removed, added);
    ReportEventsAdded(log, stream, prevEvents, currEvents);
  }

  method ReportEventsRemoved(log: Log, stream: string, prev: seq<string>, curr: seq<string>)
    modifies log
    ensures log.items == old(log.items) + Collect(prev, EventRemoved(stream, curr))
  {
    ghost var report := EventRemoved(stream, curr);
    for i := 0 to |prev|
      invariant log.items == old(log.items) + Collect(prev[..i], report)
    {
      CollectStep(prev, report, i);
      log.PushIf(prev[i] !in curr, Finding(Breaking, "stream.event.removed", EventAt(stream, prev[i])));
    }
    assert prev[..|prev|] == prev;
  }

  method ReportEventsAdded(log: Log, stream: string, prev: seq<string>, curr: seq<string>)
    modifies log
    ensures log.items == old(log.items) + Collect(curr, EventAdded(stream, prev))
  {
    ghost var report := EventAdded(stream, prev);
    for i := 0 to |curr|
      invariant log.items == old(log.items) + Collect(curr[..i], report)
    {
      CollectStep(curr, report, i);
      log.PushIf(curr[i] !in prev, Finding(Info, "stream.event.added", EventAt(stream, curr[i])));
    }
    assert curr[..|curr|] == curr;
  }

  // ---- definitions kept under the same id ----

  function ObjectChanged(prev: seq<ObjectDef>): ObjectDef -> seq<Finding> {
    (c: ObjectDef) =>
      match ById(prev, c.id)
      case None => []
      case Some(p) =>
        FieldFindings(At("objects", c.name), p.body.fields, c.body.fields)
        + IndexFindings(At("objects", c.name), p.body.indexes, c.body.indexes)
  }

  method DiffObjects(log: Log, prev: seq<ObjectDef>, curr: seq<ObjectDef>)
    modifies log
    ensures log.items == old(log.items) + Collect(curr, ObjectChanged(prev))
  {
    ghost var report := ObjectChanged(prev);
    for i := 0 to |curr|
      invariant log.items == old(log.items) + Collect(curr[..i], report)
    {
      CollectStep(curr, report, i);
      Assoc(old(log.items), Collect(curr[..i], report), report(curr[i]));
      var c := curr[i];
      var paired := ById(prev, c.id);
      if paired.Some? {
        var p := paired.value;
        Assoc(log.items, FieldFindings(At("objects", c.name), p.body.fields, c.body.fields), IndexFindings(At("objects", c.name), p.body.indexes, c.body.indexes));
        DiffFields(log, At("objects", c.name), p.body.fields, c.body.fields);
        DiffIndexes(log, At("objects", c.name), p.body.indexes, c.body.indexes);
      }
    }
    assert curr[..|curr|] == curr;
  }

  function StreamChanged(prev: seq<StreamDef>): StreamDef -> seq<Finding> {
    (c: StreamDef) =>
      match ById(prev, c.id)
      case None => []
      case Some(p) =>
        FieldFindings(At("streams", c.name) + ".key", p.body.keyFields, c.body.keyFields)
        + EventFindings(c.name, p.body.events, c.body.events)
  }

  method DiffStreams(log: Log, prev: seq<StreamDef>, curr: seq<StreamDef>)
    modifies log
    ensures log.items == old(log.items) + Collect(curr, StreamChanged(prev))
  {
    ghost var report := StreamChanged(prev);
    for i := 0 to |curr|
      invariant log.items == old(log.items) + Collect(curr[..i], report)
    {
      CollectStep(curr, report, i);
      Assoc(old(log.items), Collect(curr[..i], report), report(curr[i]));
      var c := curr[i];
      var paired := ById(prev, c.id);
      if paired.Some? {
        var p := paired.value;
        Assoc(log.items, FieldFindings(At("streams", c.name) + ".key", p.body.keyFields, c.body.keyFields), EventFindings(c.name, p.body.events, c.body.events));
        DiffFields(log, At("streams", c.name) + ".key", p.body.keyFields, c.body.keyFields);
        DiffEvents(log, c.name, p.body.events, c.body.events);
      }
    }
    assert curr[..|curr|] == curr;
  }

  /** Presences and signals. */
  function KeyedChanged(collection: string, prev: seq<KeyedDef>): KeyedDef -> seq<Finding> {
    (c: KeyedDef) =>
      match ById(prev, c.id)
      case None => []
      case Some(p) =>
        FieldFindings(At(collection, c.name) + ".key", p.body.keyFields, c.body.keyFields)
        + FieldFindings(At(collection, c.name), p.body.fields, c.body.fields)
  }

  method DiffKeyed(log: Log, collection: string, prev: seq<KeyedDef>, curr: seq<KeyedDef>)
    modifies log
    ensures log.items == old(log.items) + Collect(curr, KeyedChanged(collection, prev))
  {
    ghost var report := KeyedChanged(collection, prev);
    for i := 0 to |curr|
      invariant log.items == old(log.items) + Collect(curr[..i], report)
    {
      CollectStep(curr, report, i);
      Assoc(old(log.items), Collect(curr[..i], report), report(curr[i]));
      var c := curr[i];
      var paired := ById(prev, c.id);
      if paired.Some? {
        var p := paired.value;
        Assoc(log.items, FieldFindings(At(collection, c.name) + ".key", p.body.keyFields, c.body.keyFields), FieldFindings(At(collection, c.name), p.body.fields, c.body.fields));
        DiffFields(log, At(collection, c.name) + ".key", p.body.keyFields, c.body.keyFields);
        DiffFields(log, At(collection, c.name), p.body.fields, c.body.fields);
      }
    }
    assert curr[..|curr|] == curr;
  }

  /** Events, blobs and jobs. */
  function PlainChanged(collection: string, suffix: string, prev: seq<Carrier<seq<Field>>>): Carrier<seq<Field>> -> seq<Finding> {
    (c: Carrier<seq<Field>>) =>
      match ById(prev, c.id)
      case None => []
      case Some(p) =>
        FieldFindings(At(collection, c.name) + suffix, p.body, c.body)
  }

  method DiffPlain(log: Log, collection: string, suffix: string, prev: seq<Carrier<seq<Field>>>, curr: seq<Carrier<seq<Field>>>)
    modifies log
    ensures log.items == old(log.items) + Collect(curr, PlainChanged(collection, suffix, prev))
  {
    ghost var report := PlainChanged(collection, suffix, prev);
    for i := 0 to |curr|
      invariant log.items == old(log.items) + Collect(curr[..i], report)
    {
      CollectStep(curr, report, i);
      Assoc(old(log.items), Collect(curr[..i], report), report(curr[i]));
      var c := curr[i];
      var paired := ById(prev, c.id);
      if paired.Some? {
        var p := paired.value;
        DiffFields(log, At(collection, c.name) + suffix, p.body, c.body);
      }
    }
    assert curr[..|curr|] == curr;
  }

  function SourceFindings(p: ProjectionDef, c: ProjectionDef): seq<Finding> {
    Only(p.body.source != c.body.source, Finding(Breaking, "projection.source.changed", At("projections", c.name) + ".source"))
  }

  function ProjectionChanged(prev: seq<ProjectionDef>): ProjectionDef -> seq<Finding> {
    (c: ProjectionDef) =>
      match ById(prev, c.id)
      case None => []
      case Some(p) =>
        SourceFindings(p, c)
        + (FieldFindings(At("projections", c.name), p.body.fields, c.body.fields)
        + IndexFindings(At("projections", c.name), p.body.indexes, c.body.indexes))
  }

  method DiffProjections(log: Log, prev: seq<ProjectionDef>, curr: seq<ProjectionDef>)
    modifies log
    ensures log.items == old(log.items) + Collect(curr, ProjectionChanged(prev))
  {
    ghost var report := ProjectionChanged(prev);
    for i := 0 to |curr|
      invariant log.items == old(log.items) + Collect(curr[..i], report)
    {
      CollectStep(curr, report, i);
      Assoc(old(log.items), Collect(curr[..i], report), report(curr[i]));
      var c := curr[i];
      var paired := ById(prev, c.id);
      if paired.Some? {
        var p := paired.value;
        ghost var fields := FieldFindings(At("projections", c.name), p.body.fields, c.body.fields);
        ghost var indexes := IndexFindings(At("projections", c.name), p.body.indexes, c.body.indexes);
        Assoc(log.items, SourceFindings(p, c), fields + indexes);
        log.PushIf(p.body.source != c.body.source, Finding(Breaking, "projection.source.changed", At("projections", c.name) + ".source"));
        Assoc(log.items, fields, indexes);
        DiffFields(log, At("projections", c.name), p.body.fields, c.body.fields);
        DiffIndexes(log, At("projections", c.name), p.body.indexes, c.body.indexes);
      }
    }
    assert curr[..|curr|] == curr;
  }

  // ---- the whole comparison ----

  function IdentityFindings(curr: Schema, prev: Schema): seq<Finding> {
    Only(prev.schemaId != curr.schemaId, Finding(Breaking, "schema.id.changed", "schemaId"))
    + (Only(curr.schemaRevision < prev.schemaRevision, Finding(Breaking, "schema.revision.decreased", "schemaRevision"))
    + Only(curr.minimumClientRevision > prev.minimumClientRevision,
           Finding(Warn, "schema.minimumClientRevision.raised", "minimumClientRevision")))
  }

  function TypeSetsFindings(curr: Schema, prev: Schema): seq<Finding> {
    Eight(
      TypeSetFindings(prev.objects, curr.objects, "objects", "object"),
      TypeSetFindings(prev.streams, curr.streams, "streams", "stream"),
      TypeSetFindings(prev.events, curr.events, "events", "event"),
      TypeSetFindings(prev.presences, curr.presences, "presences", "presence"),
      TypeSetFindings(prev.signals, curr.signals, "signals", "signal"),
      TypeSetFindings(prev.blobs, curr.blobs, "blobs", "blob"),
      TypeSetFindings(prev.jobs, curr.jobs, "jobs", "job"),
      TypeSetFindings(prev.projections, curr.projections, "projections", "projection"))
  }

  function MembersFindings(curr: Schema, prev: Schema): seq<Finding> {
    Eight(
      Collect(curr.objects, ObjectChanged(prev.objects)),
      Collect(curr.events, PlainChanged("events", "", prev.events)),
      Collect(curr.streams, StreamChanged(prev.streams)),
      Collect(curr.presences, KeyedChanged("presences", prev.presences)),
      Collect(curr.signals, KeyedChanged("signals", prev.signals)),
      Collect(curr.blobs, PlainChanged("blobs", ".metadata", prev.blobs)),
      Collect(curr.jobs, PlainChanged("jobs", "", prev.jobs)),
      Collect(curr.projections, ProjectionChanged(prev.projections)))
  }

  function LintFindings(curr: Schema, prev: Schema): seq<Finding> {
    IdentityFindings(curr, prev) + (TypeSetsFindings(curr, prev) + MembersFindings(curr, prev))
  }

  function CountBreaking(fs: seq<Finding>): nat {
    if fs == [] then 0 else CountBreaking(fs[..|fs| - 1]) + if fs[|fs| - 1].severity.Breaking? then 1 else 0
  }

  ghost function BreakingPositions(fs: seq<Finding>): set<int> { set i | 0 <= i < |fs| && fs[i].severity.Breaking? }

  lemma {:induction false} CountIsCardinality(fs: seq<Finding>)
    ensures CountBreaking(fs) == |BreakingPositions(fs)|
  {
    if fs != [] {
      var n := |fs| - 1;
      var front := fs[..n];
      CountIsCardinality(front);
      assert BreakingPositions(fs) == BreakingPositions(front) + if fs[n].severity.Breaking? then {n} else {};
    }
  }

  datatype LintResult = LintResult(findings: seq<Finding>, breakingCount: nat)

  method DiffIdentity(log: Log, curr: Schema, prev: Schema)
    modifies log
    ensures log.items == old(log.items) + IdentityFindings(curr, prev)
  {
    ghost var f0 := Only(prev.schemaId != curr.schemaId, Finding(Breaking, "schema.id.changed", "schemaId"));
    ghost var f1 := Only(curr.schemaRevision < prev.schemaRevision, Finding(Breaking, "schema.revision.decreased", "schemaRevision"));
    ghost var f2 := Only(curr.minimumClientRevision > prev.minimumClientRevision,
                         Finding(Warn, "schema.minimumClientRevision.raised", "minimumClientRevision"));
    ghost var r2 := f2;
    ghost var r1 := f1 + r2;
    ghost var r0 := f0 + r1;
    assert r0 == IdentityFindings(curr, prev);
    Assoc(log.items, f0, r1);
    log.PushIf(prev.schemaId != curr.schemaId, Finding(Breaking, "schema.id.changed", "schemaId"));
    assert log.items + r1 == old(log.items) + r0;
    Assoc(log.items, f1, r2);
    log.PushIf(curr.schemaRevision < prev.schemaRevision, Finding(Breaking, "schema.revision.decreased", "schemaRevision"));
    assert log.items + r2 == old(log.items) + r0;
    log.PushIf(curr.minimumClientRevision > prev.minimumClientRevision,
               Finding(Warn, "schema.minimumClientRevision.raised", "minimumClientRevision"));
  }

  method DiffTypeSets(log: Log, curr: Schema, prev: Schema)
    modifies log
    ensures log.items == old(log.items) + TypeSetsFindings(curr, prev)
  {
    Regroup(log.items,
      TypeSetFindings(prev.objects, curr.objects, "objects", "object"),
      TypeSetFindings(prev.streams, curr.streams, "streams", "stream"),
      TypeSetFindings(prev.events, curr.events, "events", "event"),
      TypeSetFindings(prev.presences, curr.presences, "presences", "presence"),
      TypeSetFindings(prev.signals, curr.signals, "signals", "signal"),
      TypeSetFindings(prev.blobs, curr.blobs, "blobs", "blob"),
      TypeSetFindings(prev.jobs, curr.jobs, "jobs", "job"),
      TypeSetFindings(prev.projections, curr.projections, "projections", "projection"));
    DiffTypeSet(log, prev.objects, curr.objects, "objects", "object");
    DiffTypeSet(log, prev.streams, curr.streams, "streams", "stream");
    DiffTypeSet(log, prev.events, curr.events, "events", "event");
    DiffTypeSet(log, prev.presences, curr.presences, "presences", "presence");
    DiffTypeSet(log, prev.signals, curr.signals, "signals", "signal");
    DiffTypeSet(log, prev.blobs, curr.blobs, "blobs", "blob");
    DiffTypeSet(log, prev.jobs, curr.jobs, "jobs", "job");
    DiffTypeSet(log, prev.projections, curr.projections, "projections", "projection");
  }

  method DiffMembers(log: Log, curr: Schema, prev: Schema)
    modifies log
    ensures log.items == old(log.items) + MembersFindings(curr, prev)
  {
    Regroup(log.items,
      Collect(curr.objects, ObjectChanged(prev.objects)),
      Collect(curr.events, PlainChanged("events", "", prev.events)),
      Collect(curr.streams, StreamChanged(prev.streams)),
      Collect(curr.presences, KeyedChanged("presences", prev.presences)),
      Collect(curr.signals, KeyedChanged("signals", prev.signals)),
      Collect(curr.blobs, PlainChanged("blobs", ".metadata", prev.blobs)),
      Collect(curr.jobs, PlainChanged("jobs", "", prev.jobs)),
      Collect(curr.projections, ProjectionChanged(prev.projections)));
    DiffObjects(log, prev.objects, curr.objects);
    DiffPlain(log, "events", "", prev.events, curr.events);
    DiffStreams(log, prev.streams, curr.streams);
    DiffKeyed(log, "presences", prev.presences, curr.presences);
    DiffKeyed(log, "signals", prev.signals, curr.signals);
    DiffPlain(log, "blobs", ".metadata", prev.blobs, curr.blobs);
    DiffPlain(log, "jobs", "", prev.jobs, curr.jobs);
    DiffProjections(log, prev.projections, curr.projections);
  }

  method LintSchemaChange(curr: Schema, prev: Schema) returns (r: LintResult)
    ensures r.findings == LintFindings(curr, prev)
    ensures r.breakingCount == CountBreaking(r.findings) == |BreakingPositions(r.findings)|
  {
    var log := new Log();
    ghost var identity, sets, members := IdentityFindings(curr, prev), TypeSetsFindings(curr, prev), MembersFindings(curr, prev);
    DiffIdentity(log, curr, prev);
    assert log.items == identity;
    DiffTypeSets(log, curr, prev);
    Assoc(identity, sets, members);
    DiffMembers(log, curr, prev);
    CountIsCardinality(log.items);
    r := LintResult(log.items, CountBreaking(log.items));
  }
}
