/** The packed-record codec: field names on one side, field ids on the other. */
module Codec {
  import opened Text
  import opened Values
  import opened Schemas
  import opened Assignments

  datatype CodecError =
    | UnknownType(what: string, name: string)
    | UnknownTypeId(what: string, id: int)
    | UnknownField(name: string)
    | UnknownFieldId(id: int)
    | ExpectedObject
    | ExpectedStringNames

  datatype Result<+T> = Ok(value: T) | Err(error: CodecError)

  /** `[[fieldId, value], ...]`. */
  type Packed = seq<(int, Value)>

  /** `[[fieldName, value], ...]`. */
  type Named = seq<(string, Value)>

  // ---- packing ----

  /** The field name a map key stands for; an integer key stands for its numeral. */
  function KeyName(key: Value): Option<string> {
    match key
    case String(Utf8(text)) => Some(text)
    case Integer(i) => Some(IntText(i))
    case _ => None
  }

  function PackEntries(fields: seq<Field>, entries: seq<Entry>): (r: Result<Packed>)
    ensures r.Ok? ==> |r.value| == |entries|
  {
    if entries == [] then Ok([])
    else
      match PackEntries(fields, entries[..|entries| - 1])
      case Err(e) => Err(e)
      case Ok(front) =>
        var last := entries[|entries| - 1];
        match KeyName(last.key)
        case None => Err(ExpectedStringNames)
        case Some(name) =>
          match ByName(fields, name)
          case None => Err(UnknownField(name))
          case Some(f) => Ok(front + [(f.id, last.val)])
  }

  predicate IsScalar(v: Value) { v.Boolean? || v.Integer? || v.F32? || v.F64? }

  function PackFields(fields: seq<Field>, value: Value): Result<Packed> {
    if value.Map? then PackEntries(fields, value.entries)
    else if IsScalar(value) then Ok([])
    else Err(ExpectedObject)
  }

  /** A text key stands for its text, an integer key for its decimal numeral, any other key for nothing. */
  lemma KeyNameExactly(key: Value, name: string)
    ensures KeyName(key) == Some(name) <==> key == Txt(name) || (key.Integer? && IsDecimal(name, key.number))
  {
    if key.Integer? {
      IntTextIsDecimal(key.number);
      if IsDecimal(name, key.number) {
        DecimalUnique(name, IntText(key.number), key.number);
      }
    }
  }

  /** Packing sees of a key only the name it stands for. */
  lemma {:induction false} PackedByName(fields: seq<Field>, es: seq<Entry>, fs: seq<Entry>)
    requires |es| == |fs| && forall i | 0 <= i < |es| :: es[i].val == fs[i].val && KeyName(es[i].key) == KeyName(fs[i].key)
    ensures PackEntries(fields, es) == PackEntries(fields, fs)
  {
    if es != [] {
      PackedByName(fields, es[..|es| - 1], fs[..|fs| - 1]);
    }
  }

  /** Writing an integer key as text changes nothing. */
  lemma NumeralKeysPackAlike(fields: seq<Field>, es: seq<Entry>, k: nat, name: string)
    requires k < |es| && es[k].key.Integer? && IsDecimal(name, es[k].key.number)
    ensures PackFields(fields, Map(es[k := Entry(Txt(name), es[k].val)])) == PackFields(fields, Map(es))
  {
    KeyNameExactly(es[k].key, name);
    PackedByName(fields, es[k := Entry(Txt(name), es[k].val)], es);
  }

  /** The entry's key stands for the name of a declared field. */
  ghost predicate CanPack(fields: seq<Field>, e: Entry) {
    KeyName(e.key).Some? && exists f | f in fields :: f.name == KeyName(e.key).value
  }

  /** What is wrong with an entry that cannot be packed. */
  function PackDefect(e: Entry): CodecError {
    match KeyName(e.key)
    case None => ExpectedStringNames
    case Some(name) => UnknownField(name)
  }

  /** A map that does not pack fails at its first bad entry; nil, text, bytes, arrays and extensions are no objects. */
  lemma PackFailsFirst(fields: seq<Field>, value: Value)
    requires PackFields(fields, value).Err?
    ensures var e := PackFields(fields, value).error;
            if value.Map? then
              exists i | 0 <= i < |value.entries| ::
                && !CanPack(fields, value.entries[i]) && e == PackDefect(value.entries[i])
                && forall j | 0 <= j < i :: CanPack(fields, value.entries[j])
            else e == ExpectedObject && (value.Nil? || value.String? || value.Binary? || value.Array? || value.Ext?)
  {
    if value.Map? {
      EntriesFailFirst(fields, value.entries);
    }
  }

  lemma {:induction false} EntriesFailFirst(fields: seq<Field>, es: seq<Entry>)
    ensures match PackEntries(fields, es)
            case Ok(_) => forall j | 0 <= j < |es| :: CanPack(fields, es[j])
            case Err(e) =>
              exists i | 0 <= i < |es| ::
                !CanPack(fields, es[i]) && e == PackDefect(es[i]) && forall j | 0 <= j < i :: CanPack(fields, es[j])
  {
    if es != [] {
      var n := |es| - 1;
      var front := es[..n];
      EntriesFailFirst(fields, front);
      assert forall j | 0 <= j < n :: front[j] == es[j];
      if PackEntries(fields, front).Ok? {
        assert CanPack(fields, es[n]) <==> PackEntries(fields, es).Ok?;
      } else {
        var i :| 0 <= i < n && !CanPack(fields, front[i]) && PackEntries(fields, front).error == PackDefect(front[i])
                 && forall j | 0 <= j < i :: CanPack(fields, front[j]);
        assert es[i] == front[i];
      }
    }
  }

  // ---- unpacking ----

  /** The packed pairs under their field names. */
  function NameFields(fields: seq<Field>, packed: Packed): (r: Result<Named>)
    ensures r.Ok? ==> |r.value| == |packed|
  {
    if packed == [] then Ok([])
    else
      match NameFields(fields, packed[..|packed| - 1])
      case Err(e) => Err(e)
      case Ok(front) =>
        var last := packed[|packed| - 1];
        match ById(fields, last.0)
        case None => Err(UnknownFieldId(last.0))
        case Some(f) => Ok(front + [(f.name, last.1)])
  }

  function ToEntries(m: Named): (es: seq<Entry>)
    ensures |es| == |m| && forall i | 0 <= i < |m| :: es[i] == Entry(Txt(m[i].0), m[i].1)
  {
    seq(|m|, i requires 0 <= i < |m| => Entry(Txt(m[i].0), m[i].1))
  }

  function UnpackInto(fields: seq<Field>, packed: Packed, base: Named): Result<Value> {
    match NameFields(fields, packed)
    case Err(e) => Err(e)
    case Ok(named) => Ok(Map(ToEntries(PutAll(base, named))))
  }

  /** The first entry whose key is this text. */
  function FindEntry(entries: seq<Entry>, name: string): (i: nat)
    ensures i <= |entries|
    ensures i < |entries| ==> AsStr(entries[i].key) == Some(name)
    ensures forall j | 0 <= j < i :: AsStr(entries[j].key) != Some(name)
  {
    if entries == [] then 0 else if AsStr(entries[0].key) == Some(name) then 0 else 1 + FindEntry(entries[1..], name)
  }

  lemma FindEntryIs(m: Named, name: string)
    ensures FindEntry(ToEntries(m), name) == Find(m, name)
  {
  }

  /** Overwrite the first entry with this name, or append one. */
  function PutIn(entries: seq<Entry>, name: string, value: Value): seq<Entry> {
    var at := FindEntry(entries, name);
    if at < |entries| then entries[at := Entry(entries[at].key, value)] else entries + [Entry(Txt(name), value)]
  }

  lemma PutInIsPut(m: Named, name: string, value: Value)
    ensures PutIn(ToEntries(m), name, value) == ToEntries(Put(m, name, value))
  {
    FindEntryIs(m, name);
    var l, r := PutIn(ToEntries(m), name, value), ToEntries(Put(m, name, value));
    forall k | 0 <= k < |l| ensures l[k] == r[k] {}
  }

  lemma {:induction false} NamingStops(fields: seq<Field>, packed: Packed, i: nat)
    requires i <= |packed| && NameFields(fields, packed[..i]).Err?
    ensures NameFields(fields, packed) == NameFields(fields, packed[..i])
  {
    if i < |packed| {
      assert packed[..|packed| - 1][..i] == packed[..i];
      NamingStops(fields, packed[..|packed| - 1], i);
    } else {
      assert packed[..i] == packed;
    }
  }

  /** Naming one more pair. */
  lemma NamingStep(fields: seq<Field>, packed: Packed, i: nat, named: Named)
    requires i < |packed| && NameFields(fields, packed[..i]) == Ok(named)
    ensures NameFields(fields, packed[..i + 1]) ==
            match ById(fields, packed[i].0)
            case None => Err(UnknownFieldId(packed[i].0))
            case Some(f) => Ok(named + [(f.name, packed[i].1)])
  {
    assert packed[..i + 1][..i] == packed[..i] && packed[..i + 1][i] == packed[i];
  }

  lemma PutAllStep(base: Named, named: Named, name: string, value: Value)
    ensures PutAll(base, named + [(name, value)]) == Put(PutAll(base, named), name, value)
  {
    assert (named + [(name, value)])[..|named|] == named;
  }

  lemma UnpackFails(fields: seq<Field>, packed: Packed, base: Named, i: nat)
    requires i <= |packed| && UnpackInto(fields, packed[..i], base).Err?
    ensures UnpackInto(fields, packed, base) == UnpackInto(fields, packed[..i], base)
  {
    NamingStops(fields, packed, i);
  }

  /** One more pair: an unknown id ends it, a known one is assigned. */
  lemma UnpackStep(fields: seq<Field>, packed: Packed, base: Named, i: nat, entries: seq<Entry>)
    requires i < |packed| && UnpackInto(fields, packed[..i], base) == Ok(Map(entries))
    ensures UnpackInto(fields, packed[..i + 1], base) ==
            match ById(fields, packed[i].0)
            case None => Err(UnknownFieldId(packed[i].0))
            case Some(f) => Ok(Map(PutIn(entries, f.name, packed[i].1)))
  {
    var named := NameFields(fields, packed[..i]).value;
    NamingStep(fields, packed, i, named);
    var field := ById(fields, packed[i].0);
    if field.Some? {
      PutAllStep(base, named, field.value.name, packed[i].1);
      PutInIsPut(PutAll(base, named), field.value.name, packed[i].1);
    }
  }

  /** The loop that overwrites an entry or appends one. */
  method UnpackFieldsInto(fields: seq<Field>, packed: Packed, base: Named) returns (r: Result<Value>)
    ensures r == UnpackInto(fields, packed, base)
  {
    var entries := ToEntries(base);
    for i := 0 to |packed|
      invariant UnpackInto(fields, packed[..i], base) == Ok(Map(entries))
    {
      UnpackStep(fields, packed, base, i, entries);
      var (fieldId, value) := packed[i];
      var field := ById(fields, fieldId);
      if field.None? {
        UnpackFails(fields, packed, base, i + 1);
        return Err(UnknownFieldId(fieldId));
      }
      var at := FindEntry(entries, field.value.name);
      if at < |entries| {
        entries := entries[at := Entry(entries[at].key, value)];
      } else {
        entries := entries + [Entry(Txt(field.value.name), value)];
      }
    }
    assert packed[..|packed|] == packed;
    r := Ok(Map(entries));
  }

  /** Naming fails at the first id that no field has. */
  lemma {:induction false} NamingFailsFirst(fields: seq<Field>, packed: Packed)
    ensures match NameFields(fields, packed)
            case Ok(_) => forall j | 0 <= j < |packed| :: HasField(fields, packed[j].0)
            case Err(e) =>
              exists i | 0 <= i < |packed| ::
                !HasField(fields, packed[i].0) && e == UnknownFieldId(packed[i].0) && forall j | 0 <= j < i :: HasField(fields, packed[j].0)
  {
    if packed != [] {
      var n := |packed| - 1;
      var front := packed[..n];
      NamingFailsFirst(fields, front);
      assert forall j | 0 <= j < n :: front[j] == packed[j];
      if NameFields(fields, front).Ok? {
        assert HasField(fields, packed[n].0) <==> NameFields(fields, packed).Ok?;
      } else {
        var i :| 0 <= i < n && !HasField(fields, front[i].0) && NameFields(fields, front).error == UnknownFieldId(front[i].0)
                 && forall j | 0 <= j < i :: HasField(fields, front[j].0);
        assert packed[i] == front[i];
      }
    }
  }

  ghost predicate HasField(fields: seq<Field>, id: int) { exists f | f in fields :: f.id == id }

  /** Pair by pair, the id and the name belong to one declared field and the values agree. */
  ghost predicate Aligned(fields: seq<Field>, packed: Packed, named: Named) {
    && |packed| == |named|
    && forall i | 0 <= i < |packed| ::
         packed[i].1 == named[i].1 && Declares(fields, packed[i].0, named[i].0)
  }

  ghost predicate Declares(fields: seq<Field>, id: int, name: string) { exists f | f in fields :: f.id == id && f.name == name }

  lemma {:induction false} NameFieldsAligned(fields: seq<Field>, packed: Packed, named: Named)
    requires UniqueIds(fields)
    ensures NameFields(fields, packed) == Ok(named) <==> Aligned(fields, packed, named)
  {
    if packed != [] && named != [] {
      var p, n := packed[..|packed| - 1], named[..|named| - 1];
      var lp, ln := packed[|packed| - 1], named[|named| - 1];
      NameFieldsAligned(fields, p, n);
      assert packed == p + [lp] && named == n + [ln];
      if Declares(fields, lp.0, ln.0) {
        var f :| f in fields && f.id == lp.0 && f.name == ln.0;
        LookupById(fields, f);
      }
      AlignedSplit(fields, packed, named);
      if NameFields(fields, packed) == Ok(named) {
        assert n == NameFields(fields, p).value;
      }
    }
  }

  lemma AlignedSplit(fields: seq<Field>, packed: Packed, named: Named)
    requires packed != [] && named != []
    ensures var lp, ln := packed[|packed| - 1], named[|named| - 1];
            Aligned(fields, packed, named) <==>
            && Aligned(fields, packed[..|packed| - 1], named[..|named| - 1])
            && lp.1 == ln.1 && Declares(fields, lp.0, ln.0)
  {
    var p, n := packed[..|packed| - 1], named[..|named| - 1];
    assert |p| == |n| ==> forall i | 0 <= i < |p| :: packed[i] == p[i] && named[i] == n[i];
  }

  /** Every key of a value to pack stands for a name. */
  ghost predicate Nameable(entries: seq<Entry>) { forall i | 0 <= i < |entries| :: KeyName(entries[i].key).Some? }

  /** The input as assignments: its entries under the names their keys stand for. */
  ghost function NamesOf(entries: seq<Entry>): (named: Named)
    requires Nameable(entries)
    ensures |named| == |entries|
    ensures forall i | 0 <= i < |entries| :: named[i] == (KeyName(entries[i].key).value, entries[i].val)
  {
    seq(|entries|, i requires 0 <= i < |entries| => (KeyName(entries[i].key).value, entries[i].val))
  }

  lemma {:induction false} PackEntriesAligned(lower: string -> string, fields: seq<Field>, entries: seq<Entry>, packed: Packed)
    requires UniqueNames(lower, fields)
    ensures PackEntries(fields, entries) == Ok(packed) <==> Nameable(entries) && Aligned(fields, packed, NamesOf(entries))
  {
    if entries != [] && packed != [] {
      var es, ps := entries[..|entries| - 1], packed[..|packed| - 1];
      var le, lp := entries[|entries| - 1], packed[|packed| - 1];
      PackEntriesAligned(lower, fields, es, ps);
      assert entries == es + [le] && packed == ps + [lp];
      assert Nameable(entries) <==> Nameable(es) && KeyName(le.key).Some?;
      if Nameable(entries) {
        var named := NamesOf(entries);
        assert named[..|named| - 1] == NamesOf(es);
        AlignedSplit(fields, packed, named);
        if Declares(fields, lp.0, KeyName(le.key).value) {
          var f :| f in fields && f.id == lp.0 && f.name == KeyName(le.key).value;
          LookupByName(lower, fields, f);
        }
      }
      if PackEntries(fields, entries) == Ok(packed) {
        assert ps == PackEntries(fields, es).value;
      }
    }
  }

  /** A value that can be packed at all: a scalar, or a map whose keys all stand for names. */
  ghost predicate Packable(value: Value) { IsScalar(value) || (value.Map? && Nameable(value.entries)) }

  /** The assignments a packable value stands for; a scalar stands for none. */
  ghost function Assigned(value: Value): (named: Named)
    requires Packable(value)
  {
    if value.Map? then NamesOf(value.entries) else []
  }

  /** The map a reader sees: the value's assignments made on top of `base`. */
  ghost function Materialise(base: Named, value: Value): Value
    requires Packable(value)
  {
    Map(ToEntries(PutAll(base, Assigned(value))))
  }

  /** Each key keeps its first position and its last value; keys of `base` come first. */
  lemma MaterialiseMeaning(base: Named, value: Value)
    requires Packable(value) && DistinctKeys(base)
    ensures exists r :: Materialised(base, Assigned(value), r) && Materialise(base, value) == Map(ToEntries(r))
  {
    PutAllMaterialises(base, Assigned(value));
    assert Materialised(base, Assigned(value), PutAll(base, Assigned(value)));
  }

  /** An object shows `id` first; an assigned `id` field overwrites that slot and adds no second one. */
  lemma IdSlot(id: string, value: Value)
    requires Packable(value)
    ensures var es, named := Materialise([("id", Txt(id))], value).entries, Assigned(value);
            && es != [] && es[0].key == Txt("id")
            && (forall i | 0 < i < |es| :: es[i].key != Txt("id"))
            && (if HasKey(named, "id") then LastAssigned(named, "id", es[0].val) else es[0].val == Txt(id))
  {
    var base: Named := [("id", Txt(id))];
    PutAllMaterialises(base, Assigned(value));
    var r := PutAll(base, Assigned(value));
    assert r[0].0 == base[0].0 && RightAt(base, Assigned(value), r, 0);
    assert forall i | 0 < i < |r| :: r[i].0 != r[0].0;
  }

  /** Packing succeeds exactly on scalars and on maps all of whose keys name declared fields. */
  lemma PackSucceeds(lower: string -> string, fields: seq<Field>, value: Value)
    requires UniqueNames(lower, fields)
    ensures PackFields(fields, value).Ok? <==>
            || value.Boolean? || value.Integer? || value.F32? || value.F64?
            || (value.Map? && Nameable(value.entries) && forall i | 0 <= i < |value.entries| :: exists f | f in fields :: f.name == KeyName(value.entries[i].key).value)
    ensures PackFields(fields, value).Ok? ==> Aligned(fields, PackFields(fields, value).value, Assigned(value))
  {
    if value.Map? {
      var r := PackFields(fields, value);
      if r.Ok? {
        PackEntriesAligned(lower, fields, value.entries, r.value);
      }
      if Nameable(value.entries) && forall i | 0 <= i < |value.entries| :: exists f | f in fields :: f.name == KeyName(value.entries[i].key).value {
        var named := NamesOf(value.entries);
        forall i | 0 <= i < |named| ensures ByName(fields, named[i].0).Some? {
          assert named[i].0 == KeyName(value.entries[i].key).value;
          var f :| f in fields && f.name == named[i].0;
        }
        var packed := seq(|named|, i requires 0 <= i < |named| => (ByName(fields, named[i].0).value.id, named[i].1));
        PackEntriesAligned(lower, fields, value.entries, packed);
      }
    }
  }

  /** Unpacking what was packed replays the input's assignments onto `base`. */
  lemma FieldsRoundTrip(lower: string -> string, fields: seq<Field>, value: Value, base: Named)
    requires Unique(lower, fields) && PackFields(fields, value).Ok?
    ensures Packable(value) && UnpackInto(fields, PackFields(fields, value).value, base) == Ok(Materialise(base, value))
  {
    PackSucceeds(lower, fields, value);
    NameFieldsAligned(fields, PackFields(fields, value).value, Assigned(value));
  }

  // ---- packing what was unpacked ----

  lemma FindAligned(lower: string -> string, fields: seq<Field>, packed: Packed, named: Named, f: Field)
    requires Unique(lower, fields) && Aligned(fields, packed, named) && f in fields
    ensures Find(packed, f.id) == Find(named, f.name)
  {
    forall i | 0 <= i < |packed| ensures packed[i].0 == f.id <==> named[i].0 == f.name {
      var g :| g in fields && g.id == packed[i].0 && g.name == named[i].0;
      LookupsInverse(lower, fields, f);
      LookupsInverse(lower, fields, g);
    }
  }

  lemma PutAligned(lower: string -> string, fields: seq<Field>, packed: Packed, named: Named, f: Field, v: Value)
    requires Unique(lower, fields) && Aligned(fields, packed, named) && f in fields
    ensures Aligned(fields, Put(packed, f.id, v), Put(named, f.name, v))
  {
    FindAligned(lower, fields, packed, named, f);
  }

  lemma {:induction false} PutAllAligned(lower: string -> string, fields: seq<Field>, packed: Packed, named: Named)
    requires Unique(lower, fields) && Aligned(fields, packed, named)
    ensures Aligned(fields, PutAll([], packed), PutAll([], named))
  {
    if packed != [] {
      AlignedSplit(fields, packed, named);
      PutAllAligned(lower, fields, packed[..|packed| - 1], named[..|named| - 1]);
      var lp, ln := packed[|packed| - 1], named[|named| - 1];
      var f :| f in fields && f.id == lp.0 && f.name == ln.0;
      PutAligned(lower, fields, PutAll([], packed[..|packed| - 1]), PutAll([], named[..|named| - 1]), f, lp.1);
    }
  }

  lemma EntriesNamed(m: Named)
    ensures Nameable(ToEntries(m)) && NamesOf(ToEntries(m)) == m
  {
  }

  /**
   * Packing what was unpacked collapses repeated ids to their first position and last value
   * (`PutAllMaterialises`), and gives distinct ids back unchanged.
   */
  lemma ReverseRoundTrip(lower: string -> string, fields: seq<Field>, packed: Packed)
    requires Unique(lower, fields) && UnpackInto(fields, packed, []).Ok?
    ensures PackFields(fields, UnpackInto(fields, packed, []).value) == Ok(PutAll([], packed))
    ensures DistinctKeys(packed) ==> PackFields(fields, UnpackInto(fields, packed, []).value) == Ok(packed)
  {
    var named := NameFields(fields, packed).value;
    NameFieldsAligned(fields, packed, named);
    PutAllAligned(lower, fields, packed, named);
    EntriesNamed(PutAll([], named));
    PackEntriesAligned(lower, fields, ToEntries(PutAll([], named)), PutAll([], packed));
    if DistinctKeys(packed) {
      FreshAlone(packed);
    }
  }

  // ---- records ----

  /** An object record, a presence or a signal: `[typeId, key, fields]`. */
  datatype PackedRecord = PackedRecord(typeId: int, key: string, fields: Packed)

  datatype Unpacked = Unpacked(typeName: string, key: string, value: Value)

  function PackObject(objects: seq<ObjectDef>, name: string, id: string, value: Value): Result<PackedRecord> {
    match ByName(objects, name)
    case None => Err(UnknownType("object", name))
    case Some(o) =>
      match PackFields(o.body.fields, value)
      case Err(e) => Err(e)
      case Ok(fields) => Ok(PackedRecord(o.id, id, fields))
  }

  function IdBase(id: string): Named { [("id", Txt(id))] }

  function UnpackObject(objects: seq<ObjectDef>, p: PackedRecord): Result<Unpacked> {
    match ById(objects, p.typeId)
    case None => Err(UnknownTypeId("object", p.typeId))
    case Some(o) =>
      match UnpackInto(o.body.fields, p.fields, IdBase(p.key))
      case Err(e) => Err(e)
      case Ok(v) => Ok(Unpacked(o.name, p.key, v))
  }

  /** Presences and signals, by the collection they live in. */
  function PackKeyed(ts: seq<KeyedDef>, what: string, name: string, key: string, value: Value): Result<PackedRecord> {
    match ByName(ts, name)
    case None => Err(UnknownType(what, name))
    case Some(t) =>
      match PackFields(t.body.fields, value)
      case Err(e) => Err(e)
      case Ok(fields) => Ok(PackedRecord(t.id, key, fields))
  }

  function UnpackKeyed(ts: seq<KeyedDef>, what: string, p: PackedRecord): Result<Unpacked> {
    match ById(ts, p.typeId)
    case None => Err(UnknownTypeId(what, p.typeId))
    case Some(t) =>
      match UnpackInto(t.body.fields, p.fields, [])
      case Err(e) => Err(e)
      case Ok(v) => Ok(Unpacked(t.name, p.key, v))
  }

  datatype PackedStreamEvent = PackedStreamEvent(
    streamTypeId: int, streamKey: string, sequence: int, eventId: string, eventTypeId: int, fields: Packed)

  datatype StreamEventInput = StreamEventInput(
    stream: string, streamId: string, sequence: int, eventId: string, event: string, payload: Value)

  function PackStreamEvent(streams: seq<StreamDef>, events: seq<EventDef>, input: StreamEventInput): Result<PackedStreamEvent> {
    match ByName(streams, input.stream)
    case None => Err(UnknownType("stream", input.stream))
    case Some(t) =>
      match ByName(events, input.event)
      case None => Err(UnknownType("event", input.event))
      case Some(e) =>
        match PackFields(e.body, input.payload)
        case Err(x) => Err(x)
        case Ok(fields) => Ok(PackedStreamEvent(t.id, input.streamId, input.sequence, input.eventId, e.id, fields))
  }

  function UnpackStreamEvent(streams: seq<StreamDef>, events: seq<EventDef>, p: PackedStreamEvent): Result<StreamEventInput> {
    match ById(streams, p.streamTypeId)
    case None => Err(UnknownTypeId("stream", p.streamTypeId))
    case Some(t) =>
      match ById(events, p.eventTypeId)
      case None => Err(UnknownTypeId("event", p.eventTypeId))
      case Some(e) =>
        match UnpackInto(e.body, p.fields, [])
        case Err(x) => Err(x)
        case Ok(v) => Ok(StreamEventInput(t.name, p.streamKey, p.sequence, p.eventId, e.name, v))
  }

  /** What a packed object is: the id of the object of that name, the record id, and the packed fields. */
  lemma PackedObjectIs(lower: string -> string, objects: seq<ObjectDef>, name: string, id: string, value: Value, p: PackedRecord)
    requires UniqueNames(lower, objects)
    ensures PackObject(objects, name, id, value) == Ok(p) <==>
            && p.key == id
            && exists o | o in objects :: o.name == name && o.id == p.typeId && PackFields(o.body.fields, value) == Ok(p.fields)
  {
    if o :| o in objects && o.name == name {
      LookupByName(lower, objects, o);
    }
  }

  lemma PackedKeyedIs(lower: string -> string, ts: seq<KeyedDef>, what: string, name: string, key: string, value: Value, p: PackedRecord)
    requires UniqueNames(lower, ts)
    ensures PackKeyed(ts, what, name, key, value) == Ok(p) <==>
            && p.key == key
            && exists t | t in ts :: t.name == name && t.id == p.typeId && PackFields(t.body.fields, value) == Ok(p.fields)
  {
    if t :| t in ts && t.name == name {
      LookupByName(lower, ts, t);
    }
  }

  lemma PackedEventIs(lower: string -> string, streams: seq<StreamDef>, events: seq<EventDef>, input: StreamEventInput, p: PackedStreamEvent)
    requires UniqueNames(lower, streams) && UniqueNames(lower, events)
    ensures PackStreamEvent(streams, events, input) == Ok(p) <==>
            && p.streamKey == input.streamId && p.sequence == input.sequence && p.eventId == input.eventId
            && (exists t | t in streams :: t.name == input.stream && t.id == p.streamTypeId)
            && exists e | e in events :: e.name == input.event && e.id == p.eventTypeId && PackFields(e.body, input.payload) == Ok(p.fields)
  {
    if t :| t in streams && t.name == input.stream {
      LookupByName(lower, streams, t);
    }
    if e :| e in events && e.name == input.event {
      LookupByName(lower, events, e);
    }
  }

  /** An object comes back under its name and id: `id` first, then its fields as assigned. */
  lemma ObjectRoundTrip(lower: string -> string, objects: seq<ObjectDef>, name: string, id: string, value: Value)
    requires Unique(lower, objects) && (forall o | o in objects :: Unique(lower, o.body.fields)) && PackObject(objects, name, id, value).Ok?
    ensures Packable(value)
    ensures UnpackObject(objects, PackObject(objects, name, id, value).value) == Ok(Unpacked(name, id, Materialise(IdBase(id), value)))
  {
    var o := ByName(objects, name).value;
    LookupsInverse(lower, objects, o);
    FieldsRoundTrip(lower, o.body.fields, value, IdBase(id));
  }

  lemma KeyedRoundTrip(lower: string -> string, ts: seq<KeyedDef>, what: string, name: string, key: string, value: Value)
    requires Unique(lower, ts) && (forall t | t in ts :: Unique(lower, t.body.fields)) && PackKeyed(ts, what, name, key, value).Ok?
    ensures Packable(value)
    ensures UnpackKeyed(ts, what, PackKeyed(ts, what, name, key, value).value) == Ok(Unpacked(name, key, Materialise([], value)))
  {
    var t := ByName(ts, name).value;
    LookupsInverse(lower, ts, t);
    FieldsRoundTrip(lower, t.body.fields, value, []);
  }

  lemma StreamEventRoundTrip(lower: string -> string, streams: seq<StreamDef>, events: seq<EventDef>, input: StreamEventInput)
    requires Unique(lower, streams) && Unique(lower, events) && (forall e | e in events :: Unique(lower, e.body)) && PackStreamEvent(streams, events, input).Ok?
    ensures Packable(input.payload)
    ensures UnpackStreamEvent(streams, events, PackStreamEvent(streams, events, input).value) == Ok(input.(payload := Materialise([], input.payload)))
  {
    var t, e := ByName(streams, input.stream).value, ByName(events, input.event).value;
    LookupsInverse(lower, streams, t);
    LookupsInverse(lower, events, e);
    FieldsRoundTrip(lower, e.body, input.payload, []);
  }

  ghost predicate TextKeys(entries: seq<Entry>) {
    && (forall i | 0 <= i < |entries| :: AsStr(entries[i].key).Some?)
    && (forall i, j | 0 <= i < j < |entries| :: entries[i].key != entries[j].key)
  }

  lemma TextKeysNameable(entries: seq<Entry>)
    requires TextKeys(entries)
    ensures Nameable(entries) && DistinctKeys(NamesOf(entries))
  {
    var named := NamesOf(entries);
    forall i, j | 0 <= i < j < |named| ensures named[i].0 != named[j].0 { assert entries[i].key != entries[j].key; }
  }

  lemma TextNamesBack(entries: seq<Entry>)
    requires TextKeys(entries) && Nameable(entries)
    ensures ToEntries(NamesOf(entries)) == entries
  {
    var back := ToEntries(NamesOf(entries));
    forall i | 0 <= i < |entries| ensures back[i] == entries[i] {}
  }

  lemma TextKeysStay(entries: seq<Entry>)
    requires TextKeys(entries)
    ensures Nameable(entries) && ToEntries(PutAll([], NamesOf(entries))) == entries
  {
    TextKeysNameable(entries);
    TextNamesBack(entries);
    FreshAlone(NamesOf(entries));
  }

  /** A map with distinct text keys survives packing and unpacking unchanged. */
  lemma PlainMapsSurvive(lower: string -> string, fields: seq<Field>, value: Value)
    requires Unique(lower, fields) && PackFields(fields, value).Ok? && value.Map?
    requires TextKeys(value.entries)
    ensures UnpackInto(fields, PackFields(fields, value).value, []) == Ok(value)
  {
    FieldsRoundTrip(lower, fields, value, []);
    TextKeysStay(value.entries);
  }

  lemma StreamEventReverse(lower: string -> string, streams: seq<StreamDef>, events: seq<EventDef>, p: PackedStreamEvent)
    requires Unique(lower, streams) && Unique(lower, events) && (forall e | e in events :: Unique(lower, e.body)) && UnpackStreamEvent(streams, events, p).Ok?
    ensures PackStreamEvent(streams, events, UnpackStreamEvent(streams, events, p).value) == Ok(p.(fields := PutAll([], p.fields)))
    ensures DistinctKeys(p.fields) ==> PackStreamEvent(streams, events, UnpackStreamEvent(streams, events, p).value) == Ok(p)
  {
    var t, e := ById(streams, p.streamTypeId).value, ById(events, p.eventTypeId).value;
    LookupsInverse(lower, streams, t);
    LookupsInverse(lower, events, e);
    ReverseRoundTrip(lower, e.body, p.fields);
  }

  lemma KeyedReverse(lower: string -> string, ts: seq<KeyedDef>, what: string, p: PackedRecord)
    requires Unique(lower, ts) && (forall t | t in ts :: Unique(lower, t.body.fields)) && UnpackKeyed(ts, what, p).Ok?
    ensures var u := UnpackKeyed(ts, what, p).value;
            && PackKeyed(ts, what, u.typeName, u.key, u.value) == Ok(p.(fields := PutAll([], p.fields)))
            && (DistinctKeys(p.fields) ==> PackKeyed(ts, what, u.typeName, u.key, u.value) == Ok(p))
  {
    var t := ById(ts, p.typeId).value;
    LookupsInverse(lower, ts, t);
    ReverseRoundTrip(lower, t.body.fields, p.fields);
  }
}
