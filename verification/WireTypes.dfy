/**
 * Typed payloads as value trees: structs become maps keyed by field name with absent optionals
 * left out, and decoding looks fields up by name.
 */
module WireTypes {
  import opened Text
  import opened Sorting
  import opened Values
  import opened Assignments

  // ---- types and data ----

  type Names = names: seq<string> | Distinct(names)

  datatype Ty =
    | TInt
    | TStr
    | TBool
    /** An untyped value. */
    | TDyn
    /** One of a fixed set of strings. */
    | TEnum(options: seq<string>)
    | TList(elem: Ty)
    | TTuple(parts: seq<Ty>)
    /** Slot `i` is stored under name `i`. */
    | TStruct(names: Names, slots: seq<Slot>)
    /** An insertion-ordered map from strings to integers. */
    | TCounts

  datatype Slot = Slot(optional: bool, ty: Ty)

  datatype Data =
    | DInt(i: int)
    | DStr(s: string)
    | DBool(b: bool)
    | DDyn(v: Value)
    | DList(items: seq<Data>)
    | DTuple(parts: seq<Data>)
    | DStruct(fields: seq<Option<Data>>)
    | DCounts(counts: seq<(string, int)>)

  predicate IsI64(i: int) { -0x8000_0000_0000_0000 <= i < 0x8000_0000_0000_0000 }

  ghost predicate HasType(t: Ty, d: Data)
    decreases t
  {
    match t
    case TInt => d.DInt? && IsI64(d.i)
    case TStr => d.DStr?
    case TBool => d.DBool?
    case TDyn => d.DDyn?
    case TEnum(options) => d.DStr? && d.s in options
    case TList(e) => d.DList? && forall i | 0 <= i < |d.items| :: HasType(e, d.items[i])
    case TTuple(ts) => d.DTuple? && |d.parts| == |ts| && forall i | 0 <= i < |ts| :: HasType(ts[i], d.parts[i])
    case TStruct(names, slots) =>
      d.DStruct? && |names| == |slots| == |d.fields| && forall i | 0 <= i < |slots| :: FieldHasType(slots[i], d.fields[i])
    case TCounts => d.DCounts? && DistinctKeys(d.counts) && forall i | 0 <= i < |d.counts| :: IsI64(d.counts[i].1)
  }

  /** Only an optional field may be absent. */
  ghost predicate FieldHasType(s: Slot, d: Option<Data>)
    decreases s
  {
    match d
    case None => s.optional
    case Some(x) => HasType(s.ty, x)
  }

  ghost predicate HaveTypes(slots: seq<Slot>, ds: seq<Option<Data>>) {
    |ds| == |slots| && forall i | 0 <= i < |slots| :: FieldHasType(slots[i], ds[i])
  }

  // ---- encoding ----

  function Encode(t: Ty, d: Data): Value
    requires HasType(t, d)
    decreases t
  {
    match t
    case TInt => Integer(d.i)
    case TStr => Txt(d.s)
    case TBool => Boolean(d.b)
    case TDyn => d.v
    case TEnum(_) => Txt(d.s)
    case TList(e) => Array(seq(|d.items|, i requires 0 <= i < |d.items| => Encode(e, d.items[i])))
    case TTuple(ts) => Array(seq(|ts|, i requires 0 <= i < |ts| => Encode(ts[i], d.parts[i])))
    case TStruct(names, slots) => Map(EncodeFields(names, slots, d.fields))
    case TCounts => Map(seq(|d.counts|, i requires 0 <= i < |d.counts| => Entry(Txt(d.counts[i].0), Integer(d.counts[i].1))))
  }

  /** Fields in declaration order, absent ones left out. */
  function EncodeFields(names: seq<string>, slots: seq<Slot>, ds: seq<Option<Data>>): seq<Entry>
    requires |names| == |slots| && HaveTypes(slots, ds)
    decreases slots
  {
    if slots == [] then []
    else EncodeField(names[0], slots[0], ds[0]) + EncodeFields(names[1..], slots[1..], ds[1..])
  }

  function EncodeField(name: string, s: Slot, d: Option<Data>): seq<Entry>
    requires FieldHasType(s, d)
    decreases s
  {
    if d.None? then [] else [Entry(Txt(name), Encode(s.ty, d.value))]
  }

  // ---- decoding ----

  /** The values stored under a name. */
  function Hits(es: seq<Entry>, name: string): seq<Value> {
    if es == [] then [] else Hit(es[0], name) + Hits(es[1..], name)
  }

  function Hit(e: Entry, name: string): seq<Value> { if e.key == Txt(name) then [e.val] else [] }

  predicate TextKeys(es: seq<Entry>) { forall i | 0 <= i < |es| :: AsStr(es[i].key).Some? }

  datatype FieldResult = Bad | Absent | Present(d: Data)

  /** None under the name: absent, if that is allowed. Two: refused. An explicit nil reads as absent. */
  function DecodeField(s: Slot, hits: seq<Value>): FieldResult
    decreases s
  {
    if hits == [] then (if s.optional then Absent else Bad)
    else if |hits| > 1 then Bad
    else if s.optional && hits[0].Nil? then Absent
    else
      match Decode(s.ty, hits[0])
      case None => Bad
      case Some(d) => Present(d)
  }

  function Decode(t: Ty, v: Value): Option<Data>
    decreases t
  {
    match t
    case TInt => if v.Integer? && IsI64(v.number) then Some(DInt(v.number)) else None
    case TStr => (match AsStr(v) case Some(s) => Some(DStr(s)) case None => None)
    case TBool => if v.Boolean? then Some(DBool(v.flag)) else None
    case TDyn => Some(DDyn(v))
    case TEnum(options) => (match AsStr(v) case Some(s) => if s in options then Some(DStr(s)) else None case None => None)
    case TList(e) =>
      if v.Array? && forall i | 0 <= i < |v.items| :: Decode(e, v.items[i]).Some?
      then Some(DList(seq(|v.items|, i requires 0 <= i < |v.items| && Decode(e, v.items[i]).Some? => Decode(e, v.items[i]).value)))
      else None
    case TTuple(ts) =>
      if v.Array? && |v.items| == |ts| && forall i | 0 <= i < |ts| :: Decode(ts[i], v.items[i]).Some?
      then Some(DTuple(seq(|ts|, i requires 0 <= i < |ts| && Decode(ts[i], v.items[i]).Some? => Decode(ts[i], v.items[i]).value)))
      else None
    case TStruct(names, slots) =>
      if |names| == |slots| && v.Map? && TextKeys(v.entries)
         && forall i | 0 <= i < |slots| :: !DecodeField(slots[i], Hits(v.entries, names[i])).Bad?
      then Some(DStruct(seq(|slots|, i requires 0 <= i < |slots| => Optional(DecodeField(slots[i], Hits(v.entries, names[i]))))))
      else None
    case TCounts =>
      if v.Map? && TextKeys(v.entries) && forall i | 0 <= i < |v.entries| :: v.entries[i].val.Integer? && IsI64(v.entries[i].val.number)
      then Some(DCounts(PutAll([], CountPairs(v.entries))))
      else None
  }

  function CountPairs(es: seq<Entry>): seq<(string, int)>
    requires TextKeys(es) && forall i | 0 <= i < |es| :: es[i].val.Integer?
  {
    seq(|es|, i requires 0 <= i < |es| => (AsStr(es[i].key).value, es[i].val.number))
  }

  function Optional(r: FieldResult): Option<Data> { if r.Present? then Some(r.d) else None }

  // ---- decoding undoes encoding ----

  lemma HitsConcat(a: seq<Entry>, b: seq<Entry>, name: string)
    ensures Hits(a + b, name) == Hits(a, name) + Hits(b, name)
  {
    if a == [] {
      assert a + b == b;
    } else {
      assert (a + b)[1..] == a[1..] + b;
      HitsConcat(a[1..], b, name);
    }
  }

  lemma OwnHits(key: string, s: Slot, d: Option<Data>, name: string)
    requires FieldHasType(s, d)
    ensures Hits(EncodeField(key, s, d), name) == if d.Some? && key == name then [Encode(s.ty, d.value)] else []
  {
  }

  /** A name that is not declared is not encoded. */
  lemma {:induction false} NoHits(names: seq<string>, slots: seq<Slot>, ds: seq<Option<Data>>, name: string)
    requires |names| == |slots| && HaveTypes(slots, ds)
    requires name !in names
    ensures Hits(EncodeFields(names, slots, ds), name) == []
    decreases |slots|
  {
    if slots != [] {
      NoHits(names[1..], slots[1..], ds[1..], name);
      OwnHits(names[0], slots[0], ds[0], name);
      HitsConcat(EncodeField(names[0], slots[0], ds[0]), EncodeFields(names[1..], slots[1..], ds[1..]), name);
    }
  }

  lemma {:induction false} FieldHits(names: seq<string>, slots: seq<Slot>, ds: seq<Option<Data>>, k: nat)
    requires |names| == |slots| && HaveTypes(slots, ds) && k < |slots| && Distinct(names)
    ensures Hits(EncodeFields(names, slots, ds), names[k]) == if ds[k].None? then [] else [Encode(slots[k].ty, ds[k].value)]
    decreases |slots|
  {
    OwnHits(names[0], slots[0], ds[0], names[k]);
    HitsConcat(EncodeField(names[0], slots[0], ds[0]), EncodeFields(names[1..], slots[1..], ds[1..]), names[k]);
    if k == 0 {
      assert names[0] !in names[1..];
      NoHits(names[1..], slots[1..], ds[1..], names[0]);
    } else {
      assert names[0] != names[k] && names[1..][k - 1] == names[k];
      FieldHits(names[1..], slots[1..], ds[1..], k - 1);
    }
  }

  lemma {:induction false} EncodedKeysAreText(names: seq<string>, slots: seq<Slot>, ds: seq<Option<Data>>)
    requires |names| == |slots| && HaveTypes(slots, ds)
    ensures TextKeys(EncodeFields(names, slots, ds))
    decreases |slots|
  {
    if slots != [] {
      EncodedKeysAreText(names[1..], slots[1..], ds[1..]);
    }
  }

  /** An optional field holding an explicit nil is indistinguishable from an absent one. */
  predicate IsNil(s: Slot, d: Option<Data>) { s.optional && d == Some(DDyn(Nil)) }

  /** No optional field holds an explicit nil, at any depth. */
  ghost predicate NoOptionalNil(t: Ty, d: Data)
    requires HasType(t, d)
    decreases t
  {
    match t
    case TList(e) => forall i | 0 <= i < |d.items| :: NoOptionalNil(e, d.items[i])
    case TTuple(ts) => forall i | 0 <= i < |ts| :: NoOptionalNil(ts[i], d.parts[i])
    case TStruct(_, slots) => forall i | 0 <= i < |slots| :: FieldNoOptionalNil(slots[i], d.fields[i])
    case _ => true
  }

  ghost predicate FieldNoOptionalNil(s: Slot, d: Option<Data>)
    requires FieldHasType(s, d)
    decreases s
  {
    !IsNil(s, d) && (d.Some? ==> NoOptionalNil(s.ty, d.value))
  }

  /** `d` with every explicit nil in an optional field made absent. */
  function Settled(t: Ty, d: Data): Data
    requires HasType(t, d)
    decreases t
  {
    match t
    case TList(e) => DList(seq(|d.items|, i requires 0 <= i < |d.items| => Settled(e, d.items[i])))
    case TTuple(ts) => DTuple(seq(|ts|, i requires 0 <= i < |ts| => Settled(ts[i], d.parts[i])))
    case TStruct(_, slots) => DStruct(seq(|slots|, i requires 0 <= i < |slots| => SettledField(slots[i], d.fields[i])))
    case _ => d
  }

  function SettledField(s: Slot, d: Option<Data>): Option<Data>
    requires FieldHasType(s, d)
    decreases s
  {
    if d.None? || IsNil(s, d) then None else Some(Settled(s.ty, d.value))
  }

  lemma {:induction false} DecodeEncode(t: Ty, d: Data)
    requires HasType(t, d)
    ensures Decode(t, Encode(t, d)) == Some(Settled(t, d))
    decreases t
  {
    match t
    case TList(e) =>
      forall i | 0 <= i < |d.items| ensures Decode(e, Encode(e, d.items[i])) == Some(Settled(e, d.items[i])) { DecodeEncode(e, d.items[i]); }
      assert Decode(t, Encode(t, d)).value.items == Settled(t, d).items;
    case TTuple(ts) =>
      forall i | 0 <= i < |ts| ensures Decode(ts[i], Encode(ts[i], d.parts[i])) == Some(Settled(ts[i], d.parts[i])) { DecodeEncode(ts[i], d.parts[i]); }
      assert Decode(t, Encode(t, d)).value.parts == Settled(t, d).parts;
    case TStruct(names, slots) =>
      var es := EncodeFields(names, slots, d.fields);
      EncodedKeysAreText(names, slots, d.fields);
      forall k | 0 <= k < |slots| ensures Reads(names[k], slots[k], es, SettledField(slots[k], d.fields[k])) {
        FieldHits(names, slots, d.fields, k);
        if d.fields[k].Some? {
          DecodeEncodeField(slots[k], d.fields[k].value);
        }
      }
      StructReads(names, slots, es, Settled(t, d).fields);
    case TCounts => CountsRoundTrip(d);
    case _ =>
  }

  lemma {:induction false} DecodeEncodeField(s: Slot, d: Data)
    requires FieldHasType(s, Some(d))
    ensures Optional(DecodeField(s, [Encode(s.ty, d)])) == SettledField(s, Some(d))
    ensures !DecodeField(s, [Encode(s.ty, d)]).Bad?
    decreases s
  {
    DecodeEncode(s.ty, d);
    NilIsDynamic(s.ty, d);
  }

  lemma NilIsDynamic(t: Ty, d: Data)
    requires HasType(t, d)
    ensures Encode(t, d) == Nil <==> d == DDyn(Nil)
  {
  }

  lemma {:induction false} SettledFixed(t: Ty, d: Data)
    requires HasType(t, d)
    ensures Settled(t, d) == d <==> NoOptionalNil(t, d)
    decreases t
  {
    match t
    case TList(e) =>
      forall i | 0 <= i < |d.items| ensures Settled(e, d.items[i]) == d.items[i] <==> NoOptionalNil(e, d.items[i]) { SettledFixed(e, d.items[i]); }
      assert Settled(t, d) == d <==> forall i | 0 <= i < |d.items| :: Settled(t, d).items[i] == d.items[i];
    case TTuple(ts) =>
      forall i | 0 <= i < |ts| ensures Settled(ts[i], d.parts[i]) == d.parts[i] <==> NoOptionalNil(ts[i], d.parts[i]) { SettledFixed(ts[i], d.parts[i]); }
      assert Settled(t, d) == d <==> forall i | 0 <= i < |ts| :: Settled(t, d).parts[i] == d.parts[i];
    case TStruct(_, slots) =>
      forall i | 0 <= i < |slots| ensures SettledField(slots[i], d.fields[i]) == d.fields[i] <==> FieldNoOptionalNil(slots[i], d.fields[i]) {
        SettledFieldFixed(slots[i], d.fields[i]);
      }
      assert Settled(t, d) == d <==> forall i | 0 <= i < |slots| :: Settled(t, d).fields[i] == d.fields[i];
    case _ =>
  }

  lemma {:induction false} SettledFieldFixed(s: Slot, d: Option<Data>)
    requires FieldHasType(s, d)
    ensures SettledField(s, d) == d <==> FieldNoOptionalNil(s, d)
    decreases s
  {
    if d.Some? {
      SettledFixed(s.ty, d.value);
    }
  }

  /** Decoding undoes encoding exactly when no optional field holds an explicit nil. */
  lemma RoundTrip(t: Ty, d: Data)
    requires HasType(t, d)
    ensures Decode(t, Encode(t, d)) == Some(d) <==> NoOptionalNil(t, d)
  {
    DecodeEncode(t, d);
    SettledFixed(t, d);
  }

  predicate Reads(name: string, s: Slot, es: seq<Entry>, d: Option<Data>) {
    DecodeField(s, Hits(es, name)) == if d.None? then Absent else Present(d.value)
  }

  lemma StructReads(names: Names, slots: seq<Slot>, es: seq<Entry>, ds: seq<Option<Data>>)
    requires |names| == |slots| == |ds| && TextKeys(es)
    requires forall k | 0 <= k < |slots| :: Reads(names[k], slots[k], es, ds[k])
    ensures Decode(TStruct(names, slots), Map(es)) == Some(DStruct(ds))
  {
    assert Decode(TStruct(names, slots), Map(es)).value.fields == ds;
  }

  lemma CountsRoundTrip(d: Data)
    requires HasType(TCounts, d)
    ensures Decode(TCounts, Encode(TCounts, d)) == Some(d)
  {
    CountsRead(Encode(TCounts, d).entries, d.counts);
    PutAllFresh([], d.counts);
    assert [] + d.counts == d.counts;
  }

  lemma CountsRead(es: seq<Entry>, counts: seq<(string, int)>)
    requires |es| == |counts|
    requires forall i | 0 <= i < |es| :: es[i] == Entry(Txt(counts[i].0), Integer(counts[i].1)) && IsI64(counts[i].1)
    ensures Decode(TCounts, Map(es)) == Some(DCounts(PutAll([], counts)))
  {
    assert CountPairs(es) == counts;
  }

  // ---- decoding gives well-typed data ----

  ghost predicate Sound(t: Ty, d: Data) { HasType(t, d) && NoOptionalNil(t, d) }

  ghost predicate FieldSound(s: Slot, d: Option<Data>) { FieldHasType(s, d) && FieldNoOptionalNil(s, d) }

  lemma {:induction false} DecodeSound(t: Ty, v: Value)
    requires Decode(t, v).Some?
    ensures Sound(t, Decode(t, v).value)
    decreases t
  {
    match t
    case TList(e) =>
      forall i | 0 <= i < |v.items| ensures Sound(e, Decode(e, v.items[i]).value) { DecodeSound(e, v.items[i]); }
    case TTuple(ts) =>
      forall i | 0 <= i < |ts| ensures Sound(ts[i], Decode(ts[i], v.items[i]).value) { DecodeSound(ts[i], v.items[i]); }
    case TStruct(names, slots) =>
      forall k | 0 <= k < |slots| ensures FieldSound(slots[k], Optional(DecodeField(slots[k], Hits(v.entries, names[k])))) {
        FieldResultSound(slots[k], Hits(v.entries, names[k]));
      }
    case TCounts => CountsHaveType(CountPairs(v.entries));
    case _ =>
  }

  lemma {:induction false} FieldResultSound(s: Slot, hits: seq<Value>)
    requires !DecodeField(s, hits).Bad?
    ensures FieldSound(s, Optional(DecodeField(s, hits)))
    decreases s
  {
    if DecodeField(s, hits).Present? {
      DecodeSound(s.ty, hits[0]);
      if Decode(s.ty, hits[0]).value == DDyn(Nil) {
        assert s.ty.TDyn?;
      }
    }
  }

  lemma CountsHaveType(pairs: seq<(string, int)>)
    requires forall i | 0 <= i < |pairs| :: IsI64(pairs[i].1)
    ensures HasType(TCounts, DCounts(PutAll([], pairs)))
  {
    PutAllDistinct(pairs);
    forall i | 0 <= i < |PutAll([], pairs)| ensures IsI64(PutAll([], pairs)[i].1) {
      var j := PutAllFrom(pairs, i);
    }
  }

  /** Whatever was read can be written, and reads the same again. */
  lemma ReadWriteRead(t: Ty, v: Value)
    requires Decode(t, v).Some?
    ensures Sound(t, Decode(t, v).value)
    ensures Decode(t, Encode(t, Decode(t, v).value)) == Decode(t, v)
  {
    DecodeSound(t, v);
    RoundTrip(t, Decode(t, v).value);
  }

  // ---- what decoding ignores ----

  /**
   * `w` is `v` with the entries of struct maps in any order, any values under names the struct
   * does not know, and any number of entries with further unknown names, at every depth.
   */
  ghost predicate Variant(t: Ty, v: Value, w: Value)
    decreases t
  {
    match t
    case TList(e) => v == w || (v.Array? && w.Array? && |v.items| == |w.items| && forall i | 0 <= i < |v.items| :: Variant(e, v.items[i], w.items[i]))
    case TTuple(ts) =>
      v == w || (v.Array? && w.Array? && |v.items| == |w.items| == |ts| && forall i | 0 <= i < |ts| :: Variant(ts[i], v.items[i], w.items[i]))
    case TStruct(names, slots) =>
      v == w || (v.Map? && w.Map? && |names| == |slots| && exists mid, extra :: Shuffled(names, slots, v.entries, w.entries, mid, extra))
    case _ => v == w
  }

  ghost predicate FieldVariant(s: Slot, v: Value, w: Value)
    decreases s
  {
    Variant(s.ty, v, w)
  }

  ghost predicate Shuffled(names: Names, slots: seq<Slot>, es: seq<Entry>, ws: seq<Entry>, mid: seq<Entry>, extra: seq<Entry>)
    requires |names| == |slots|
    decreases slots
  {
    && |mid| == |es|
    && (forall i | 0 <= i < |es| :: mid[i].key == es[i].key)
    && (forall i, k | 0 <= i < |es| && 0 <= k < |slots| && es[i].key == Txt(names[k]) :: FieldVariant(slots[k], es[i].val, mid[i].val))
    && (forall i | 0 <= i < |extra| :: AsStr(extra[i].key).Some? && AsStr(extra[i].key).value !in names)
    && multiset(ws) == multiset(mid + extra)
  }

  lemma HitsWithout(es: seq<Entry>, j: nat, name: string)
    requires j < |es|
    ensures multiset(Hits(es, name)) == multiset(Hit(es[j], name)) + multiset(Hits(Without(es, j), name))
  {
    HitsConcat(es[..j], es[j..], name);
    HitsConcat(es[..j], es[j + 1..], name);
    assert es == es[..j] + es[j..] && es[j..][1..] == es[j + 1..];
  }

  /** Reordering a map permutes what is found under a name. */
  lemma {:induction false} HitsPermute(a: seq<Entry>, b: seq<Entry>, name: string)
    requires multiset(a) == multiset(b)
    ensures multiset(Hits(a, name)) == multiset(Hits(b, name))
    decreases |a|
  {
    if a == [] {
      assert |b| == |multiset(b)| == 0;
    } else {
      assert a[0] in multiset(b);
      var j :| 0 <= j < |b| && b[j] == a[0];
      WithoutMultiset(a, 0);
      WithoutMultiset(b, j);
      HitsPermute(Without(a, 0), Without(b, j), name);
      HitsWithout(a, 0, name);
      HitsWithout(b, j, name);
    }
  }

  lemma {:induction false} UnknownHasNoHits(es: seq<Entry>, name: string)
    requires forall i | 0 <= i < |es| :: es[i].key != Txt(name)
    ensures Hits(es, name) == []
  {
    if es != [] {
      UnknownHasNoHits(es[1..], name);
    }
  }

  /** Entry-wise variants give hit-wise variants. */
  lemma {:induction false} HitsVariant(name: string, s: Slot, es: seq<Entry>, mid: seq<Entry>)
    requires |mid| == |es| && forall i | 0 <= i < |es| :: mid[i].key == es[i].key
    requires forall i | 0 <= i < |es| && es[i].key == Txt(name) :: FieldVariant(s, es[i].val, mid[i].val)
    ensures |Hits(mid, name)| == |Hits(es, name)|
    ensures forall i | 0 <= i < |Hits(es, name)| :: FieldVariant(s, Hits(es, name)[i], Hits(mid, name)[i])
    decreases |es|
  {
    if es != [] {
      HitsVariant(name, s, es[1..], mid[1..]);
    }
  }

  lemma SingletonPermutation<T>(a: seq<T>, b: seq<T>)
    requires multiset(a) == multiset(b)
    ensures |a| == |b|
    ensures |a| == 1 ==> a == b
  {
    assert |a| == |multiset(a)| == |multiset(b)| == |b|;
    if |a| == 1 {
      assert a[0] in multiset(b);
    }
  }

  lemma ShuffledTextKeys(names: Names, slots: seq<Slot>, es: seq<Entry>, ws: seq<Entry>, mid: seq<Entry>, extra: seq<Entry>)
    requires |names| == |slots| && Shuffled(names, slots, es, ws, mid, extra)
    ensures TextKeys(es) <==> TextKeys(ws)
  {
    var all := mid + extra;
    if TextKeys(es) {
      forall i | 0 <= i < |ws| ensures AsStr(ws[i].key).Some? {
        assert ws[i] in multiset(all);
      }
    }
    if TextKeys(ws) {
      forall i | 0 <= i < |es| ensures AsStr(es[i].key).Some? {
        assert all[i] in multiset(ws);
      }
    }
  }

  /** Under a known name, a shuffled map holds variants of what the original held. */
  lemma ShuffledHits(names: Names, slots: seq<Slot>, es: seq<Entry>, ws: seq<Entry>, mid: seq<Entry>, extra: seq<Entry>, k: nat)
    requires |names| == |slots| && Shuffled(names, slots, es, ws, mid, extra) && k < |slots|
    ensures var a, b := Hits(es, names[k]), Hits(ws, names[k]);
            |a| == |b| && (|a| == 1 ==> FieldVariant(slots[k], a[0], b[0]))
  {
    var name := names[k];
    HitsPermute(ws, mid + extra, name);
    HitsConcat(mid, extra, name);
    UnknownHasNoHits(extra, name);
    HitsVariant(name, slots[k], es, mid);
    assert Hits(mid, name) + [] == Hits(mid, name);
    SingletonPermutation(Hits(ws, name), Hits(mid, name));
  }

  /** A variant reads the same as the original, whether or not that reads at all. */
  lemma {:induction false} DecodeTolerant(t: Ty, v: Value, w: Value)
    requires Variant(t, v, w)
    ensures Decode(t, w) == Decode(t, v)
    decreases t
  {
    if v != w {
      match t
      case TList(e) =>
        forall i | 0 <= i < |v.items| ensures Decode(e, w.items[i]) == Decode(e, v.items[i]) { DecodeTolerant(e, v.items[i], w.items[i]); }
        SameItems(t, v, w);
      case TTuple(ts) =>
        forall i | 0 <= i < |ts| ensures Decode(ts[i], w.items[i]) == Decode(ts[i], v.items[i]) { DecodeTolerant(ts[i], v.items[i], w.items[i]); }
        SameItems(t, v, w);
      case TStruct(names, slots) =>
        var es, ws := v.entries, w.entries;
        var mid, extra :| Shuffled(names, slots, es, ws, mid, extra);
        ShuffledTextKeys(names, slots, es, ws, mid, extra);
        forall k | 0 <= k < |slots| ensures DecodeField(slots[k], Hits(ws, names[k])) == DecodeField(slots[k], Hits(es, names[k])) {
          ShuffledHits(names, slots, es, ws, mid, extra, k);
          FieldTolerant(slots[k], Hits(es, names[k]), Hits(ws, names[k]));
        }
        SameFields(names, slots, es, ws);
    }
  }

  lemma {:induction false} FieldTolerant(s: Slot, a: seq<Value>, b: seq<Value>)
    requires |a| == |b| && (|a| == 1 ==> FieldVariant(s, a[0], b[0]))
    ensures DecodeField(s, b) == DecodeField(s, a)
    decreases s
  {
    if |a| == 1 {
      DecodeTolerant(s.ty, a[0], b[0]);
    }
  }

  lemma SameItems(t: Ty, v: Value, w: Value)
    requires t.TList? || t.TTuple?
    requires v.Array? && w.Array? && |v.items| == |w.items|
    requires t.TTuple? ==> |t.parts| == |v.items|
    requires forall i | 0 <= i < |v.items| :: var e := if t.TList? then t.elem else t.parts[i]; Decode(e, w.items[i]) == Decode(e, v.items[i])
    ensures Decode(t, w) == Decode(t, v)
  {
    if t.TList? && Decode(t, v).Some? {
      assert Decode(t, w).value.items == Decode(t, v).value.items;
    }
    if t.TTuple? && Decode(t, v).Some? {
      assert Decode(t, w).value.parts == Decode(t, v).value.parts;
    }
  }

  lemma SameFields(names: Names, slots: seq<Slot>, es: seq<Entry>, ws: seq<Entry>)
    requires |names| == |slots| && (TextKeys(es) <==> TextKeys(ws))
    requires forall k | 0 <= k < |slots| :: DecodeField(slots[k], Hits(ws, names[k])) == DecodeField(slots[k], Hits(es, names[k]))
    ensures Decode(TStruct(names, slots), Map(ws)) == Decode(TStruct(names, slots), Map(es))
  {
    var t := TStruct(names, slots);
    if Decode(t, Map(es)).Some? {
      assert Decode(t, Map(ws)).value.fields == Decode(t, Map(es)).value.fields;
    }
  }

  // ---- the canonical form is one of the variants ----

  /** Nothing untyped inside: every map is a struct. */
  predicate Typed(t: Ty)
    decreases t
  {
    match t
    case TDyn => false
    case TCounts => false
    case TList(e) => Typed(e)
    case TTuple(ts) => forall i | 0 <= i < |ts| :: Typed(ts[i])
    case TStruct(_, slots) => forall i | 0 <= i < |slots| :: SlotTyped(slots[i])
    case _ => true
  }

  predicate SlotTyped(s: Slot)
    decreases s
  {
    Typed(s.ty)
  }

  /** Every encoded entry is some field's. */
  lemma {:induction false} EntryIsAField(names: seq<string>, slots: seq<Slot>, ds: seq<Option<Data>>, i: nat) returns (k: nat)
    requires |names| == |slots| && HaveTypes(slots, ds)
    requires i < |EncodeFields(names, slots, ds)|
    ensures k < |slots| && ds[k].Some? && EncodeFields(names, slots, ds)[i] == Entry(Txt(names[k]), Encode(slots[k].ty, ds[k].value))
    decreases |slots|
  {
    var n := |EncodeField(names[0], slots[0], ds[0])|;
    if i < n {
      k := 0;
    } else {
      var rest := EntryIsAField(names[1..], slots[1..], ds[1..], i - n);
      k := rest + 1;
    }
  }

  lemma {:induction false} CanonicalIsVariant(t: Ty, d: Data)
    requires Typed(t) && HasType(t, d)
    ensures Variant(t, Encode(t, d), StableValue(Encode(t, d)))
    decreases t
  {
    match t
    case TList(e) =>
      forall i | 0 <= i < |d.items| ensures Variant(e, Encode(e, d.items[i]), StableValue(Encode(e, d.items[i]))) { CanonicalIsVariant(e, d.items[i]); }
    case TTuple(ts) =>
      forall i | 0 <= i < |ts| ensures Variant(ts[i], Encode(ts[i], d.parts[i]), StableValue(Encode(ts[i], d.parts[i]))) { CanonicalIsVariant(ts[i], d.parts[i]); }
    case TStruct(names, slots) =>
      forall k | 0 <= k < |slots| ensures SortsToVariant(slots[k], d.fields[k]) {
        CanonicalFieldIsVariant(slots[k], d.fields[k]);
      }
      CanonicalStruct(names, slots, d.fields);
    case _ =>
  }

  ghost predicate SortsToVariant(s: Slot, d: Option<Data>)
    requires FieldHasType(s, d)
  {
    d.Some? ==> FieldVariant(s, Encode(s.ty, d.value), StableValue(Encode(s.ty, d.value)))
  }

  lemma {:induction false} CanonicalFieldIsVariant(s: Slot, d: Option<Data>)
    requires SlotTyped(s) && FieldHasType(s, d)
    ensures SortsToVariant(s, d)
    decreases s
  {
    if d.Some? {
      CanonicalIsVariant(s.ty, d.value);
    }
  }

  lemma CanonicalStruct(names: Names, slots: seq<Slot>, ds: seq<Option<Data>>)
    requires |names| == |slots| && HaveTypes(slots, ds)
    requires forall k | 0 <= k < |slots| :: SortsToVariant(slots[k], ds[k])
    ensures Variant(TStruct(names, slots), Map(EncodeFields(names, slots, ds)), StableValue(Map(EncodeFields(names, slots, ds))))
  {
    var es := EncodeFields(names, slots, ds);
    var mid := StableEntries(es);
    EntryLeqTotal();
    SortIsStable(EntryLeq, mid);
    forall i, k | 0 <= i < |es| && 0 <= k < |slots| && es[i].key == Txt(names[k]) ensures FieldVariant(slots[k], es[i].val, mid[i].val) {
      var j := EntryIsAField(names, slots, ds, i);
      assert mid[i] == StableEntry(es[i]);
      assert j == k;
    }
    assert mid + [] == mid;
    assert Shuffled(names, slots, es, Sort(EntryLeq, mid), mid, []);
  }
}
