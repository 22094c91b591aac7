/** Dynamic values, and the key-sorted canonical form they are sent in. */
module Values {
  import opened Text
  import opened Sorting

  /** A wire string: its text, or the raw bytes when they are not UTF-8. */
  datatype Str = Utf8(text: string) | Invalid(raw: seq<bv8>)

  datatype Value =
    | Nil
    | Boolean(flag: bool)
    | Integer(number: int)
    | F32(bits32: nat)
    | F64(bits64: nat)
    | String(str: Str)
    | Binary(bytes: seq<bv8>)
    | Array(items: seq<Value>)
    | Map(entries: seq<Entry>)
    | Ext(tag: int, data: seq<bv8>)

  datatype Entry = Entry(key: Value, val: Value)

  function Txt(s: string): Value { String(Utf8(s)) }

  function AsStr(v: Value): Option<string> {
    if v.String? && v.str.Utf8? then Some(v.str.text) else None
  }

  /** The text a key is compared by; a key that is no text compares as the empty string. */
  function SortKey(key: Value): string {
    match AsStr(key)
    case Some(s) => s
    case None => ""
  }

  predicate EntryLeq(a: Entry, b: Entry) { !Less16(SortKey(b.key), SortKey(a.key)) }

  /** Sort every map by key, recursively. */
  function StableValue(v: Value): Value
    decreases v
  {
    match v
    case Array(items) => Array(StableItems(items))
    case Map(entries) => Map(Sort(EntryLeq, StableEntries(entries)))
    case _ => v
  }

  function StableItems(items: seq<Value>): (r: seq<Value>)
    ensures |r| == |items| && forall i | 0 <= i < |items| :: r[i] == StableValue(items[i])
    decreases items
  {
    seq(|items|, i requires 0 <= i < |items| => StableValue(items[i]))
  }

  function StableEntries(entries: seq<Entry>): (r: seq<Entry>)
    ensures |r| == |entries| && forall i | 0 <= i < |entries| :: r[i] == StableEntry(entries[i])
    decreases entries
  {
    seq(|entries|, i requires 0 <= i < |entries| => StableEntry(entries[i]))
  }

  function StableEntry(e: Entry): Entry
    decreases e
  {
    Entry(e.key, StableValue(e.val))
  }

  lemma EntryLeqTotal()
    ensures TotalPreorder(EntryLeq)
  {
    forall x: Entry, y: Entry ensures EntryLeq(x, y) || EntryLeq(y, x) {
      Less16StrictTotalOrder(SortKey(x.key), SortKey(y.key), "");
    }
    forall x: Entry, y: Entry, z: Entry | EntryLeq(x, y) && EntryLeq(y, z) ensures EntryLeq(x, z) {
      var a, b, c := SortKey(x.key), SortKey(y.key), SortKey(z.key);
      Less16StrictTotalOrder(c, a, b);
      Less16StrictTotalOrder(b, c, a);
      Less16StrictTotalOrder(a, b, c);
    }
  }

  // ---- what the canonical form identifies ----

  /** `a` and `b` differ only in the order of map entries, at any depth. */
  ghost predicate Reordered(a: Value, b: Value)
    decreases a
  {
    match a
    case Array(xs) => b.Array? && |xs| == |b.items| && forall i | 0 <= i < |xs| :: Reordered(xs[i], b.items[i])
    case Map(xs) => b.Map? && ReorderedEntries(xs, b.entries)
    case _ => a == b
  }

  ghost predicate ReorderedEntries(xs: seq<Entry>, ys: seq<Entry>)
    decreases xs
  {
    if xs == [] then ys == []
    else exists j | 0 <= j < |ys| :: EntryAt(xs, ys, j)
  }

  /** The first entry of `xs` is entry `j` of `ys`, and the others match up too. */
  ghost predicate EntryAt(xs: seq<Entry>, ys: seq<Entry>, j: nat)
    requires xs != [] && j < |ys|
    decreases xs, 0
  {
    assert xs[0].val < xs[0];
    && xs[0].key == ys[j].key
    && Reordered(xs[0].val, ys[j].val)
    && ReorderedEntries(xs[1..], Without(ys, j))
  }

  function Without<T>(s: seq<T>, j: nat): (r: seq<T>)
    requires j < |s|
    ensures |r| == |s| - 1
    ensures forall k | 0 <= k < |r| :: r[k] == if k < j then s[k] else s[k + 1]
  {
    s[..j] + s[j + 1..]
  }

  lemma WithoutMultiset<T>(s: seq<T>, j: nat)
    requires j < |s|
    ensures multiset(Without(s, j)) == multiset(s) - multiset{s[j]}
  {
    assert s == s[..j] + [s[j]] + s[j + 1..];
  }

  lemma RestoreElement<T>(a: multiset<T>, b: multiset<T>, x: T)
    requires x in a && x in b && a - multiset{x} == b - multiset{x}
    ensures a == b
  {
    assert a == (a - multiset{x}) + multiset{x} && b == (b - multiset{x}) + multiset{x};
  }

  /** Entries whose keys compare equal have one canonical form. */
  ghost predicate TiesAgreeIn(es: seq<Entry>) {
    forall i, j | 0 <= i < j < |es| && SortKey(es[i].key) == SortKey(es[j].key) :: StableEntry(es[i]) == StableEntry(es[j])
  }

  /** The same in every map, at any depth. */
  ghost predicate TiesAgree(v: Value)
    decreases v
  {
    match v
    case Array(xs) => forall i | 0 <= i < |xs| :: TiesAgree(xs[i])
    case Map(es) => (forall i | 0 <= i < |es| :: TiesAgree(es[i].val)) && TiesAgreeIn(es)
    case _ => true
  }

  /** Leaving an element out commutes with applying a function to every element. */
  lemma WithoutImage<A, B>(xs: seq<A>, f: A -> B, ys: seq<B>, zs: seq<B>, j: nat)
    requires j < |xs| == |ys| && |zs| == |xs| - 1
    requires forall k | 0 <= k < |xs| :: ys[k] == f(xs[k])
    requires forall k | 0 <= k < |zs| :: zs[k] == f(Without(xs, j)[k])
    ensures zs == Without(ys, j)
  {
  }

  lemma StableEntriesWithout(ys: seq<Entry>, j: nat)
    requires j < |ys|
    ensures StableEntries(Without(ys, j)) == Without(StableEntries(ys), j)
    ensures multiset(StableEntries(Without(ys, j))) == multiset(StableEntries(ys)) - multiset{StableEntry(ys[j])}
  {
    WithoutImage(ys, StableEntry, StableEntries(ys), StableEntries(Without(ys, j)), j);
    WithoutMultiset(StableEntries(ys), j);
  }

  /** One canonical form only ever stands for reorderings of one value; no condition needed. */
  lemma {:induction false} EqualStableReordered(a: Value, b: Value)
    requires StableValue(a) == StableValue(b)
    ensures Reordered(a, b)
    decreases a
  {
    match a
    case Array(xs) =>
      var ys := b.items;
      assert StableItems(xs) == StableItems(ys);
      forall i | 0 <= i < |xs| ensures Reordered(xs[i], ys[i]) {
        assert StableItems(xs)[i] == StableItems(ys)[i];
        EqualStableReordered(xs[i], ys[i]);
      }
    case Map(xs) =>
      assert multiset(StableEntries(xs)) == multiset(Sort(EntryLeq, StableEntries(xs)));
      EqualStableEntries(xs, b.entries);
    case _ =>
  }

  lemma {:induction false} EqualStableEntries(xs: seq<Entry>, ys: seq<Entry>)
    requires multiset(StableEntries(xs)) == multiset(StableEntries(ys))
    ensures ReorderedEntries(xs, ys)
    decreases xs
  {
    var sx, sy := StableEntries(xs), StableEntries(ys);
    assert |xs| == |multiset(sx)| == |multiset(sy)| == |ys|;
    if xs != [] {
      assert sx[0] in multiset(sx);
      assert sx[0] in multiset(sy);
      var j :| 0 <= j < |sy| && sy[j] == sx[0];
      assert xs[0].val < xs[0];
      EqualStableReordered(xs[0].val, ys[j].val);
      StableEntriesWithout(ys, j);
      assert Without(xs, 0) == xs[1..];
      StableEntriesWithout(xs, 0);
      EqualStableEntries(xs[1..], Without(ys, j));
      assert EntryAt(xs, ys, j);
    }
  }

  lemma {:induction false} ReorderedEqualStable(a: Value, b: Value)
    requires TiesAgree(a) && Reordered(a, b)
    ensures StableValue(a) == StableValue(b)
    decreases a
  {
    match a
    case Array(xs) =>
      forall i | 0 <= i < |xs| ensures StableItems(xs)[i] == StableItems(b.items)[i] {
        ReorderedEqualStable(xs[i], b.items[i]);
      }
      assert StableItems(xs) == StableItems(b.items);
    case Map(xs) =>
      ReorderedEntriesPermute(xs, b.entries);
      EntryLeqTotal();
      StableEntriesAntisymmetric(xs);
      SortIgnoresOrder(EntryLeq, StableEntries(xs), StableEntries(b.entries));
    case _ =>
  }

  lemma {:induction false} ReorderedEntriesPermute(xs: seq<Entry>, ys: seq<Entry>)
    requires forall i | 0 <= i < |xs| :: TiesAgree(xs[i].val)
    requires ReorderedEntries(xs, ys)
    ensures multiset(StableEntries(xs)) == multiset(StableEntries(ys))
    decreases xs
  {
    if xs != [] {
      var j :| 0 <= j < |ys| && EntryAt(xs, ys, j);
      assert xs[0].val < xs[0];
      ReorderedEqualStable(xs[0].val, ys[j].val);
      forall i | 0 <= i < |xs[1..]| ensures TiesAgree(xs[1..][i].val) { assert xs[1..][i] == xs[i + 1]; }
      ReorderedEntriesPermute(xs[1..], Without(ys, j));
      StableEntriesWithout(ys, j);
      StableEntriesWithout(xs, 0);
      assert Without(xs, 0) == xs[1..];
      var sx, sy := StableEntries(xs), StableEntries(ys);
      assert sx[0] == sy[j] && sx[0] in multiset(sx) && sy[j] in multiset(sy);
      RestoreElement(multiset(sx), multiset(sy), sx[0]);
    }
  }

  lemma StableEntriesAntisymmetric(xs: seq<Entry>)
    requires TiesAgreeIn(xs)
    ensures Antisymmetric(EntryLeq, multiset(StableEntries(xs)))
  {
    var sx := StableEntries(xs);
    forall x, y | x in multiset(sx) && y in multiset(sx) && EntryLeq(x, y) && EntryLeq(y, x) ensures x == y {
      Less16StrictTotalOrder(SortKey(x.key), SortKey(y.key), "");
      var i :| 0 <= i < |sx| && sx[i] == x;
      var j :| 0 <= j < |sx| && sx[j] == y;
    }
  }

  /** When ties agree, one canonical form stands for exactly the reorderings of one value. */
  lemma CanonicalForm(a: Value, b: Value)
    requires TiesAgree(a)
    ensures StableValue(a) == StableValue(b) <==> Reordered(a, b)
  {
    if StableValue(a) == StableValue(b) {
      EqualStableReordered(a, b);
    } else if Reordered(a, b) {
      ReorderedEqualStable(a, b);
    }
  }

  lemma ReorderedReflexive(v: Value)
    ensures Reordered(v, v)
  {
    EqualStableReordered(v, v);
  }

  lemma StableEntriesSwapped(es: seq<Entry>, i: nat, j: nat)
    requires i < j < |es|
    ensures StableEntries(Swapped(es, i, j)) == Swapped(StableEntries(es), i, j)
  {
    SwappedImage(es, StableEntry, StableEntries(es), StableEntries(Swapped(es, i, j)), i, j);
  }

  lemma SwappedTieShows(ss: seq<Entry>, i: nat, j: nat)
    requires i < j < |ss| && SortKey(ss[i].key) == SortKey(ss[j].key) && ss[i] != ss[j]
    ensures Sort(EntryLeq, ss) != Sort(EntryLeq, Swapped(ss, i, j))
  {
    EntryLeqTotal();
    Less16StrictTotalOrder(SortKey(ss[i].key), "", "");
    SwapChangesSort(EntryLeq, ss, i, j);
  }

  lemma SwappedReordered(es: seq<Entry>, i: nat, j: nat)
    requires i < j < |es|
    ensures Reordered(Map(es), Map(Swapped(es, i, j)))
  {
    StableEntriesSwapped(es, i, j);
    SwappedMultiset(StableEntries(es), i, j);
    EqualStableEntries(es, Swapped(es, i, j));
  }

  /** Swapping two entries that tie and differ is a reordering with another canonical form. */
  lemma TiedEntriesKeepTheirOrder(es: seq<Entry>, i: nat, j: nat)
    requires i < j < |es| && SortKey(es[i].key) == SortKey(es[j].key) && StableEntry(es[i]) != StableEntry(es[j])
    ensures StableValue(Map(es)) != StableValue(Map(Swapped(es, i, j)))
  {
    StableEntriesSwapped(es, i, j);
    SwappedTieShows(StableEntries(es), i, j);
  }

  lemma {:induction false} ReplacedValueReordered(es: seq<Entry>, i: nat, v: Value)
    requires i < |es| && Reordered(es[i].val, v)
    ensures ReorderedEntries(es, es[i := Entry(es[i].key, v)])
    decreases |es|
  {
    var ys := es[i := Entry(es[i].key, v)];
    if i == 0 {
      assert Without(ys, 0) == es[1..];
      ReorderedReflexive(Map(es[1..]));
    } else {
      assert Without(ys, 0) == es[1..][i - 1 := Entry(es[i].key, v)];
      ReplacedValueReordered(es[1..], i - 1, v);
      ReorderedReflexive(es[0].val);
    }
    assert EntryAt(es, ys, 0);
  }

  lemma ReplacedValueShows(es: seq<Entry>, i: nat, v: Value)
    requires i < |es| && StableValue(v) != StableValue(es[i].val)
    ensures StableValue(Map(es)) != StableValue(Map(es[i := Entry(es[i].key, v)]))
  {
    ReplacedElementShows(StableEntries(es), i, StableEntry(Entry(es[i].key, v)));
    StableEntriesReplaced(es, i, Entry(es[i].key, v));
  }

  lemma StableEntriesReplaced(es: seq<Entry>, i: nat, e: Entry)
    requires i < |es|
    ensures StableEntries(es[i := e]) == StableEntries(es)[i := StableEntry(e)]
  {
  }

  lemma ReplacedElementShows(ss: seq<Entry>, i: nat, e: Entry)
    requires i < |ss| && ss[i] != e
    ensures Sort(EntryLeq, ss) != Sort(EntryLeq, ss[i := e])
  {
    var a, b := multiset(ss), multiset(ss[i := e]);
    WithoutMultiset(ss, i);
    WithoutMultiset(ss[i := e], i);
    assert Without(ss, i) == Without(ss[i := e], i);
    assert ss[i] in a && ss[i := e][i] in b;
    OneElementApart(a, b, ss[i], e);
  }

  lemma OneElementApart<T>(a: multiset<T>, b: multiset<T>, x: T, y: T)
    requires x in a && y in b && a - multiset{x} == b - multiset{y} && x != y
    ensures a != b
  {
    assert (a - multiset{x})[x] == a[x] - 1 && (b - multiset{y})[x] == b[x];
  }

  lemma ReplacedItem(xs: seq<Value>, i: nat, x: Value)
    requires i < |xs| && Reordered(xs[i], x)
    ensures Reordered(Array(xs), Array(xs[i := x]))
  {
    forall k | 0 <= k < |xs| ensures Reordered(xs[k], xs[i := x][k]) { ReorderedReflexive(xs[k]); }
  }

  lemma ReplacedItemShows(xs: seq<Value>, i: nat, x: Value)
    requires i < |xs| && StableValue(xs[i]) != StableValue(x)
    ensures StableValue(Array(xs)) != StableValue(Array(xs[i := x]))
  {
    assert StableItems(xs)[i] != StableItems(xs[i := x])[i];
  }

  /** Where ties disagree, some reordering has another canonical form. */
  lemma {:induction false} DisagreementShows(a: Value) returns (b: Value)
    requires !TiesAgree(a)
    ensures Reordered(a, b) && StableValue(a) != StableValue(b)
    decreases a
  {
    match a
    case Array(xs) =>
      var i :| 0 <= i < |xs| && !TiesAgree(xs[i]);
      var x := DisagreementShows(xs[i]);
      b := Array(xs[i := x]);
      ReplacedItem(xs, i, x);
      ReplacedItemShows(xs, i, x);
    case Map(es) =>
      if i :| 0 <= i < |es| && !TiesAgree(es[i].val) {
        assert es[i].val < es[i];
        var v := DisagreementShows(es[i].val);
        b := Map(es[i := Entry(es[i].key, v)]);
        ReplacedValueReordered(es, i, v);
        ReplacedValueShows(es, i, v);
      } else {
        var i, j :| 0 <= i < j < |es| && SortKey(es[i].key) == SortKey(es[j].key) && StableEntry(es[i]) != StableEntry(es[j]);
        b := Map(Swapped(es, i, j));
        SwappedReordered(es, i, j);
        TiedEntriesKeepTheirOrder(es, i, j);
      }
  }

  /** Every reordering of a value has its canonical form exactly when ties agree. */
  lemma CanonicalExactly(a: Value)
    ensures (forall b | Reordered(a, b) :: StableValue(b) == StableValue(a)) <==> TiesAgree(a)
  {
    if TiesAgree(a) {
      forall b | Reordered(a, b) ensures StableValue(b) == StableValue(a) { ReorderedEqualStable(a, b); }
    } else {
      var b := DisagreementShows(a);
    }
  }

  /** Every map has distinct text keys, as in TypeScript objects. */
  ghost predicate TextKeyed(v: Value)
    decreases v
  {
    match v
    case Array(xs) => forall i | 0 <= i < |xs| :: TextKeyed(xs[i])
    case Map(es) =>
      && (forall i | 0 <= i < |es| :: TextKeyed(es[i].val) && AsStr(es[i].key).Some?)
      && (forall i, j | 0 <= i < j < |es| :: es[i].key != es[j].key)
    case _ => true
  }

  lemma {:induction false} TextKeysAgree(v: Value)
    requires TextKeyed(v)
    ensures TiesAgree(v)
    decreases v
  {
    match v
    case Array(xs) => forall i | 0 <= i < |xs| ensures TiesAgree(xs[i]) { TextKeysAgree(xs[i]); }
    case Map(es) =>
      forall i | 0 <= i < |es| ensures TiesAgree(es[i].val) {
        assert es[i].val < es[i];
        TextKeysAgree(es[i].val);
      }
    case _ =>
  }

  /** Distinct keys that are no text all compare as the empty string, so their order shows. */
  lemma IntegerKeysTie()
    ensures var a, b := Map([Entry(Integer(1), Nil), Entry(Integer(2), Nil)]), Map([Entry(Integer(2), Nil), Entry(Integer(1), Nil)]);
            Reordered(a, b) && StableValue(a) != StableValue(b)
  {
    var es := [Entry(Integer(1), Nil), Entry(Integer(2), Nil)];
    assert Swapped(es, 0, 1) == [Entry(Integer(2), Nil), Entry(Integer(1), Nil)];
    SwappedReordered(es, 0, 1);
    TiedEntriesKeepTheirOrder(es, 0, 1);
  }

  lemma FixedEntriesStay(ss: seq<Entry>)
    requires forall i | 0 <= i < |ss| :: StableEntry(ss[i]) == ss[i]
    ensures StableEntries(Sort(EntryLeq, ss)) == Sort(EntryLeq, ss)
  {
    var sorted := Sort(EntryLeq, ss);
    forall i | 0 <= i < |sorted| ensures StableEntries(sorted)[i] == sorted[i] {
      assert sorted[i] in multiset(sorted);
      var j :| 0 <= j < |ss| && ss[j] == sorted[i];
    }
  }

  lemma SortTwice(ss: seq<Entry>)
    ensures Sort(EntryLeq, Sort(EntryLeq, ss)) == Sort(EntryLeq, ss)
  {
    EntryLeqTotal();
    SortIsStable(EntryLeq, ss);
    SortOfSorted(EntryLeq, Sort(EntryLeq, ss));
  }

  /** The canonical form of a canonical form is itself. */
  lemma {:induction false} StableIdempotent(v: Value)
    ensures StableValue(StableValue(v)) == StableValue(v)
    decreases v
  {
    match v
    case Array(xs) =>
      var ys := StableItems(xs);
      forall i | 0 <= i < |xs| ensures StableItems(ys)[i] == ys[i] { StableIdempotent(xs[i]); }
      assert StableItems(ys) == ys;
    case Map(es) =>
      var ss := StableEntries(es);
      forall i | 0 <= i < |es| ensures StableEntry(ss[i]) == ss[i] {
        assert es[i].val < es[i];
        StableIdempotent(es[i].val);
      }
      FixedEntriesStay(ss);
      SortTwice(ss);
    case _ =>
  }

  // ---- the canonical form is ascending ----

  /** `a` may stand before `b`: no text counts as the empty text, and text ascends by UTF-16 code units. */
  predicate MayPrecede(a: Value, b: Value) {
    match (AsStr(a), AsStr(b))
    case (Some(s), Some(t)) => !Less16(t, s)
    case (Some(s), None) => s == ""
    case (None, _) => true
  }

  /** In every map, at any depth, keys ascend. */
  ghost predicate KeysAscend(v: Value)
    decreases v
  {
    match v
    case Array(xs) => forall i | 0 <= i < |xs| :: KeysAscend(xs[i])
    case Map(es) =>
      && (forall i | 0 <= i < |es| :: KeysAscend(es[i].val))
      && (forall i, j | 0 <= i < j < |es| :: MayPrecede(es[i].key, es[j].key))
    case _ => true
  }

  lemma PrecedenceIsOrder(a: Entry, b: Entry)
    ensures EntryLeq(a, b) <==> MayPrecede(a.key, b.key)
  {
    var s, t := SortKey(a.key), SortKey(b.key);
    Less16StrictTotalOrder(s, t, "");
    assert !Less16(t, "");
    assert t == "" && s != "" ==> Less16(t, s);
  }

  lemma AscendingIsSorted(es: seq<Entry>)
    ensures Sorted(EntryLeq, es) <==> forall i, j | 0 <= i < j < |es| :: MayPrecede(es[i].key, es[j].key)
  {
    forall i, j | 0 <= i < j < |es| ensures EntryLeq(es[i], es[j]) <==> MayPrecede(es[i].key, es[j].key) {
      PrecedenceIsOrder(es[i], es[j]);
    }
  }

  lemma SortAscends(ss: seq<Entry>)
    requires forall i | 0 <= i < |ss| :: KeysAscend(ss[i].val)
    ensures KeysAscend(Map(Sort(EntryLeq, ss)))
  {
    var sorted := Sort(EntryLeq, ss);
    assert Sorted(EntryLeq, sorted) by {
      EntryLeqTotal();
      SortIsStable(EntryLeq, ss);
    }
    AscendingIsSorted(sorted);
    forall i | 0 <= i < |sorted| ensures KeysAscend(sorted[i].val) {
      assert sorted[i] in multiset(sorted);
      var j :| 0 <= j < |ss| && ss[j] == sorted[i];
    }
  }

  lemma {:induction false} StableAscends(v: Value)
    ensures KeysAscend(StableValue(v))
    decreases v
  {
    match v
    case Array(xs) => forall i | 0 <= i < |xs| ensures KeysAscend(StableItems(xs)[i]) { StableAscends(xs[i]); }
    case Map(es) =>
      forall i | 0 <= i < |es| ensures KeysAscend(StableEntries(es)[i].val) {
        assert es[i].val < es[i];
        StableAscends(es[i].val);
      }
      SortAscends(StableEntries(es));
    case _ =>
  }

  lemma {:induction false} AscendingStays(v: Value)
    requires KeysAscend(v)
    ensures StableValue(v) == v
    decreases v
  {
    match v
    case Array(xs) =>
      forall i | 0 <= i < |xs| ensures StableItems(xs)[i] == xs[i] { AscendingStays(xs[i]); }
      assert StableItems(xs) == xs;
    case Map(es) =>
      forall i | 0 <= i < |es| ensures StableEntries(es)[i] == es[i] {
        assert es[i].val < es[i];
        AscendingStays(es[i].val);
      }
      assert StableEntries(es) == es;
      AscendingIsSorted(es);
      EntryLeqTotal();
      SortOfSorted(EntryLeq, es);
    case _ =>
  }

  /** The canonical form is the one reordering whose keys ascend, wherever ties leave no choice. */
  lemma CanonicalCharacterised(v: Value, w: Value)
    ensures KeysAscend(StableValue(v)) && Reordered(v, StableValue(v))
    ensures TiesAgree(v) && KeysAscend(w) && Reordered(v, w) ==> w == StableValue(v)
  {
    StableAscends(v);
    StableIdempotent(v);
    EqualStableReordered(v, StableValue(v));
    if TiesAgree(v) && KeysAscend(w) && Reordered(v, w) {
      AscendingStays(w);
      ReorderedEqualStable(v, w);
    }
  }
}
