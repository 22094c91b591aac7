/** Stable sorting, as the standard library's `sort_by` promises it. */
module Sorting {

  ghost predicate TotalPreorder<T(!new)>(leq: (T, T) -> bool) {
    && (forall x, y :: leq(x, y) || leq(y, x))
    && (forall x, y, z :: leq(x, y) && leq(y, z) ==> leq(x, z))
  }

  ghost predicate Sorted<T>(leq: (T, T) -> bool, xs: seq<T>) {
    forall i, j | 0 <= i < j < |xs| :: leq(xs[i], xs[j])
  }

  /** The elements of `xs` that compare equal to `x`, in order. */
  function Class<T>(leq: (T, T) -> bool, x: T, xs: seq<T>): seq<T> {
    if xs == [] then []
    else Tied(leq, x, xs[0]) + Class(leq, x, xs[1..])
  }

  function Tied<T>(leq: (T, T) -> bool, x: T, y: T): seq<T> { if leq(x, y) && leq(y, x) then [y] else [] }

  lemma ClassCons<T>(leq: (T, T) -> bool, x: T, y: T, ys: seq<T>)
    ensures Class(leq, x, [y] + ys) == Tied(leq, x, y) + Class(leq, x, ys)
  {
    assert ([y] + ys)[1..] == ys;
  }

  /** `ys` is `xs` in order, with elements that compare equal left in their original order. */
  ghost predicate IsStableSort<T(!new)>(leq: (T, T) -> bool, xs: seq<T>, ys: seq<T>) {
    && Sorted(leq, ys)
    && forall x :: Class(leq, x, ys) == Class(leq, x, xs)
  }

  function Insert<T>(leq: (T, T) -> bool, x: T, xs: seq<T>): (r: seq<T>)
    ensures |r| == |xs| + 1
    ensures multiset(r) == multiset(xs) + multiset{x}
  {
    if xs == [] || leq(x, xs[0]) then [x] + xs
    else
      assert xs == [xs[0]] + xs[1..];
      [xs[0]] + Insert(leq, x, xs[1..])
  }

  /** Insertion sort: the reference for every `sort_by` in the model. */
  function Sort<T>(leq: (T, T) -> bool, xs: seq<T>): (r: seq<T>)
    ensures |r| == |xs|
    ensures multiset(r) == multiset(xs)
  {
    if xs == [] then []
    else
      assert xs == [xs[0]] + xs[1..];
      Insert(leq, xs[0], Sort(leq, xs[1..]))
  }

  lemma {:induction false} InsertSorted<T(!new)>(leq: (T, T) -> bool, x: T, xs: seq<T>)
    requires TotalPreorder(leq) && Sorted(leq, xs)
    ensures Sorted(leq, Insert(leq, x, xs))
  {
    if xs != [] && !leq(x, xs[0]) {
      var rest := Insert(leq, x, xs[1..]);
      InsertSorted(leq, x, xs[1..]);
      forall j | 0 <= j < |rest| ensures leq(xs[0], rest[j]) {
        assert rest[j] in multiset(rest);
        assert rest[j] == x || rest[j] in xs[1..];
      }
    }
  }

  lemma TiedWithOne<T(!new)>(leq: (T, T) -> bool, x: T, y: T, z: T)
    requires TotalPreorder(leq) && !leq(y, z)
    ensures Tied(leq, x, y) == [] || Tied(leq, x, z) == []
  {
  }

  lemma EmptyCommutes<T>(a: seq<T>, b: seq<T>, c: seq<T>)
    requires a == [] || b == []
    ensures a + (b + c) == b + (a + c)
  {
  }

  lemma {:induction false} InsertClass<T(!new)>(leq: (T, T) -> bool, x: T, xs: seq<T>, y: T)
    requires TotalPreorder(leq)
    ensures Class(leq, y, Insert(leq, x, xs)) == Class(leq, y, [x] + xs)
  {
    if xs != [] && !leq(x, xs[0]) {
      InsertClass(leq, x, xs[1..], y);
      ClassCons(leq, y, x, xs[1..]);
      ClassCons(leq, y, xs[0], Insert(leq, x, xs[1..]));
      ClassCons(leq, y, x, xs);
      TiedWithOne(leq, y, x, xs[0]);
      EmptyCommutes(Tied(leq, y, xs[0]), Tied(leq, y, x), Class(leq, y, xs[1..]));
    }
  }

  lemma {:induction false} SortIsStable<T(!new)>(leq: (T, T) -> bool, xs: seq<T>)
    requires TotalPreorder(leq)
    ensures IsStableSort(leq, xs, Sort(leq, xs))
  {
    if xs != [] {
      var rest := Sort(leq, xs[1..]);
      SortIsStable(leq, xs[1..]);
      InsertSorted(leq, xs[0], rest);
      forall y ensures Class(leq, y, Sort(leq, xs)) == Class(leq, y, xs) {
        InsertClass(leq, xs[0], rest, y);
        assert ([xs[0]] + rest)[1..] == rest;
      }
    }
  }

  lemma {:induction false} ClassMember<T(!new)>(leq: (T, T) -> bool, x: T, xs: seq<T>, y: T)
    ensures y in Class(leq, x, xs) <==> y in xs && leq(x, y) && leq(y, x)
  {
    if xs != [] {
      ClassMember(leq, x, xs[1..], y);
      assert xs == [xs[0]] + xs[1..];
    }
  }

  /** A stable sort has only one possible result, whichever algorithm computes it. */
  lemma {:induction false} StableSortUnique<T(!new)>(leq: (T, T) -> bool, xs: seq<T>, ys: seq<T>, zs: seq<T>)
    requires TotalPreorder(leq)
    requires IsStableSort(leq, xs, ys) && IsStableSort(leq, xs, zs)
    ensures ys == zs
    decreases |ys|
  {
    assert forall x :: Class(leq, x, ys) == Class(leq, x, zs);
    if ys == [] {
      if zs != [] { ClassMember(leq, zs[0], zs, zs[0]); }
    } else {
      var y := ys[0];
      ClassMember(leq, y, ys, y);
      ClassMember(leq, y, zs, y);
      var z := zs[0];
      ClassMember(leq, z, zs, z);
      ClassMember(leq, z, ys, z);
      assert Class(leq, y, ys)[0] == y && Class(leq, y, zs)[0] == z;
      forall x ensures Class(leq, x, ys[1..]) == Class(leq, x, zs[1..]) {
        var head := if leq(x, y) && leq(y, x) then [y] else [];
        assert Class(leq, x, ys[1..]) == Class(leq, x, ys)[|head|..];
        assert Class(leq, x, zs[1..]) == Class(leq, x, zs)[|head|..];
      }
      StableSortUnique(leq, ys[1..], ys[1..], zs[1..]);
    }
  }

  /** Sorting a list that is already in order changes nothing. */
  lemma SortOfSorted<T(!new)>(leq: (T, T) -> bool, xs: seq<T>)
    requires TotalPreorder(leq) && Sorted(leq, xs)
    ensures Sort(leq, xs) == xs
  {
    SortIsStable(leq, xs);
    StableSortUnique(leq, xs, Sort(leq, xs), xs);
  }

  function Swapped<T>(xs: seq<T>, i: nat, j: nat): (r: seq<T>)
    requires i < j < |xs|
    ensures |r| == |xs|
    ensures forall k | 0 <= k < |xs| :: r[k] == if k == i then xs[j] else if k == j then xs[i] else xs[k]
  {
    xs[i := xs[j]][j := xs[i]]
  }

  lemma SwappedMultiset<T>(xs: seq<T>, i: nat, j: nat)
    requires i < j < |xs|
    ensures multiset(Swapped(xs, i, j)) == multiset(xs)
  {
  }

  /** Swapping commutes with applying a function to every element. */
  lemma SwappedImage<A, B>(xs: seq<A>, f: A -> B, ys: seq<B>, zs: seq<B>, i: nat, j: nat)
    requires |xs| == |ys| == |zs| && i < j < |xs|
    requires forall k | 0 <= k < |xs| :: ys[k] == f(xs[k])
    requires forall k | 0 <= k < |xs| :: zs[k] == f(Swapped(xs, i, j)[k])
    ensures zs == Swapped(ys, i, j)
  {
  }

  lemma {:induction false} ClassConcat<T>(leq: (T, T) -> bool, x: T, a: seq<T>, b: seq<T>)
    ensures Class(leq, x, a + b) == Class(leq, x, a) + Class(leq, x, b)
  {
    if a == [] {
      assert a + b == b;
    } else {
      assert (a + b)[1..] == a[1..] + b;
      ClassConcat(leq, x, a[1..], b);
    }
  }

  /** The element at a position is found in its class after those before it. */
  lemma ClassAt<T(!new)>(leq: (T, T) -> bool, x: T, xs: seq<T>, i: nat)
    requires i < |xs| && leq(x, xs[i]) && leq(xs[i], x)
    ensures |Class(leq, x, xs[..i])| < |Class(leq, x, xs)|
    ensures Class(leq, x, xs)[|Class(leq, x, xs[..i])|] == xs[i]
  {
    assert xs == xs[..i] + xs[i..];
    ClassConcat(leq, x, xs[..i], xs[i..]);
  }

  /** Swapping two different elements that compare equal changes what a stable sort gives. */
  lemma SwapChangesSort<T(!new)>(leq: (T, T) -> bool, xs: seq<T>, i: nat, j: nat)
    requires TotalPreorder(leq) && i < j < |xs|
    requires leq(xs[i], xs[j]) && leq(xs[j], xs[i]) && xs[i] != xs[j]
    ensures Sort(leq, xs) != Sort(leq, Swapped(xs, i, j))
  {
    var x, ys := xs[i], Swapped(xs, i, j);
    assert leq(x, x);
    assert ys[..i] == xs[..i] && ys[i] == xs[j];
    ClassAt(leq, x, xs, i);
    ClassAt(leq, x, ys, i);
    assert Class(leq, x, xs) != Class(leq, x, ys);
    SortIsStable(leq, xs);
    SortIsStable(leq, ys);
  }

  /** Elements that compare equal are equal. */
  ghost predicate Antisymmetric<T>(leq: (T, T) -> bool, m: multiset<T>) {
    forall x, y | x in m && y in m && leq(x, y) && leq(y, x) :: x == y
  }

  lemma TailMultiset<T>(xs: seq<T>)
    requires xs != []
    ensures multiset(xs[1..]) == multiset(xs) - multiset{xs[0]}
  {
    assert xs == [xs[0]] + xs[1..];
  }

  ghost predicate Reflexive<T(!new)>(leq: (T, T) -> bool) { forall x :: leq(x, x) }

  lemma LeastHead<T(!new)>(leq: (T, T) -> bool, xs: seq<T>, x: T)
    requires Reflexive(leq) && Sorted(leq, xs) && x in xs
    ensures leq(xs[0], x)
  {
    var i :| 0 <= i < |xs| && xs[i] == x;
    assert leq(x, x);
  }

  lemma HeadsEqual<T(!new)>(leq: (T, T) -> bool, xs: seq<T>, ys: seq<T>)
    requires Reflexive(leq) && Sorted(leq, xs) && Sorted(leq, ys)
    requires multiset(xs) == multiset(ys) && Antisymmetric(leq, multiset(xs)) && xs != [] && ys != []
    ensures xs[0] == ys[0]
  {
    assert ys[0] in multiset(ys) && xs[0] in multiset(xs);
    LeastHead(leq, xs, ys[0]);
    LeastHead(leq, ys, xs[0]);
  }

  lemma TailInherits<T(!new)>(leq: (T, T) -> bool, xs: seq<T>)
    requires xs != [] && Sorted(leq, xs) && Antisymmetric(leq, multiset(xs))
    ensures Sorted(leq, xs[1..]) && Antisymmetric(leq, multiset(xs[1..]))
  {
    TailMultiset(xs);
  }

  lemma ConsEqual<T>(xs: seq<T>, ys: seq<T>)
    requires xs != [] && ys != [] && xs[0] == ys[0] && xs[1..] == ys[1..]
    ensures xs == ys
  {
    assert xs == [xs[0]] + xs[1..] && ys == [ys[0]] + ys[1..];
  }

  lemma {:induction false} SortedPermutationsEqual<T(!new)>(leq: (T, T) -> bool, xs: seq<T>, ys: seq<T>)
    requires Reflexive(leq) && Sorted(leq, xs) && Sorted(leq, ys)
    requires multiset(xs) == multiset(ys) && Antisymmetric(leq, multiset(xs))
    ensures xs == ys
  {
    assert |xs| == |multiset(xs)| == |multiset(ys)| == |ys|;
    if xs != [] {
      HeadsEqual(leq, xs, ys);
      TailInherits(leq, xs);
      TailInherits(leq, ys);
      assert multiset(xs[1..]) == multiset(ys[1..]) by { TailMultiset(xs); TailMultiset(ys); }
      SortedPermutationsEqual(leq, xs[1..], ys[1..]);
      ConsEqual(xs, ys);
    }
  }

  /** When only equal elements compare equal, every starting order sorts to the same list. */
  lemma SortIgnoresOrder<T(!new)>(leq: (T, T) -> bool, xs: seq<T>, ys: seq<T>)
    requires TotalPreorder(leq) && multiset(xs) == multiset(ys) && Antisymmetric(leq, multiset(xs))
    ensures Sort(leq, xs) == Sort(leq, ys)
  {
    SortIsStable(leq, xs);
    SortIsStable(leq, ys);
    SortedPermutationsEqual(leq, Sort(leq, xs), Sort(leq, ys));
  }
}
