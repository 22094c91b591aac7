/** Property assignment on insertion-ordered maps: a key keeps its first position and its last value. */
module Assignments {

  ghost predicate HasKey<K, V>(m: seq<(K, V)>, k: K) { exists i | 0 <= i < |m| :: m[i].0 == k }

  ghost predicate DistinctKeys<K, V>(m: seq<(K, V)>) { forall i, j | 0 <= i < j < |m| :: m[i].0 != m[j].0 }

  /** The position of `k`, or `|m|`. */
  function Find<K(==), V>(m: seq<(K, V)>, k: K): (i: nat)
    ensures i <= |m|
    ensures i < |m| ==> m[i].0 == k
    ensures forall j | 0 <= j < i :: m[j].0 != k
  {
    if m == [] then 0 else if m[0].0 == k then 0 else 1 + Find(m[1..], k)
  }

  function Put<K(==), V>(m: seq<(K, V)>, k: K, v: V): seq<(K, V)> {
    var i := Find(m, k);
    if i < |m| then m[i := (k, v)] else m + [(k, v)]
  }

  function PutAll<K(==), V>(m: seq<(K, V)>, ps: seq<(K, V)>): seq<(K, V)> {
    if ps == [] then m else
      var last := ps[|ps| - 1];
      Put(PutAll(m, ps[..|ps| - 1]), last.0, last.1)
  }

  /** The last assignment to `k` in `ps`. */
  ghost predicate LastAssigned<K, V>(ps: seq<(K, V)>, k: K, v: V) {
    exists i | 0 <= i < |ps| :: ps[i] == (k, v) && forall j | i < j < |ps| :: ps[j].0 != k
  }

  /** `k` is first assigned before `l` is. */
  ghost predicate AssignedBefore<K, V>(ps: seq<(K, V)>, k: K, l: K) {
    exists i | 0 <= i < |ps| :: ps[i].0 == k && forall j | 0 <= j <= i :: ps[j].0 != l
  }

  /** What position `i` holds after the assignments. */
  ghost predicate RightAt<K, V>(m: seq<(K, V)>, ps: seq<(K, V)>, r: seq<(K, V)>, i: nat)
    requires i < |r|
  {
    if HasKey(ps, r[i].0) then LastAssigned(ps, r[i].0, r[i].1) else i < |m| && r[i] == m[i]
  }

  /** `r` is `m` after the assignments `ps`, said without replaying them. */
  ghost predicate Materialised<K(!new), V(!new)>(m: seq<(K, V)>, ps: seq<(K, V)>, r: seq<(K, V)>) {
    && DistinctKeys(r)
    && |m| <= |r|
    && (forall i | 0 <= i < |m| :: r[i].0 == m[i].0)
    && (forall k :: HasKey(r, k) <==> HasKey(m, k) || HasKey(ps, k))
    && (forall i | 0 <= i < |r| :: RightAt(m, ps, r, i))
    && InOrder(ps, r, |m|)
  }

  lemma HasKeySplit<K, V>(ps: seq<(K, V)>, k: K)
    requires ps != []
    ensures HasKey(ps, k) <==> HasKey(ps[..|ps| - 1], k) || ps[|ps| - 1].0 == k
  {
    var front := ps[..|ps| - 1];
    if HasKey(ps, k) {
      var i :| 0 <= i < |ps| && ps[i].0 == k;
      assert i < |front| ==> front[i] == ps[i];
    }
    if HasKey(front, k) {
      var i :| 0 <= i < |front| && front[i].0 == k;
      assert ps[i] == front[i];
    }
  }

  lemma LastAssignedExtend<K, V>(ps: seq<(K, V)>, k: K, v: V)
    requires ps != [] && ps[|ps| - 1].0 != k && LastAssigned(ps[..|ps| - 1], k, v)
    ensures LastAssigned(ps, k, v)
  {
    var front := ps[..|ps| - 1];
    var i :| 0 <= i < |front| && front[i] == (k, v) && forall j | i < j < |front| :: front[j].0 != k;
    assert ps[i] == (k, v) && forall j | i < j < |ps| :: j < |front| ==> ps[j] == front[j];
  }

  lemma AssignedBeforeExtend<K, V>(ps: seq<(K, V)>, k: K, l: K)
    requires ps != [] && AssignedBefore(ps[..|ps| - 1], k, l)
    ensures AssignedBefore(ps, k, l)
  {
    var front := ps[..|ps| - 1];
    var i :| 0 <= i < |front| && front[i].0 == k && forall j | 0 <= j <= i :: front[j].0 != l;
    assert ps[i] == front[i] && forall j | 0 <= j <= i :: ps[j] == front[j];
  }

  lemma AssignedBeforeLast<K, V>(ps: seq<(K, V)>, k: K, l: K)
    requires ps != [] && HasKey(ps[..|ps| - 1], k) && !HasKey(ps[..|ps| - 1], l)
    ensures AssignedBefore(ps, k, l)
  {
    var front := ps[..|ps| - 1];
    var i :| 0 <= i < |front| && front[i].0 == k;
    assert ps[i] == front[i] && forall j | 0 <= j <= i :: ps[j] == front[j];
  }

  lemma OverwriteKeys<K(!new), V(!new)>(m: seq<(K, V)>, ps: seq<(K, V)>, r: seq<(K, V)>, at: nat, k: K)
    requires ps != [] && at < |r| && r[at].0 == ps[|ps| - 1].0 && (HasKey(r, k) <==> HasKey(m, k) || HasKey(ps[..|ps| - 1], k))
    ensures HasKey(r[at := ps[|ps| - 1]], k) <==> HasKey(m, k) || HasKey(ps, k)
  {
    var r' := r[at := ps[|ps| - 1]];
    HasKeySplit(ps, k);
    assert r'[at].0 == ps[|ps| - 1].0;
    if HasKey(r, k) {
      var i :| 0 <= i < |r| && r[i].0 == k;
      assert r'[i].0 == k;
    }
  }

  lemma OverwriteRight<K(!new), V(!new)>(m: seq<(K, V)>, ps: seq<(K, V)>, r: seq<(K, V)>, at: nat, i: nat)
    requires ps != [] && at < |r| && i < |r| && r[at].0 == ps[|ps| - 1].0 && DistinctKeys(r)
    requires RightAt(m, ps[..|ps| - 1], r, i)
    ensures RightAt(m, ps, r[at := ps[|ps| - 1]], i)
  {
    HasKeySplit(ps, r[i].0);
    if i == at {
      assert ps[|ps| - 1].0 == r[i].0;
    } else {
      assert r[i].0 != r[at].0;
      if HasKey(ps[..|ps| - 1], r[i].0) {
        LastAssignedExtend(ps, r[i].0, r[i].1);
      }
    }
  }

  lemma OverwriteStep<K(!new), V(!new)>(m: seq<(K, V)>, ps: seq<(K, V)>, r: seq<(K, V)>, at: nat)
    requires ps != [] && Materialised(m, ps[..|ps| - 1], r)
    requires at < |r| && r[at].0 == ps[|ps| - 1].0
    ensures Materialised(m, ps, r[at := ps[|ps| - 1]])
  {
    var r' := r[at := ps[|ps| - 1]];
    assert forall i | 0 <= i < |r'| :: r'[i].0 == r[i].0;
    forall k ensures HasKey(r', k) <==> HasKey(m, k) || HasKey(ps, k) { OverwriteKeys(m, ps, r, at, k); }
    forall i | 0 <= i < |r'| ensures RightAt(m, ps, r', i) { OverwriteRight(m, ps, r, at, i); }
    forall i, j | |m| <= i < j < |r'| ensures AssignedBefore(ps, r'[i].0, r'[j].0) {
      AssignedBeforeExtend(ps, r[i].0, r[j].0);
    }
  }

  lemma AppendKeys<K(!new), V(!new)>(m: seq<(K, V)>, ps: seq<(K, V)>, r: seq<(K, V)>, k: K)
    requires ps != [] && (HasKey(r, k) <==> HasKey(m, k) || HasKey(ps[..|ps| - 1], k))
    ensures HasKey(r + [ps[|ps| - 1]], k) <==> HasKey(m, k) || HasKey(ps, k)
  {
    var r' := r + [ps[|ps| - 1]];
    assert r'[..|r'| - 1] == r;
    HasKeySplit(ps, k);
    HasKeySplit(r', k);
  }

  lemma AppendRight<K(!new), V(!new)>(m: seq<(K, V)>, ps: seq<(K, V)>, r: seq<(K, V)>, i: nat)
    requires ps != [] && i <= |r| && !HasKey(r, ps[|ps| - 1].0)
    requires i < |r| ==> RightAt(m, ps[..|ps| - 1], r, i)
    ensures RightAt(m, ps, r + [ps[|ps| - 1]], i)
  {
    var r' := r + [ps[|ps| - 1]];
    HasKeySplit(ps, r'[i].0);
    if i == |r| {
      assert ps[|ps| - 1] == r'[i];
    } else {
      assert r'[i] == r[i] && r[i].0 != ps[|ps| - 1].0;
      if HasKey(ps[..|ps| - 1], r[i].0) {
        LastAssignedExtend(ps, r[i].0, r[i].1);
      }
    }
  }

  lemma AppendOrder<K(!new), V(!new)>(m: seq<(K, V)>, ps: seq<(K, V)>, r: seq<(K, V)>, i: nat, j: nat)
    requires ps != [] && Materialised(m, ps[..|ps| - 1], r) && !HasKey(r, ps[|ps| - 1].0)
    requires |m| <= i < j <= |r|
    ensures AssignedBefore(ps, r[i].0, (r + [ps[|ps| - 1]])[j].0)
  {
    var front, last := ps[..|ps| - 1], ps[|ps| - 1];
    if j < |r| {
      AssignedBeforeExtend(ps, r[i].0, r[j].0);
    } else {
      assert HasKey(r, last.0) <==> HasKey(m, last.0) || HasKey(front, last.0);
      AssignedBeforeLast(ps, r[i].0, last.0);
    }
  }

  lemma AppendStep<K(!new), V(!new)>(m: seq<(K, V)>, ps: seq<(K, V)>, r: seq<(K, V)>)
    requires ps != [] && Materialised(m, ps[..|ps| - 1], r)
    requires !HasKey(r, ps[|ps| - 1].0)
    ensures Materialised(m, ps, r + [ps[|ps| - 1]])
  {
    var r' := r + [ps[|ps| - 1]];
    forall i, j | 0 <= i < j < |r'| ensures r'[i].0 != r'[j].0 {}
    forall k ensures HasKey(r', k) <==> HasKey(m, k) || HasKey(ps, k) { AppendKeys(m, ps, r, k); }
    forall i | 0 <= i < |r'| ensures RightAt(m, ps, r', i) { AppendRight(m, ps, r, i); }
    forall i, j | |m| <= i < j < |r'| ensures AssignedBefore(ps, r'[i].0, r'[j].0) { AppendOrder(m, ps, r, i, j); }
  }

  /** Replaying the assignments gives the materialised map. */
  lemma {:induction false} PutAllMaterialises<K(!new), V(!new)>(m: seq<(K, V)>, ps: seq<(K, V)>)
    requires DistinctKeys(m)
    ensures Materialised(m, ps, PutAll(m, ps))
  {
    if ps != [] {
      var front, last := ps[..|ps| - 1], ps[|ps| - 1];
      PutAllMaterialises(m, front);
      var r := PutAll(m, front);
      var i := Find(r, last.0);
      if i < |r| {
        OverwriteStep(m, ps, r, i);
      } else {
        AppendStep(m, ps, r);
      }
    }
  }

  lemma LastAssignedUnique<K, V>(ps: seq<(K, V)>, k: K, v: V, w: V)
    requires LastAssigned(ps, k, v) && LastAssigned(ps, k, w)
    ensures v == w
  {
  }

  lemma AssignedBeforeAsymmetric<K, V>(ps: seq<(K, V)>, k: K, l: K)
    ensures !(AssignedBefore(ps, k, l) && AssignedBefore(ps, l, k))
  {
  }

  /** From position `base` on, keys stand in the order of their first assignment. */
  ghost predicate InOrder<K, V>(ps: seq<(K, V)>, r: seq<(K, V)>, base: nat) {
    forall i, j | base <= i < j < |r| :: AssignedBefore(ps, r[i].0, r[j].0)
  }

  lemma LaterKey<K, V>(ps: seq<(K, V)>, q: seq<(K, V)>, base: nat, n: nat, k: K)
    requires base <= n < |q| && InOrder(ps, q, base) && HasKey(q, k)
    requires forall i | 0 <= i <= n :: q[i].0 != k
    ensures AssignedBefore(ps, q[n].0, k)
  {
    var i :| 0 <= i < |q| && q[i].0 == k;
  }

  lemma NextKeySame<K, V>(ps: seq<(K, V)>, r: seq<(K, V)>, q: seq<(K, V)>, base: nat, n: nat)
    requires base <= n < |r| && n < |q| && InOrder(ps, r, base) && InOrder(ps, q, base)
    requires DistinctKeys(r) && DistinctKeys(q) && HasKey(q, r[n].0) && HasKey(r, q[n].0)
    requires forall i | 0 <= i < n :: r[i].0 == q[i].0
    ensures r[n].0 == q[n].0
  {
    var k, l := r[n].0, q[n].0;
    AssignedBeforeAsymmetric(ps, k, l);
    if k != l {
      LaterKey(ps, q, base, n, k);
      LaterKey(ps, r, base, n, l);
    }
  }

  lemma {:induction false} SameKeysUpTo<K(!new), V(!new)>(ps: seq<(K, V)>, r: seq<(K, V)>, q: seq<(K, V)>, base: nat, n: nat)
    requires n <= |r| && n <= |q| && InOrder(ps, r, base) && InOrder(ps, q, base) && DistinctKeys(r) && DistinctKeys(q)
    requires forall k :: HasKey(r, k) <==> HasKey(q, k)
    requires forall i | 0 <= i < base && i < n :: r[i].0 == q[i].0
    ensures forall i | 0 <= i < n :: r[i].0 == q[i].0
  {
    if n > base {
      SameKeysUpTo(ps, r, q, base, n - 1);
      assert HasKey(r, r[n - 1].0) && HasKey(q, q[n - 1].0);
      NextKeySame(ps, r, q, base, n - 1);
    }
  }

  lemma CommonKeysAgree<K(!new), V(!new)>(m: seq<(K, V)>, ps: seq<(K, V)>, r: seq<(K, V)>, q: seq<(K, V)>)
    requires Materialised(m, ps, r) && Materialised(m, ps, q)
    ensures forall i | 0 <= i < |r| && i < |q| :: r[i].0 == q[i].0
  {
    SameKeysUpTo(ps, r, q, |m|, if |r| < |q| then |r| else |q|);
  }

  lemma ExtraKey<K, V>(r: seq<(K, V)>, q: seq<(K, V)>)
    requires DistinctKeys(q) && |r| < |q| && forall i | 0 <= i < |r| :: r[i].0 == q[i].0
    ensures HasKey(q, q[|r|].0) && !HasKey(r, q[|r|].0)
  {
  }

  lemma NoShorter<K(!new), V(!new)>(m: seq<(K, V)>, ps: seq<(K, V)>, r: seq<(K, V)>, q: seq<(K, V)>)
    requires Materialised(m, ps, r) && Materialised(m, ps, q)
    ensures |q| <= |r|
  {
    if |r| < |q| {
      CommonKeysAgree(m, ps, r, q);
      ExtraKey(r, q);
      assert false;
    }
  }

  /** The description leaves no choice: there is one materialised map. */
  lemma MaterialisedUnique<K(!new), V(!new)>(m: seq<(K, V)>, ps: seq<(K, V)>, r: seq<(K, V)>, q: seq<(K, V)>)
    requires Materialised(m, ps, r) && Materialised(m, ps, q)
    ensures r == q
  {
    NoShorter(m, ps, r, q);
    NoShorter(m, ps, q, r);
    CommonKeysAgree(m, ps, r, q);
    forall i | 0 <= i < |r| ensures r[i] == q[i] {
      assert RightAt(m, ps, r, i) && RightAt(m, ps, q, i);
      if HasKey(ps, r[i].0) {
        LastAssignedUnique(ps, r[i].0, r[i].1, q[i].1);
      }
    }
  }

  /** Distinct new keys are simply appended. */
  lemma {:induction false} PutAllFresh<K(!new), V(!new)>(m: seq<(K, V)>, ps: seq<(K, V)>)
    requires DistinctKeys(m + ps)
    ensures PutAll(m, ps) == m + ps
  {
    if ps != [] {
      var front, last := ps[..|ps| - 1], ps[|ps| - 1];
      assert ps == front + [last];
      forall i, j | 0 <= i < j < |m + front| ensures (m + front)[i].0 != (m + front)[j].0 {
        assert (m + front)[i] == (m + ps)[i] && (m + front)[j] == (m + ps)[j];
      }
      PutAllFresh(m, front);
      forall i | 0 <= i < |m + front| ensures (m + front)[i].0 != last.0 {
        assert (m + front)[i] == (m + ps)[i] && last == (m + ps)[|m + front|];
      }
      assert (m + front) + [last] == m + ps;
    }
  }

  lemma FreshAlone<K(!new), V(!new)>(ps: seq<(K, V)>)
    requires DistinctKeys(ps)
    ensures PutAll([], ps) == ps
  {
    assert [] + ps == ps;
    PutAllFresh([], ps);
  }

  lemma PutAllDistinct<K(!new), V(!new)>(ps: seq<(K, V)>)
    ensures DistinctKeys(PutAll([], ps))
  {
    PutAllMaterialises([], ps);
  }

  /** Nothing but what was assigned is held. */
  lemma PutAllFrom<K(!new), V(!new)>(ps: seq<(K, V)>, i: nat) returns (j: nat)
    requires i < |PutAll([], ps)|
    ensures j < |ps| && ps[j] == PutAll([], ps)[i]
  {
    PutAllMaterialises([], ps);
    var r := PutAll([], ps);
    assert RightAt([], ps, r, i);
    j :| 0 <= j < |ps| && ps[j] == (r[i].0, r[i].1) && forall k | j < k < |ps| :: ps[k].0 != r[i].0;
  }
}
