/** The reaction log folded into emoji and users. */
module Reactions {
  import opened Text
  import opened Assignments

  datatype ChatEvent = ChatEvent(event: string, messageId: Option<string>, userId: Option<string>, emoji: Option<string>)

  datatype Aggregate = Aggregate(emoji: string, userIds: seq<string>, meReacted: bool)

  // ---- what one event does ----

  datatype Op = Add(emoji: string, user: string) | Retract(emoji: string, user: string) | Skip

  predicate Truthy(s: Option<string>) { s.Some? && s.value != "" }

  /** A leading "-" marks a retraction. */
  function OpOf(e: ChatEvent, messageId: string): Op {
    if e.event != "ReactionAdded" || e.messageId != Some(messageId) || !Truthy(e.userId) || !Truthy(e.emoji) then Skip
    else if e.emoji.value[0] == '-' then Retract(e.emoji.value[1..], e.userId.value)
    else Add(e.emoji.value, e.userId.value)
  }

  // ---- what the log says, event by event ----

  type Log = seq<ChatEvent>

  /** After `n` events, the index of the user's first add since their last retraction. */
  function Since(log: Log, m: string, emoji: string, user: string, n: nat): (r: Option<nat>)
    requires n <= |log|
    ensures r.Some? ==> r.value < n
  {
    if n == 0 then None
    else
      var before := Since(log, m, emoji, user, n - 1);
      var op := OpOf(log[n - 1], m);
      if op == Add(emoji, user) then (if before.Some? then before else Some(n - 1))
      else if op == Retract(emoji, user) then None
      else before
  }

  /** After `n` events, the index of the first add of this emoji by anyone. */
  function FirstAdd(log: Log, m: string, emoji: string, n: nat): (r: Option<nat>)
    requires n <= |log|
    ensures r.Some? ==> r.value < n
  {
    if n == 0 then None
    else
      var before := FirstAdd(log, m, emoji, n - 1);
      var op := OpOf(log[n - 1], m);
      if before.Some? then before else if op.Add? && op.emoji == emoji then Some(n - 1) else None
  }

  // ---- the same, said about the whole log ----

  predicate IsAdd(log: Log, m: string, emoji: string, user: string, i: int) {
    0 <= i < |log| && OpOf(log[i], m) == Add(emoji, user)
  }

  predicate IsRetract(log: Log, m: string, emoji: string, user: string, i: int) {
    0 <= i < |log| && OpOf(log[i], m) == Retract(emoji, user)
  }

  /** An event of this kind, about this message, by this user, with this emoji text. */
  predicate Says(e: ChatEvent, m: string, text: string, user: string) {
    e.event == "ReactionAdded" && e.messageId == Some(m) && e.userId == Some(user) && e.emoji == Some(text)
  }

  /** An add carries the emoji itself; neither it nor the user is empty, and it has no leading dash. */
  lemma IsAddExactly(log: Log, m: string, emoji: string, user: string, i: int)
    ensures IsAdd(log, m, emoji, user, i) <==>
            0 <= i < |log| && Says(log[i], m, emoji, user) && user != "" && emoji != "" && emoji[0] != '-'
  {
  }

  /** A retraction carries the emoji behind a dash. */
  lemma IsRetractExactly(log: Log, m: string, emoji: string, user: string, i: int)
    ensures IsRetract(log, m, emoji, user, i) <==> 0 <= i < |log| && Says(log[i], m, "-" + emoji, user) && user != ""
  {
    assert ("-" + emoji)[1..] == emoji;
    if IsRetract(log, m, emoji, user, i) {
      var text := log[i].emoji.value;
      assert text == [text[0]] + text[1..];
    }
  }

  /** Among the first `n` events, the last add or retraction of this emoji by this user is an add. */
  ghost predicate LastIsAdd(log: Log, m: string, emoji: string, user: string, n: nat) {
    exists i | 0 <= i < n ::
      IsAdd(log, m, emoji, user, i) && forall j | i < j < n :: !IsAdd(log, m, emoji, user, j) && !IsRetract(log, m, emoji, user, j)
  }

  /** Among the first `n` events, `i` is the user's first add since their last retraction. */
  ghost predicate AddedAt(log: Log, m: string, emoji: string, user: string, n: nat, i: nat) {
    && i < n && IsAdd(log, m, emoji, user, i)
    && (forall j | i < j < n :: !IsRetract(log, m, emoji, user, j))
    && (forall j | 0 <= j < i && IsAdd(log, m, emoji, user, j) :: RetractedBetween(log, m, emoji, user, j, i))
  }

  ghost predicate RetractedBetween(log: Log, m: string, emoji: string, user: string, j: int, i: int) {
    exists k | j < k < i :: IsRetract(log, m, emoji, user, k)
  }

  lemma {:induction false} SinceMeansLastIsAdd(log: Log, m: string, emoji: string, user: string, n: nat)
    requires n <= |log|
    ensures Since(log, m, emoji, user, n).Some? <==> LastIsAdd(log, m, emoji, user, n)
  {
    if n > 0 {
      SinceMeansLastIsAdd(log, m, emoji, user, n - 1);
      if IsAdd(log, m, emoji, user, n - 1) {
        assert LastIsAdd(log, m, emoji, user, n);
      } else if IsRetract(log, m, emoji, user, n - 1) {
        assert !LastIsAdd(log, m, emoji, user, n);
      } else if LastIsAdd(log, m, emoji, user, n - 1) {
        var i :| 0 <= i < n - 1 && IsAdd(log, m, emoji, user, i)
                 && forall j | i < j < n - 1 :: !IsAdd(log, m, emoji, user, j) && !IsRetract(log, m, emoji, user, j);
        assert LastIsAdd(log, m, emoji, user, n);
      }
    }
  }

  lemma {:induction false} NoneMeansRetracted(log: Log, m: string, emoji: string, user: string, n: nat)
    requires n <= |log| && Since(log, m, emoji, user, n).None?
    ensures forall j | 0 <= j < n && IsAdd(log, m, emoji, user, j) :: RetractedBetween(log, m, emoji, user, j, n)
  {
    if n > 0 {
      if IsRetract(log, m, emoji, user, n - 1) {
      } else {
        NoneMeansRetracted(log, m, emoji, user, n - 1);
        forall j | 0 <= j < n && IsAdd(log, m, emoji, user, j) ensures RetractedBetween(log, m, emoji, user, j, n) {
          assert RetractedBetween(log, m, emoji, user, j, n - 1);
        }
      }
    }
  }

  lemma {:induction false} SinceIsAddedAt(log: Log, m: string, emoji: string, user: string, n: nat)
    requires n <= |log| && Since(log, m, emoji, user, n).Some?
    ensures AddedAt(log, m, emoji, user, n, Since(log, m, emoji, user, n).value)
  {
    if Since(log, m, emoji, user, n - 1).Some? {
      SinceIsAddedAt(log, m, emoji, user, n - 1);
    } else {
      NoneMeansRetracted(log, m, emoji, user, n - 1);
    }
  }

  // ---- the fold ----

  /** Emoji to users, both in insertion order. */
  type State = seq<(string, seq<string>)>

  /** `xs` are the elements that have a rank, in rank order. */
  ghost predicate Ranked(xs: seq<string>, rank: string -> Option<nat>) {
    && (forall x :: x in xs <==> rank(x).Some?)
    && (forall a, b | 0 <= a < b < |xs| :: Below(rank(xs[a]), rank(xs[b])))
  }

  predicate Below(a: Option<nat>, b: Option<nat>) { a.Some? && b.Some? && a.value < b.value }

  function SinceAt(log: Log, m: string, emoji: string, n: nat): string -> Option<nat>
    requires n <= |log|
  {
    (u: string) => Since(log, m, emoji, u, n)
  }

  function FirstAddAt(log: Log, m: string, n: nat): string -> Option<nat>
    requires n <= |log|
  {
    (e: string) => FirstAdd(log, m, e, n)
  }

  function Emojis(st: State): (r: seq<string>)
    ensures |r| == |st| && forall i | 0 <= i < |st| :: r[i] == st[i].0
  {
    seq(|st|, i requires 0 <= i < |st| => st[i].0)
  }

  /** Emoji stand in the order of their first add, the users of each in the order of their standing adds. */
  ghost predicate StateRight(st: State, log: Log, m: string, n: nat)
    requires n <= |log|
  {
    && Ranked(Emojis(st), FirstAddAt(log, m, n))
    && forall i | 0 <= i < |st| :: Ranked(st[i].1, SinceAt(log, m, st[i].0, n))
  }

  function AddUser(users: seq<string>, u: string): seq<string> { if u in users then users else users + [u] }

  function DeleteUser(users: seq<string>, u: string): (r: seq<string>)
    ensures u !in users ==> r == users
    ensures |r| <= |users|
  {
    if users == [] then []
    else if users[0] == u then users[1..]
    else [users[0]] + DeleteUser(users[1..], u)
  }

  lemma {:induction false} DeletePosition(users: seq<string>, k: nat)
    requires k < |users| && forall i | 0 <= i < k :: users[i] != users[k]
    ensures DeleteUser(users, users[k]) == users[..k] + users[k + 1..]
  {
    if k > 0 {
      DeletePosition(users[1..], k - 1);
      assert users[1..][..k - 1] == users[1..k] && users[1..][k..] == users[k + 1..];
      assert users[..k] == [users[0]] + users[1..k];
    }
  }

  lemma RankedDistinct(xs: seq<string>, rank: string -> Option<nat>)
    requires Ranked(xs, rank)
    ensures Distinct(xs)
  {
  }

  /** A new element with the highest rank goes last; one already ranked stays put. */
  lemma RankedAdd(xs: seq<string>, rank: string -> Option<nat>, next: string -> Option<nat>, x: string, n: nat)
    requires Ranked(xs, rank)
    requires forall y | rank(y).Some? :: rank(y).value < n
    requires forall y | y != x :: next(y) == rank(y)
    requires next(x) == if rank(x).Some? then rank(x) else Some(n)
    ensures Ranked(AddUser(xs, x), next)
  {
    var ys := AddUser(xs, x);
    assert forall y :: y in ys <==> y in xs || y == x;
    forall a, b | 0 <= a < b < |ys| ensures Below(next(ys[a]), next(ys[b])) {
      assert xs[a] in xs && ys[a] == xs[a];
      if b < |xs| {
        assert Below(rank(xs[a]), rank(xs[b]));
      }
    }
  }

  lemma RankedWithout(xs: seq<string>, rank: string -> Option<nat>, next: string -> Option<nat>, k: nat)
    requires Ranked(xs, rank) && k < |xs|
    requires (forall y | y != xs[k] :: next(y) == rank(y)) && next(xs[k]).None?
    ensures Ranked(xs[..k] + xs[k + 1..], next)
  {
    var ys := xs[..k] + xs[k + 1..];
    RankedDistinct(xs, rank);
    forall y ensures y in ys <==> next(y).Some? {
      DeletedMember(xs, k, y);
    }
    forall a, b | 0 <= a < b < |ys| ensures Below(next(ys[a]), next(ys[b])) {
      WithoutOrder(xs, rank, next, k, a, b);
    }
  }

  lemma WithoutOrder(xs: seq<string>, rank: string -> Option<nat>, next: string -> Option<nat>, k: nat, a: nat, b: nat)
    requires Ranked(xs, rank) && k < |xs| && a < b < |xs| - 1
    requires forall y | y != xs[k] :: next(y) == rank(y)
    ensures var ys := xs[..k] + xs[k + 1..]; Below(next(ys[a]), next(ys[b]))
  {
    var a', b' := if a < k then a else a + 1, if b < k then b else b + 1;
    RankedDistinct(xs, rank);
    assert Below(rank(xs[a']), rank(xs[b']));
  }

  lemma RankedDelete(xs: seq<string>, rank: string -> Option<nat>, next: string -> Option<nat>, x: string)
    requires Ranked(xs, rank)
    requires (forall y | y != x :: next(y) == rank(y)) && next(x).None?
    ensures Ranked(DeleteUser(xs, x), next)
  {
    if x in xs {
      var k :| 0 <= k < |xs| && xs[k] == x;
      RankedDistinct(xs, rank);
      DeletePosition(xs, k);
      RankedWithout(xs, rank, next, k);
    } else {
      assert rank(x).None?;
      RankedSame(xs, rank, next);
    }
  }

  lemma DeletedMember(xs: seq<string>, k: nat, y: string)
    requires k < |xs| && Distinct(xs)
    ensures y in xs[..k] + xs[k + 1..] <==> y in xs && y != xs[k]
  {
    var ys := xs[..k] + xs[k + 1..];
    if y in xs && y != xs[k] {
      var i :| 0 <= i < |xs| && xs[i] == y;
      assert ys[if i < k then i else i - 1] == y;
    }
  }

  lemma RankedSame(xs: seq<string>, rank: string -> Option<nat>, next: string -> Option<nat>)
    requires Ranked(xs, rank) && forall y :: next(y) == rank(y)
    ensures Ranked(xs, next)
  {
    assert forall a, b | 0 <= a < b < |xs| :: Below(rank(xs[a]), rank(xs[b]));
  }

  /** One event applied to the ordered map of ordered sets. */
  function Apply(st: State, op: Op): State {
    match op
    case Skip => st
    case Add(e, u) =>
      var i := Find(st, e);
      if i < |st| then st[i := (e, AddUser(st[i].1, u))] else st + [(e, [u])]
    case Retract(e, u) =>
      var i := Find(st, e);
      if i < |st| then st[i := (e, DeleteUser(st[i].1, u))] else st
  }

  lemma UsersStep(users: seq<string>, log: Log, m: string, emoji: string, n: nat)
    requires n < |log| && Ranked(users, SinceAt(log, m, emoji, n))
    ensures var op := OpOf(log[n], m);
            var next := if op.Add? && op.emoji == emoji then AddUser(users, op.user)
                        else if op.Retract? && op.emoji == emoji then DeleteUser(users, op.user) else users;
            Ranked(next, SinceAt(log, m, emoji, n + 1))
  {
    var op := OpOf(log[n], m);
    var rank, next := SinceAt(log, m, emoji, n), SinceAt(log, m, emoji, n + 1);
    if op.Add? && op.emoji == emoji {
      RankedAdd(users, rank, next, op.user, n);
    } else if op.Retract? && op.emoji == emoji {
      RankedDelete(users, rank, next, op.user);
    } else {
      RankedSame(users, rank, next);
    }
  }

  lemma EmojisStep(st: State, log: Log, m: string, n: nat)
    requires n < |log| && Ranked(Emojis(st), FirstAddAt(log, m, n))
    ensures Ranked(Emojis(Apply(st, OpOf(log[n], m))), FirstAddAt(log, m, n + 1))
  {
    var op := OpOf(log[n], m);
    var rank, next := FirstAddAt(log, m, n), FirstAddAt(log, m, n + 1);
    var es, es' := Emojis(st), Emojis(Apply(st, op));
    if op.Add? {
      RankedAdd(es, rank, next, op.emoji, n);
      KnownEmoji(st, op.emoji);
      assert es' == AddUser(es, op.emoji);
    } else {
      RankedSame(es, rank, next);
      assert es' == es;
    }
  }

  lemma KnownEmoji(st: State, e: string)
    ensures e in Emojis(st) <==> Find(st, e) < |st|
  {
    var i := Find(st, e);
    if i < |st| {
      assert Emojis(st)[i] == e;
    }
  }

  /** Applying the next event keeps the map right for one more event. */
  lemma ApplyRight(st: State, log: Log, m: string, n: nat)
    requires n < |log| && StateRight(st, log, m, n)
    ensures StateRight(Apply(st, OpOf(log[n], m)), log, m, n + 1)
  {
    var op := OpOf(log[n], m);
    var st' := Apply(st, op);
    EmojisStep(st, log, m, n);
    RankedDistinct(Emojis(st), FirstAddAt(log, m, n));
    forall i | 0 <= i < |st'| ensures Ranked(st'[i].1, SinceAt(log, m, st'[i].0, n + 1)) {
      if i < |st| {
        assert st'[i].0 == st[i].0;
        UsersStep(st[i].1, log, m, st[i].0, n);
        if !op.Skip? && st[i].0 == op.emoji {
          assert Find(st, op.emoji) == i by { assert Emojis(st)[i] == op.emoji && (Find(st, op.emoji) < |st| ==> Emojis(st)[Find(st, op.emoji)] == op.emoji); }
        }
      } else {
        KnownEmoji(st, op.emoji);
        NobodyYet(log, m, op.emoji, n);
        UsersStep([], log, m, op.emoji, n);
        assert AddUser([], op.user) == [op.user];
      }
    }
  }

  /** Nobody holds an emoji that was never added. */
  lemma {:induction false} NobodyYet(log: Log, m: string, emoji: string, n: nat)
    requires n <= |log| && FirstAdd(log, m, emoji, n).None?
    ensures Ranked([], SinceAt(log, m, emoji, n))
  {
    if n > 0 {
      NobodyYet(log, m, emoji, n - 1);
      forall u ensures SinceAt(log, m, emoji, n)(u).None? {
        assert SinceAt(log, m, emoji, n - 1)(u).None?;
      }
    }
  }

  // ---- the aggregate ----

  /** `r` is the aggregate of the log, said without folding it. */
  ghost predicate AggregateRight(r: seq<Aggregate>, log: Log, m: string, me: string) {
    && (forall e, u :: Listed(r, e, u) <==> LastIsAdd(log, m, e, u, |log|))
    && (forall i | 0 <= i < |r| :: r[i].userIds != [] && (r[i].meReacted <==> me != "" && me in r[i].userIds))
    && (forall i, j | 0 <= i < j < |r| :: Below(FirstAdd(log, m, r[i].emoji, |log|), FirstAdd(log, m, r[j].emoji, |log|)))
    && (forall i, j | 0 <= i < j < |r| :: r[i].emoji != r[j].emoji)
    && (forall i | 0 <= i < |r| :: Distinct(r[i].userIds) && InAddOrder(r[i].userIds, log, m, r[i].emoji))
  }

  ghost predicate Listed(r: seq<Aggregate>, e: string, u: string) {
    exists i | 0 <= i < |r| :: r[i].emoji == e && u in r[i].userIds
  }

  /** Each user stands after those whose first add since their last retraction came earlier. */
  ghost predicate InAddOrder(users: seq<string>, log: Log, m: string, emoji: string) {
    forall a, b | 0 <= a < b < |users| :: AddedBefore(log, m, emoji, users[a], users[b])
  }

  ghost predicate AddedBefore(log: Log, m: string, emoji: string, u: string, v: string) {
    exists i: nat, j: nat :: AddedAt(log, m, emoji, u, |log|, i) && AddedAt(log, m, emoji, v, |log|, j) && i < j
  }

  lemma RankedInAddOrder(users: seq<string>, log: Log, m: string, emoji: string)
    requires Ranked(users, SinceAt(log, m, emoji, |log|))
    ensures InAddOrder(users, log, m, emoji)
  {
    var rank := SinceAt(log, m, emoji, |log|);
    forall a, b | 0 <= a < b < |users| ensures AddedBefore(log, m, emoji, users[a], users[b]) {
      assert Below(rank(users[a]), rank(users[b]));
      var i, j := Since(log, m, emoji, users[a], |log|).value, Since(log, m, emoji, users[b], |log|).value;
      SinceIsAddedAt(log, m, emoji, users[a], |log|);
      SinceIsAddedAt(log, m, emoji, users[b], |log|);
      assert AddedAt(log, m, emoji, users[a], |log|, i) && AddedAt(log, m, emoji, users[b], |log|, j) && i < j;
    }
  }

  /** The emoji that still have users, in order, with `meReacted` filled in. */
  function Present(st: State, me: string): seq<Aggregate> {
    if st == [] then []
    else
      var (e, us) := st[|st| - 1];
      Present(st[..|st| - 1], me) + if us == [] then [] else [Aggregate(e, us, me != "" && me in us)]
  }

  /** Where the presented rows come from. */
  function PresentPositions(st: State): (pos: seq<nat>)
    ensures forall i | 0 <= i < |pos| :: pos[i] < |st| && st[pos[i]].1 != []
    ensures forall i, j | 0 <= i < j < |pos| :: pos[i] < pos[j]
  {
    if st == [] then []
    else PresentPositions(st[..|st| - 1]) + if st[|st| - 1].1 == [] then [] else [|st| - 1]
  }

  lemma {:induction false} PresentRows(st: State, me: string)
    ensures |Present(st, me)| == |PresentPositions(st)|
    ensures forall i | 0 <= i < |Present(st, me)| ::
              var row := st[PresentPositions(st)[i]]; Present(st, me)[i] == Aggregate(row.0, row.1, me != "" && me in row.1)
  {
    if st != [] {
      PresentRows(st[..|st| - 1], me);
    }
  }

  lemma {:induction false} NonemptyRowIsPresented(st: State, k: nat)
    requires k < |st| && st[k].1 != []
    ensures k in PresentPositions(st)
  {
    if k < |st| - 1 {
      NonemptyRowIsPresented(st[..|st| - 1], k);
    }
  }

  lemma PresentRight(st: State, log: Log, m: string, me: string)
    requires StateRight(st, log, m, |log|)
    ensures AggregateRight(Present(st, me), log, m, me)
  {
    var r := Present(st, me);
    var pos := PresentPositions(st);
    PresentRows(st, me);
    var rank := FirstAddAt(log, m, |log|);
    forall e, u ensures Listed(r, e, u) <==> LastIsAdd(log, m, e, u, |log|) {
      SinceMeansLastIsAdd(log, m, e, u, |log|);
      ListedMeansRow(st, me, e, u);
      if Since(log, m, e, u, |log|).Some? {
        AddedSomewhere(log, m, e, u, |log|);
        assert rank(e).Some?;
        assert e in Emojis(st);
        var k :| 0 <= k < |st| && Emojis(st)[k] == e;
        assert SinceAt(log, m, st[k].0, |log|)(u).Some?;
      }
    }
    forall i, j | 0 <= i < j < |r|
      ensures Below(FirstAdd(log, m, r[i].emoji, |log|), FirstAdd(log, m, r[j].emoji, |log|)) && r[i].emoji != r[j].emoji
    {
      assert Below(rank(Emojis(st)[pos[i]]), rank(Emojis(st)[pos[j]]));
    }
    forall i | 0 <= i < |r| ensures Distinct(r[i].userIds) && InAddOrder(r[i].userIds, log, m, r[i].emoji) {
      RankedDistinct(st[pos[i]].1, SinceAt(log, m, st[pos[i]].0, |log|));
      RankedInAddOrder(st[pos[i]].1, log, m, st[pos[i]].0);
    }
  }

  lemma ListedMeansRow(st: State, me: string, e: string, u: string)
    ensures Listed(Present(st, me), e, u) <==> exists k | 0 <= k < |st| :: st[k].0 == e && u in st[k].1
  {
    var r, pos := Present(st, me), PresentPositions(st);
    PresentRows(st, me);
    if Listed(r, e, u) {
      var i :| 0 <= i < |r| && r[i].emoji == e && u in r[i].userIds;
      assert st[pos[i]].0 == e && u in st[pos[i]].1;
    }
    if exists k | 0 <= k < |st| :: st[k].0 == e && u in st[k].1 {
      var k :| 0 <= k < |st| && st[k].0 == e && u in st[k].1;
      NonemptyRowIsPresented(st, k);
      var i :| 0 <= i < |pos| && pos[i] == k;
      assert r[i].emoji == e;
    }
  }

  lemma {:induction false} AddedSomewhere(log: Log, m: string, e: string, u: string, n: nat)
    requires n <= |log| && Since(log, m, e, u, n).Some?
    ensures FirstAdd(log, m, e, n).Some?
  {
    if Since(log, m, e, u, n - 1).Some? {
      AddedSomewhere(log, m, e, u, n - 1);
    }
  }

  /** The body of the loop. */
  method ApplyEvent(st: State, e: ChatEvent, messageId: string) returns (byEmoji: State)
    ensures byEmoji == Apply(st, OpOf(e, messageId))
  {
    byEmoji := st;
    if e.event != "ReactionAdded" {
      return;
    }
    if e.messageId != Some(messageId) || !Truthy(e.userId) || !Truthy(e.emoji) {
      return;
    }
    var emoji, user := e.emoji.value, e.userId.value;
    if emoji[0] == '-' {
      var at := Find(byEmoji, emoji[1..]);
      if at < |byEmoji| {
        byEmoji := byEmoji[at := (emoji[1..], DeleteUser(byEmoji[at].1, user))];
      }
      return;
    }
    var at := Find(byEmoji, emoji);
    if at < |byEmoji| {
      byEmoji := byEmoji[at := (emoji, AddUser(byEmoji[at].1, user))];
    } else {
      assert AddUser([], user) == [user];
      byEmoji := byEmoji + [(emoji, AddUser([], user))];
    }
  }

  /** Every event applied in turn. */
  function Fold(log: Log, m: string): State {
    if log == [] then [] else Apply(Fold(log[..|log| - 1], m), OpOf(log[|log| - 1], m))
  }

  function AggregateOf(log: Log, m: string, me: string): seq<Aggregate> { Present(Fold(log, m), me) }

  /** Who stands under which emoji is what the log last said, each in the order of its add. */
  method AggregateReactions(events: Log, messageId: string, me: string) returns (r: seq<Aggregate>)
    ensures AggregateRight(r, events, messageId, me)
    ensures r == AggregateOf(events, messageId, me)
  {
    var byEmoji: State := [];
    for i := 0 to |events|
      invariant StateRight(byEmoji, events, messageId, i)
      invariant byEmoji == Fold(events[..i], messageId)
    {
      ApplyRight(byEmoji, events, messageId, i);
      assert events[..i + 1][..i] == events[..i];
      byEmoji := ApplyEvent(byEmoji, events[i], messageId);
    }
    assert events[..|events|] == events;
    r := Present(byEmoji, me);
    PresentRight(byEmoji, events, messageId, me);
  }

  // ---- other messages and other kinds of event ----

  predicate Concerns(e: ChatEvent, m: string) { e.event == "ReactionAdded" && e.messageId == Some(m) }

  function Concerning(log: Log, m: string): Log {
    if log == [] then []
    else Concerning(log[..|log| - 1], m) + if Concerns(log[|log| - 1], m) then [log[|log| - 1]] else []
  }

  lemma {:induction false} FoldConcerning(log: Log, m: string)
    ensures Fold(Concerning(log, m), m) == Fold(log, m)
  {
    if log != [] {
      var front, last := log[..|log| - 1], log[|log| - 1];
      FoldConcerning(front, m);
      var kept := Concerning(front, m);
      if Concerns(last, m) {
        assert (kept + [last])[..|kept|] == kept;
      } else {
        assert kept + [] == kept;
      }
    }
  }

  /** Events about other messages, and of other kinds, leave the aggregate as it is. */
  lemma OthersDoNotMatter(log: Log, m: string, me: string)
    ensures AggregateOf(Concerning(log, m), m, me) == AggregateOf(log, m, me)
  {
    FoldConcerning(log, m);
  }

  // ---- first-add order ----

  /** The user retracted this emoji after having added it. */
  ghost predicate TakenBack(log: Log, m: string, emoji: string, user: string) {
    exists j, k | 0 <= j < k < |log| :: IsAdd(log, m, emoji, user, j) && IsRetract(log, m, emoji, user, k)
  }

  /** `i` is the user's first add of this emoji ever. */
  ghost predicate FirstEver(log: Log, m: string, emoji: string, user: string, i: nat) {
    IsAdd(log, m, emoji, user, i) && forall j | 0 <= j < i :: !IsAdd(log, m, emoji, user, j)
  }

  /** The add a listed user stands for is their first ever exactly when they never took it back. */
  lemma KeepsFirstPlaceExactly(log: Log, m: string, emoji: string, user: string, i: nat)
    requires AddedAt(log, m, emoji, user, |log|, i)
    ensures FirstEver(log, m, emoji, user, i) <==> !TakenBack(log, m, emoji, user)
  {
    if TakenBack(log, m, emoji, user) {
      var j, k :| 0 <= j < k < |log| && IsAdd(log, m, emoji, user, j) && IsRetract(log, m, emoji, user, k);
      assert k < i;
    }
    if j :| 0 <= j < i && IsAdd(log, m, emoji, user, j) {
      var k :| j < k < i && IsRetract(log, m, emoji, user, k);
    }
  }

  ghost predicate FirstEverBefore(log: Log, m: string, emoji: string, u: string, v: string) {
    exists i: nat, j: nat :: FirstEver(log, m, emoji, u, i) && FirstEver(log, m, emoji, v, j) && i < j
  }

  /** Where nobody took a reaction back, users do stand in the order of their first adds. */
  lemma FirstAddOrder(users: seq<string>, log: Log, m: string, emoji: string)
    requires InAddOrder(users, log, m, emoji) && forall u | u in users :: !TakenBack(log, m, emoji, u)
    ensures forall a, b | 0 <= a < b < |users| :: FirstEverBefore(log, m, emoji, users[a], users[b])
  {
    forall a, b | 0 <= a < b < |users| ensures FirstEverBefore(log, m, emoji, users[a], users[b]) {
      assert AddedBefore(log, m, emoji, users[a], users[b]);
      var i: nat, j: nat :| AddedAt(log, m, emoji, users[a], |log|, i) && AddedAt(log, m, emoji, users[b], |log|, j) && i < j;
      KeepsFirstPlaceExactly(log, m, emoji, users[a], i);
      KeepsFirstPlaceExactly(log, m, emoji, users[b], j);
    }
  }

  function Reaction(user: string, emoji: string): ChatEvent { ChatEvent("ReactionAdded", Some("m"), Some(user), Some(emoji)) }

  function TakenBackLog(): Log { [Reaction("u", "x"), Reaction("v", "x"), Reaction("u", "-x"), Reaction("u", "x")] }

  lemma TakenBackOps()
    ensures var log := TakenBackLog();
            && OpOf(log[0], "m") == Add("x", "u") && OpOf(log[1], "m") == Add("x", "v")
            && OpOf(log[2], "m") == Retract("x", "u") && OpOf(log[3], "m") == Add("x", "u")
  {
    assert "-x"[1..] == "x";
  }

  lemma TakenBackPlaces(i: nat)
    ensures AddedAt(TakenBackLog(), "m", "x", "u", 4, i) ==> i == 3
    ensures AddedAt(TakenBackLog(), "m", "x", "v", 4, i) ==> i == 1
  {
    TakenBackOps();
    var log := TakenBackLog();
    assert IsRetract(log, "m", "x", "u", 2);
    assert "u" != "v";
    assert i < 4 ==> i == 0 || i == 1 || i == 2 || i == 3;
  }

  lemma TakenBackFacts()
    ensures FirstEver(TakenBackLog(), "m", "x", "u", 0) && FirstEver(TakenBackLog(), "m", "x", "v", 1)
    ensures LastIsAdd(TakenBackLog(), "m", "x", "u", 4) && LastIsAdd(TakenBackLog(), "m", "x", "v", 4)
  {
    TakenBackOps();
    assert "u" != "v";
    assert IsAdd(TakenBackLog(), "m", "x", "u", 3) && IsAdd(TakenBackLog(), "m", "x", "v", 1);
  }

  lemma ListedTogether(r: seq<Aggregate>, e: string, u: string, v: string) returns (i: nat)
    requires Listed(r, e, u) && Listed(r, e, v) && forall i, j | 0 <= i < j < |r| :: r[i].emoji != r[j].emoji
    ensures i < |r| && r[i].emoji == e && u in r[i].userIds && v in r[i].userIds
  {
    var j :| 0 <= j < |r| && r[j].emoji == e && u in r[j].userIds;
    var k :| 0 <= k < |r| && r[k].emoji == e && v in r[k].userIds;
    i := j;
  }

  lemma TakenBackOrder(users: seq<string>, a: nat, b: nat)
    requires InAddOrder(users, TakenBackLog(), "m", "x") && a < |users| && b < |users| && users[a] == "v" && users[b] == "u"
    ensures a < b
  {
    assert "u" != "v";
    if b < a {
      assert AddedBefore(TakenBackLog(), "m", "x", users[b], users[a]);
      var p: nat, q: nat :| AddedAt(TakenBackLog(), "m", "x", "u", 4, p) && AddedAt(TakenBackLog(), "m", "x", "v", 4, q) && p < q;
      TakenBackPlaces(p);
      TakenBackPlaces(q);
    }
  }

  /** u adds, v adds, u retracts and adds again: u added first, and v is listed first. */
  lemma RetractionLosesThePlace(r: seq<Aggregate>, me: string)
    requires AggregateRight(r, TakenBackLog(), "m", me)
    ensures FirstEver(TakenBackLog(), "m", "x", "u", 0) && FirstEver(TakenBackLog(), "m", "x", "v", 1)
    ensures exists i, a, b | 0 <= i < |r| && 0 <= a < b < |r[i].userIds| ::
              r[i].emoji == "x" && r[i].userIds[a] == "v" && r[i].userIds[b] == "u"
  {
    TakenBackFacts();
    assert Listed(r, "x", "u") && Listed(r, "x", "v");
    var i := ListedTogether(r, "x", "u", "v");
    var b :| 0 <= b < |r[i].userIds| && r[i].userIds[b] == "u";
    var a :| 0 <= a < |r[i].userIds| && r[i].userIds[a] == "v";
    TakenBackOrder(r[i].userIds, a, b);
  }
}
