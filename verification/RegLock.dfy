/** The registration lock: its store, the login gate, and the backoff over whole runs. */
module RegLock {
  import opened Text

  // ---- 64-bit arithmetic ----

  const I64_MAX := 0x7FFF_FFFF_FFFF_FFFF
  const I64_MIN := -0x8000_0000_0000_0000

  function Saturate(x: int): int { if x > I64_MAX then I64_MAX else if x < I64_MIN then I64_MIN else x }

  /** Two's-complement wrap-around of plain `+` and `*`. */
  function Wrap(x: int): int { (x - I64_MIN) % 0x1_0000_0000_0000_0000 + I64_MIN }

  // ---- backoff ----

  const LOCKOUT_THRESHOLD := 3
  const LOCKOUT_MAX_SECONDS := 3600

  function Pow2(n: nat): (r: nat)
    ensures r >= 1
  {
    if n == 0 then 1 else 2 * Pow2(n - 1)
  }

  function LockoutWaitSeconds(failures: int): (w: int)
    ensures 0 <= w <= LOCKOUT_MAX_SECONDS
    ensures w == 0 <==> failures < LOCKOUT_THRESHOLD
  {
    if failures < LOCKOUT_THRESHOLD then 0
    else
      var exp := failures - LOCKOUT_THRESHOLD;
      if exp >= 12 then LOCKOUT_MAX_SECONDS
      else if Pow2(exp) < LOCKOUT_MAX_SECONDS then Pow2(exp) else LOCKOUT_MAX_SECONDS
  }

  /** Whole seconds until `untilMs`, rounded up; 0 when it has passed. */
  function SecondsUntil(untilMs: int, nowMs: int): int {
    var delta := Saturate(untilMs - nowMs);
    if delta <= 0 then 0 else Wrap(delta + 999) / 1000
  }

  /** The advertised wait is enough, and no smaller number of whole seconds is. */
  lemma SecondsUntilIsLeast(untilMs: int, nowMs: int)
    requires untilMs - nowMs <= I64_MAX - 999
    ensures var s := SecondsUntil(untilMs, nowMs);
            && 0 <= s && untilMs <= nowMs + 1000 * s
            && forall t | 0 <= t < s :: untilMs > nowMs + 1000 * t
  {
    var delta := untilMs - nowMs;
    if delta > 0 {
      assert Wrap(delta + 999) == delta + 999;
      var s := (delta + 999) / 1000;
      assert 1000 * s <= delta + 999 < 1000 * s + 1000;
      forall t | 0 <= t < s ensures untilMs > nowMs + 1000 * t {
        assert 1000 * t <= 1000 * (s - 1);
      }
    }
  }

  // ---- rows ----

  datatype Row = Row(
    verifierHash: string, salt: string, enabled: bool, failedAttempts: int, lockedUntilMs: int, lastActivityMs: int)

  function EnabledRow(hash: string -> string, verifier: string, salt: string, nowMs: int): Row {
    Row(hash(verifier), salt, true, 0, 0, nowMs)
  }

  function DisabledRow(row: Row): Row {
    if row.enabled then row.(enabled := false, failedAttempts := 0, lockedUntilMs := 0) else row
  }

  function FailedRow(row: Row, nowMs: int): Row {
    var failures := row.failedAttempts + 1;
    var wait := LockoutWaitSeconds(failures);
    row.(failedAttempts := failures, lockedUntilMs := if wait > 0 then Wrap(nowMs + wait * 1000) else 0)
  }

  function SucceededRow(row: Row, nowMs: int): Row {
    row.(failedAttempts := 0, lockedUntilMs := 0, lastActivityMs := nowMs)
  }

  // ---- the gate, on one user's row ----

  datatype Outcome =
    | Admitted
    | RateLimited(salt: string, failedAttempts: int, retryAfterSeconds: int)
    | PinRequired(salt: string, failedAttempts: int)
    | PinIncorrect(salt: string, failedAttempts: int, retryAfterSeconds: int)

  /** The account has been idle for the whole window or longer. */
  predicate Lapsed(expirySeconds: int, row: Row, nowMs: int) {
    Saturate(nowMs - row.lastActivityMs) >= Saturate(expirySeconds * 1000)
  }

  predicate Enforced(expirySeconds: int, row: Option<Row>, nowMs: int) {
    row.Some? && row.value.enabled && !Lapsed(expirySeconds, row.value, nowMs)
  }

  /** The gate gets as far as comparing the submitted verifier. */
  predicate Evaluates(expirySeconds: int, row: Option<Row>, submitted: Option<string>, nowMs: int) {
    && Enforced(expirySeconds, row, nowMs) && row.value.lockedUntilMs <= nowMs
    && submitted.Some? && submitted.value != ""
  }

  function Gate(hash: string -> string, expirySeconds: int, row: Option<Row>, submitted: Option<string>, nowMs: int): (Option<Row>, Outcome) {
    if !Enforced(expirySeconds, row, nowMs) then (row, Admitted)
    else
      var r := row.value;
      if r.lockedUntilMs > nowMs then (row, RateLimited(r.salt, r.failedAttempts, SecondsUntil(r.lockedUntilMs, nowMs)))
      else if submitted.None? || submitted.value == "" then (row, PinRequired(r.salt, r.failedAttempts))
      else if hash(submitted.value) == r.verifierHash then (Some(SucceededRow(r, nowMs)), Admitted)
      else
        var f := FailedRow(r, nowMs);
        (Some(f), PinIncorrect(r.salt, f.failedAttempts, SecondsUntil(f.lockedUntilMs, nowMs)))
  }

  // ---- the store and the gate over it ----

  class LockStore {
    const hash: string -> string
    var rows: map<(string, string), Row>

    constructor (hash: string -> string)
      ensures this.hash == hash && rows == map[]
    {
      this.hash := hash;
      rows := map[];
    }

    function RowOf(tenant: string, user: string): Option<Row>
      reads this
    {
      if (tenant, user) in rows then Some(rows[(tenant, user)]) else None
    }

    method Enable(tenant: string, user: string, verifier: string, salt: string, nowMs: int)
      modifies this
      ensures rows == old(rows)[(tenant, user) := EnabledRow(hash, verifier, salt, nowMs)]
    {
      rows := rows[(tenant, user) := Row(hash(verifier), salt, true, 0, 0, nowMs)];
    }

    method Disable(tenant: string, user: string) returns (changed: bool)
      modifies this
      ensures changed <==> old(RowOf(tenant, user)).Some? && old(RowOf(tenant, user)).value.enabled
      ensures rows == if old(RowOf(tenant, user)).None? then old(rows)
                      else old(rows)[(tenant, user) := DisabledRow(old(rows)[(tenant, user)])]
    {
      changed := (tenant, user) in rows && rows[(tenant, user)].enabled;
      if changed {
        rows := rows[(tenant, user) := rows[(tenant, user)].(enabled := false, failedAttempts := 0, lockedUntilMs := 0)];
      }
    }

    method Verify(tenant: string, user: string, verifier: string) returns (matched: bool)
      ensures matched <==> RowOf(tenant, user).Some? && hash(verifier) == RowOf(tenant, user).value.verifierHash
    {
      matched := (tenant, user) in rows && hash(verifier) == rows[(tenant, user)].verifierHash;
    }

    method RegisterFailure(tenant: string, user: string, nowMs: int) returns (updated: Option<Row>)
      modifies this
      ensures rows == if old(RowOf(tenant, user)).None? then old(rows)
                      else old(rows)[(tenant, user) := FailedRow(old(rows)[(tenant, user)], nowMs)]
      ensures updated == RowOf(tenant, user)
    {
      if (tenant, user) !in rows {
        return None;
      }
      var row := rows[(tenant, user)];
      var failures := row.failedAttempts + 1;
      var waitSeconds := LockoutWaitSeconds(failures);
      var lockedUntilMs := if waitSeconds > 0 then Wrap(nowMs + waitSeconds * 1000) else 0;
      rows := rows[(tenant, user) := row.(failedAttempts := failures, lockedUntilMs := lockedUntilMs)];
      updated := Some(rows[(tenant, user)]);
    }

    method RegisterSuccess(tenant: string, user: string, nowMs: int)
      modifies this
      ensures rows == if old(RowOf(tenant, user)).None? then old(rows)
                      else old(rows)[(tenant, user) := SucceededRow(old(rows)[(tenant, user)], nowMs)]
    {
      if (tenant, user) in rows {
        rows := rows[(tenant, user) := rows[(tenant, user)].(failedAttempts := 0, lockedUntilMs := 0, lastActivityMs := nowMs)];
      }
    }

    method TouchActivity(tenant: string, user: string, nowMs: int)
      modifies this
      ensures rows == if old(RowOf(tenant, user)).None? then old(rows)
                      else old(rows)[(tenant, user) := old(rows)[(tenant, user)].(lastActivityMs := nowMs)]
    {
      if (tenant, user) in rows {
        rows := rows[(tenant, user) := rows[(tenant, user)].(lastActivityMs := nowMs)];
      }
    }

    /** Reading the status changes nothing. */
    method Status(tenant: string, user: string) returns (enabled: bool)
      ensures enabled <==> RowOf(tenant, user).Some? && RowOf(tenant, user).value.enabled
    {
      enabled := (tenant, user) in rows && rows[(tenant, user)].enabled;
    }

    /** The gate moves this user's row as `Gate` says, and touches no other row. */
    method CheckRegistrationLock(expirySeconds: int, tenant: string, user: string, submitted: Option<string>, nowMs: int) returns (o: Outcome)
      modifies this
      ensures (RowOf(tenant, user), o) == Gate(hash, expirySeconds, old(RowOf(tenant, user)), submitted, nowMs)
      ensures rows - {(tenant, user)} == old(rows) - {(tenant, user)}
    {
      var row := RowOf(tenant, user);
      if row.None? || !row.value.enabled {
        return Admitted;
      }
      var record := row.value;
      var expiryMs := Saturate(expirySeconds * 1000);
      if Saturate(nowMs - record.lastActivityMs) >= expiryMs {
        return Admitted;
      }
      if record.lockedUntilMs > nowMs {
        return RateLimited(record.salt, record.failedAttempts, SecondsUntil(record.lockedUntilMs, nowMs));
      }
      if submitted.None? || submitted.value == "" {
        return PinRequired(record.salt, record.failedAttempts);
      }
      var matched := Verify(tenant, user, submitted.value);
      if matched {
        RegisterSuccess(tenant, user, nowMs);
        return Admitted;
      }
      var updated := RegisterFailure(tenant, user, nowMs);
      o := PinIncorrect(record.salt, updated.value.failedAttempts, SecondsUntil(updated.value.lockedUntilMs, nowMs));
    }
  }

  // ---- runs ----

  /** What can happen to one user's lock. */
  datatype Event =
    | Login(submitted: Option<string>, atMs: int)
    | Enable(verifier: string, salt: string, atMs: int)
    | Disable(atMs: int)
    | Touch(atMs: int)
    | Status(atMs: int)

  function NextRow(hash: string -> string, expirySeconds: int, row: Option<Row>, e: Event): Option<Row> {
    match e
    case Login(submitted, t) => Gate(hash, expirySeconds, row, submitted, t).0
    case Enable(verifier, salt, t) => Some(EnabledRow(hash, verifier, salt, t))
    case Disable(_) => if row.Some? then Some(DisabledRow(row.value)) else None
    case Touch(t) => if row.Some? then Some(row.value.(lastActivityMs := t)) else None
    case Status(_) => row
  }

  /** The times of the wrong verifiers evaluated since the counters were last reset. */
  function NextFailures(hash: string -> string, expirySeconds: int, row: Option<Row>, failures: seq<int>, e: Event): seq<int> {
    match e
    case Login(submitted, t) =>
      if !Evaluates(expirySeconds, row, submitted, t) then failures
      else if hash(submitted.value) == row.value.verifierHash then []
      else failures + [t]
    case Enable(_, _, _) => []
    case Disable(_) => if row.Some? && row.value.enabled then [] else failures
    case Touch(_) => failures
    case Status(_) => failures
  }

  function Replay(hash: string -> string, expirySeconds: int, row: Option<Row>, events: seq<Event>): Option<Row> {
    if events == [] then row
    else NextRow(hash, expirySeconds, Replay(hash, expirySeconds, row, events[..|events| - 1]), events[|events| - 1])
  }

  /** The row after a run that starts without one. */
  function RowAfter(hash: string -> string, expirySeconds: int, events: seq<Event>): Option<Row> {
    Replay(hash, expirySeconds, None, events)
  }

  function FailuresAfter(hash: string -> string, expirySeconds: int, events: seq<Event>): seq<int> {
    if events == [] then []
    else
      var front := events[..|events| - 1];
      NextFailures(hash, expirySeconds, RowAfter(hash, expirySeconds, front), FailuresAfter(hash, expirySeconds, front), events[|events| - 1])
  }

  /** The clock never reads before the epoch or within about an hour of 64-bit overflow. */
  ghost predicate ClockOk(events: seq<Event>) { forall i | 0 <= i < |events| :: 0 <= events[i].atMs <= I64_MAX - 3_600_999 }

  /** Each failure from the fourth on waited out the lockout set by the one before it. */
  ghost predicate Spaced(failures: seq<int>) {
    forall k | 3 <= k < |failures| :: failures[k] >= failures[k - 1] + 1000 * LockoutWaitSeconds(k)
  }

  /** What the row records about the failures. */
  ghost predicate Records(row: Option<Row>, failures: seq<int>) {
    match row
    case None => failures == []
    case Some(r) =>
      && r.failedAttempts == |failures|
      && r.lockedUntilMs == (if |failures| >= 3 then failures[|failures| - 1] + 1000 * LockoutWaitSeconds(|failures|) else 0)
      && r.lockedUntilMs <= I64_MAX - 999
  }

  lemma WrapIsExact(x: int)
    requires I64_MIN <= x <= I64_MAX
    ensures Wrap(x) == x
  {
  }

  /** A failure is evaluated only after the lockout of the one before it, and records its own. */
  lemma FailureKeepsRecords(row: Row, failures: seq<int>, t: int)
    requires Records(Some(row), failures) && Spaced(failures) && 0 <= t <= I64_MAX - 3_600_999 && row.lockedUntilMs <= t
    ensures Records(Some(FailedRow(row, t)), failures + [t]) && Spaced(failures + [t])
  {
    WrapIsExact(t + LockoutWaitSeconds(|failures| + 1) * 1000);
    var next := failures + [t];
    assert forall k | 0 <= k < |failures| :: next[k] == failures[k];
  }

  lemma StepKeepsRecords(hash: string -> string, expirySeconds: int, row: Option<Row>, failures: seq<int>, e: Event)
    requires Records(row, failures) && Spaced(failures) && 0 <= e.atMs <= I64_MAX - 3_600_999
    ensures Records(NextRow(hash, expirySeconds, row, e), NextFailures(hash, expirySeconds, row, failures, e))
    ensures Spaced(NextFailures(hash, expirySeconds, row, failures, e))
  {
    if e.Login? && Evaluates(expirySeconds, row, e.submitted, e.atMs) && hash(e.submitted.value) != row.value.verifierHash {
      FailureKeepsRecords(row.value, failures, e.atMs);
    }
  }

  /** Over every run, the row records the failures since the last reset, and they are spaced out. */
  lemma {:induction false} EveryRunIsSpaced(hash: string -> string, expirySeconds: int, events: seq<Event>)
    requires ClockOk(events)
    ensures Records(RowAfter(hash, expirySeconds, events), FailuresAfter(hash, expirySeconds, events))
    ensures Spaced(FailuresAfter(hash, expirySeconds, events))
  {
    if events != [] {
      var front := events[..|events| - 1];
      EveryRunIsSpaced(hash, expirySeconds, front);
      StepKeepsRecords(hash, expirySeconds, RowAfter(hash, expirySeconds, front), FailuresAfter(hash, expirySeconds, front), events[|events| - 1]);
    }
  }

  /** Seconds that must pass between the third failure and the `n`-th. */
  function BackoffSeconds(n: nat): int
    requires n >= 3
  {
    if n <= 15 then Pow2(n - 3) - 1 else 4095 + 3600 * (n - 15)
  }

  lemma {:induction false} Pow2Values()
    ensures Pow2(11) == 2048 && Pow2(12) == 4096
  {
    assert Pow2(4) == 16;
    assert Pow2(8) == 256;
  }

  lemma {:induction false} Pow2Monotone(m: nat, n: nat)
    requires m <= n
    ensures Pow2(m) <= Pow2(n)
  {
    if m < n {
      Pow2Monotone(m, n - 1);
    }
  }

  lemma BackoffStep(n: nat)
    requires n >= 3
    ensures BackoffSeconds(n + 1) == BackoffSeconds(n) + LockoutWaitSeconds(n)
  {
    Pow2Values();
    if n < 15 {
      Pow2Monotone(n - 3, 11);
    }
  }

  lemma {:induction false} SpacingAddsUp(failures: seq<int>, n: nat)
    requires Spaced(failures) && 3 <= n <= |failures|
    ensures failures[n - 1] >= failures[2] + 1000 * BackoffSeconds(n)
  {
    if n > 3 {
      SpacingAddsUp(failures, n - 1);
      BackoffStep(n - 1);
    }
  }

  /** In every run, the `n`-th wrong verifier since a reset is that long after the third. */
  lemma BackoffBound(hash: string -> string, expirySeconds: int, events: seq<Event>, n: nat)
    requires ClockOk(events) && 3 <= n <= |FailuresAfter(hash, expirySeconds, events)|
    ensures var f := FailuresAfter(hash, expirySeconds, events);
            f[n - 1] - f[2] >= 1000 * (if n <= 15 then Pow2(n - 3) - 1 else 4095 + 3600 * (n - 15))
  {
    EveryRunIsSpaced(hash, expirySeconds, events);
    SpacingAddsUp(FailuresAfter(hash, expirySeconds, events), n);
  }

  // ---- how many wrong verifiers fit into a window ----

  /** A login without the right verifier, or a look at the status. */
  predicate IsWrong(hash: string -> string, verifierHash: string, e: Event) {
    e.Status? || (e.Login? && (e.submitted.Some? ==> hash(e.submitted.value) != verifierHash))
  }

  /** Whatever is evaluated falls inside the window. */
  ghost predicate InWindow(failures: seq<int>, fromMs: int, expirySeconds: int) {
    forall i | 0 <= i < |failures| :: fromMs <= failures[i] < fromMs + 1000 * expirySeconds
  }

  lemma WrongStep(hash: string -> string, expirySeconds: int, row: Row, failures: seq<int>, e: Event)
    requires IsWrong(hash, row.verifierHash, e) && row.lastActivityMs <= e.atMs && 0 <= row.lastActivityMs && e.atMs <= I64_MAX
    requires InWindow(failures, row.lastActivityMs, expirySeconds)
    ensures var next := NextRow(hash, expirySeconds, Some(row), e);
            next.Some? && next.value.verifierHash == row.verifierHash && next.value.lastActivityMs == row.lastActivityMs
    ensures InWindow(NextFailures(hash, expirySeconds, Some(row), failures, e), row.lastActivityMs, expirySeconds)
  {
  }

  /** A run that goes on without the right verifier, a touch or a reset. */
  ghost predicate WrongRun(hash: string -> string, row: Option<Row>, events: seq<Event>) {
    && row.Some? && 0 <= row.value.lastActivityMs
    && forall i | 0 <= i < |events| :: IsWrong(hash, row.value.verifierHash, events[i]) && row.value.lastActivityMs <= events[i].atMs <= I64_MAX
  }

  lemma {:induction false} WrongRunStays(hash: string -> string, expirySeconds: int, prefix: seq<Event>, wrong: seq<Event>)
    requires FailuresAfter(hash, expirySeconds, prefix) == [] && WrongRun(hash, RowAfter(hash, expirySeconds, prefix), wrong)
    ensures var first, row := RowAfter(hash, expirySeconds, prefix).value, RowAfter(hash, expirySeconds, prefix + wrong);
            && row.Some? && row.value.verifierHash == first.verifierHash && row.value.lastActivityMs == first.lastActivityMs
            && InWindow(FailuresAfter(hash, expirySeconds, prefix + wrong), first.lastActivityMs, expirySeconds)
  {
    if wrong == [] {
      assert prefix + wrong == prefix;
    } else {
      var front, last := wrong[..|wrong| - 1], wrong[|wrong| - 1];
      WrongRunStays(hash, expirySeconds, prefix, front);
      var all := prefix + wrong;
      assert all[..|all| - 1] == prefix + front && all[|all| - 1] == last;
      WrongStep(hash, expirySeconds, RowAfter(hash, expirySeconds, prefix + front).value, FailuresAfter(hash, expirySeconds, prefix + front), last);
    }
  }

  /** From a reset on, the wrong verifiers evaluated before the window lapses all fit into it with their waits. */
  lemma GuessesBeforeLapse(hash: string -> string, expirySeconds: int, prefix: seq<Event>, wrong: seq<Event>)
    requires ClockOk(prefix + wrong)
    requires FailuresAfter(hash, expirySeconds, prefix) == [] && WrongRun(hash, RowAfter(hash, expirySeconds, prefix), wrong)
    ensures var n := |FailuresAfter(hash, expirySeconds, prefix + wrong)|; n >= 3 ==> BackoffSeconds(n) < expirySeconds
  {
    var f := FailuresAfter(hash, expirySeconds, prefix + wrong);
    WrongRunStays(hash, expirySeconds, prefix, wrong);
    if |f| >= 3 {
      BackoffBound(hash, expirySeconds, prefix + wrong, |f|);
    }
  }

  /** With the default window of a week, that is 181 at most, however long the run goes on. */
  lemma WeekOfGuesses(hash: string -> string, prefix: seq<Event>, wrong: seq<Event>)
    requires ClockOk(prefix + wrong)
    requires FailuresAfter(hash, 604_800, prefix) == [] && WrongRun(hash, RowAfter(hash, 604_800, prefix), wrong)
    ensures |FailuresAfter(hash, 604_800, prefix + wrong)| <= 181
  {
    GuessesBeforeLapse(hash, 604_800, prefix, wrong);
  }

  // ---- users are independent ----

  /** An event of one user, `(tenant, user)`. */
  type UserEvent = ((string, string), Event)

  /** The whole table after a run in which the events of all users interleave. */
  function TableAfter(hash: string -> string, expirySeconds: int, events: seq<UserEvent>): map<(string, string), Row> {
    if events == [] then map[]
    else
      var rows := TableAfter(hash, expirySeconds, events[..|events| - 1]);
      var (user, e) := events[|events| - 1];
      match NextRow(hash, expirySeconds, if user in rows then Some(rows[user]) else None, e)
      case None => rows
      case Some(row) => rows[user := row]
  }

  function EventsOf(user: (string, string), events: seq<UserEvent>): seq<Event> {
    if events == [] then []
    else
      var last := events[|events| - 1];
      EventsOf(user, events[..|events| - 1]) + if last.0 == user then [last.1] else []
  }

  /** However the users' events interleave, each row is what that user's own events make it. */
  lemma {:induction false} UsersAreIndependent(hash: string -> string, expirySeconds: int, events: seq<UserEvent>, user: (string, string))
    ensures var rows := TableAfter(hash, expirySeconds, events);
            (if user in rows then Some(rows[user]) else None) == RowAfter(hash, expirySeconds, EventsOf(user, events))
  {
    if events != [] {
      var front, last := events[..|events| - 1], events[|events| - 1];
      UsersAreIndependent(hash, expirySeconds, front, user);
      var own := EventsOf(user, front);
      if last.0 == user {
        assert (own + [last.1])[..|own|] == own;
      } else {
        assert own + [] == own;
      }
    }
  }

  // ---- what the gate tells the caller ----

  /** Event `k` turned the lock on, and nothing has replaced or disabled it since. */
  predicate StandsAt(events: seq<Event>, k: int) {
    0 <= k < |events| && events[k].Enable? && forall j | k < j < |events| :: !events[j].Enable? && !events[j].Disable?
  }

  /** The row is enabled exactly while an enabling stands, and then holds that verifier's hash. */
  lemma {:induction false} RowIsStanding(hash: string -> string, expirySeconds: int, events: seq<Event>)
    ensures var row := RowAfter(hash, expirySeconds, events);
            && (row.Some? && row.value.enabled <==> exists k :: StandsAt(events, k))
            && (forall k | StandsAt(events, k) ::
                  row.Some? && row.value.verifierHash == hash(events[k].verifier) && row.value.salt == events[k].salt)
  {
    if events != [] {
      var n := |events| - 1;
      var front, last := events[..n], events[n];
      RowIsStanding(hash, expirySeconds, front);
      forall k ensures StandsAt(events, k) <==> (k == n && last.Enable?) || (StandsAt(front, k) && !last.Enable? && !last.Disable?) {
        StandsStep(events, k);
      }
      if last.Enable? {
        assert StandsAt(events, n);
      }
    }
  }

  lemma StandsStep(events: seq<Event>, k: int)
    requires events != []
    ensures var n := |events| - 1;
            StandsAt(events, k) <==> (k == n && events[n].Enable?) || (StandsAt(events[..n], k) && !events[n].Enable? && !events[n].Disable?)
  {
    var n := |events| - 1;
    if StandsAt(events[..n], k) {
      assert events[..n][k] == events[k];
      assert forall j | k < j < n :: events[j] == events[..n][j];
    }
    if StandsAt(events, k) && k < n {
      assert forall j | k < j < n :: events[..n][j] == events[j];
    }
  }

  lemma GateAdmits(hash: string -> string, expirySeconds: int, row: Option<Row>, submitted: Option<string>, nowMs: int)
    ensures Gate(hash, expirySeconds, row, submitted, nowMs).1.Admitted? <==>
            || row.None? || !row.value.enabled || Lapsed(expirySeconds, row.value, nowMs)
            || (row.value.lockedUntilMs <= nowMs && submitted.Some? && submitted.value != "" && hash(submitted.value) == row.value.verifierHash)
  {
  }

  /** The verifier is the one the standing lock was enabled with. */
  ghost predicate IsStandingVerifier(hash: string -> string, events: seq<Event>, verifier: string) {
    exists k :: StandsAt(events, k) && hash(verifier) == hash(events[k].verifier)
  }

  /** The lockout of the last failure is over. */
  predicate WaitOver(failures: seq<int>, nowMs: int) {
    |failures| < 3 || failures[|failures| - 1] + 1000 * LockoutWaitSeconds(|failures|) <= nowMs
  }

  ghost predicate Standing(events: seq<Event>) { exists k :: StandsAt(events, k) }

  /** A login at `nowMs` has its verifier looked at: a lock stands, the window is open, and the last wait is over. */
  ghost predicate Challenges(hash: string -> string, expirySeconds: int, events: seq<Event>, nowMs: int)
    decreases |events|, 1
  {
    && Standing(events) && nowMs - LastStamp(hash, expirySeconds, events) < 1000 * expirySeconds
    && WaitOver(FailuresAfter(hash, expirySeconds, events), nowMs)
  }

  predicate Submitted(verifier: Option<string>) { verifier.Some? && verifier.value != "" }

  /** When activity was last stamped: by enabling, by a touch, or by a login that answered the challenge. */
  ghost function LastStamp(hash: string -> string, expirySeconds: int, events: seq<Event>): int
    decreases |events|, 0
  {
    if events == [] then 0
    else
      var front, last := events[..|events| - 1], events[|events| - 1];
      match last
      case Enable(_, _, t) => t
      case Touch(t) => t
      case Login(submitted, t) =>
        if Challenges(hash, expirySeconds, front, t) && Submitted(submitted) && IsStandingVerifier(hash, front, submitted.value)
        then t else LastStamp(hash, expirySeconds, front)
      case _ => LastStamp(hash, expirySeconds, front)
  }

  /** On the clock, 64-bit saturation never shows: the window is that many seconds. */
  lemma LapsedInNumbers(expirySeconds: int, row: Row, nowMs: int)
    requires 0 <= row.lastActivityMs <= I64_MAX - 3_600_999 && 0 <= nowMs && (nowMs < I64_MAX || 1000 * expirySeconds <= I64_MAX)
    ensures Lapsed(expirySeconds, row, nowMs) <==> nowMs - row.lastActivityMs >= 1000 * expirySeconds
  {
  }

  /** Over every run, the row's activity is the last stamp. */
  ghost predicate Stamped(hash: string -> string, expirySeconds: int, events: seq<Event>) {
    var row := RowAfter(hash, expirySeconds, events);
    && 0 <= LastStamp(hash, expirySeconds, events) <= I64_MAX - 3_600_999
    && (row.Some? ==> row.value.lastActivityMs == LastStamp(hash, expirySeconds, events))
  }

  /** The gate looks at the verifier exactly when the events say so. */
  lemma EvaluatesExactly(hash: string -> string, expirySeconds: int, events: seq<Event>, submitted: Option<string>, nowMs: int)
    requires ClockOk(events) && Stamped(hash, expirySeconds, events) && 0 <= nowMs && (nowMs < I64_MAX || 1000 * expirySeconds <= I64_MAX)
    ensures var row := RowAfter(hash, expirySeconds, events);
            && (row.Some? && row.value.enabled <==> Standing(events))
            && (row.Some? ==> (row.value.lockedUntilMs <= nowMs <==> WaitOver(FailuresAfter(hash, expirySeconds, events), nowMs)))
            && (row.Some? ==> (Lapsed(expirySeconds, row.value, nowMs) <==> nowMs - LastStamp(hash, expirySeconds, events) >= 1000 * expirySeconds))
            && (Evaluates(expirySeconds, row, submitted, nowMs) <==> Challenges(hash, expirySeconds, events, nowMs) && Submitted(submitted))
  {
    var row := RowAfter(hash, expirySeconds, events);
    RowIsStanding(hash, expirySeconds, events);
    EveryRunIsSpaced(hash, expirySeconds, events);
    if row.Some? {
      LapsedInNumbers(expirySeconds, row.value, nowMs);
    }
  }

  lemma RightVerifier(hash: string -> string, expirySeconds: int, events: seq<Event>, verifier: string)
    requires Standing(events)
    ensures var row := RowAfter(hash, expirySeconds, events);
            row.Some? && (hash(verifier) == row.value.verifierHash <==> IsStandingVerifier(hash, events, verifier))
  {
    RowIsStanding(hash, expirySeconds, events);
    var k :| StandsAt(events, k);
  }

  lemma {:induction false} EveryRunIsStamped(hash: string -> string, expirySeconds: int, events: seq<Event>)
    requires ClockOk(events)
    ensures Stamped(hash, expirySeconds, events)
  {
    if events != [] {
      var front, last := events[..|events| - 1], events[|events| - 1];
      EveryRunIsStamped(hash, expirySeconds, front);
      if last.Login? {
        EvaluatesExactly(hash, expirySeconds, front, last.submitted, last.atMs);
        if Challenges(hash, expirySeconds, front, last.atMs) && Submitted(last.submitted) {
          RightVerifier(hash, expirySeconds, front, last.submitted.value);
        }
      }
    }
  }

  /** Told by the events: a login is admitted when no lock stands, the window has passed, or its verifier is the standing one after the wait. */
  lemma AdmittedExactly(hash: string -> string, expirySeconds: int, events: seq<Event>, submitted: Option<string>, nowMs: int)
    requires ClockOk(events) && 0 <= nowMs && (nowMs < I64_MAX || 1000 * expirySeconds <= I64_MAX)
    ensures Gate(hash, expirySeconds, RowAfter(hash, expirySeconds, events), submitted, nowMs).1.Admitted? <==>
            || !Standing(events)
            || nowMs - LastStamp(hash, expirySeconds, events) >= 1000 * expirySeconds
            || (WaitOver(FailuresAfter(hash, expirySeconds, events), nowMs) && Submitted(submitted) && IsStandingVerifier(hash, events, submitted.value))
  {
    EveryRunIsStamped(hash, expirySeconds, events);
    EvaluatesExactly(hash, expirySeconds, events, submitted, nowMs);
    GateAdmits(hash, expirySeconds, RowAfter(hash, expirySeconds, events), submitted, nowMs);
    if Standing(events) && submitted.Some? {
      RightVerifier(hash, expirySeconds, events, submitted.value);
    }
  }

  /** While a lock stands and its window is open, nobody is admitted without a verifier. */
  lemma NoVerifierNoEntry(hash: string -> string, expirySeconds: int, events: seq<Event>, submitted: Option<string>, nowMs: int)
    requires ClockOk(events) && 0 <= nowMs && (nowMs < I64_MAX || 1000 * expirySeconds <= I64_MAX)
    requires Standing(events) && nowMs < LastStamp(hash, expirySeconds, events) + 1000 * expirySeconds && !Submitted(submitted)
    ensures !Gate(hash, expirySeconds, RowAfter(hash, expirySeconds, events), submitted, nowMs).1.Admitted?
  {
    AdmittedExactly(hash, expirySeconds, events, submitted, nowMs);
  }

  /** Which refusal, with the standing salt and the failures so far: the wait first, then a missing verifier, then a wrong one. */
  lemma RefusedExactly(hash: string -> string, expirySeconds: int, events: seq<Event>, submitted: Option<string>, nowMs: int)
    requires ClockOk(events) && 0 <= nowMs && (nowMs < I64_MAX || 1000 * expirySeconds <= I64_MAX)
    requires !Gate(hash, expirySeconds, RowAfter(hash, expirySeconds, events), submitted, nowMs).1.Admitted?
    ensures var o, f := Gate(hash, expirySeconds, RowAfter(hash, expirySeconds, events), submitted, nowMs).1, FailuresAfter(hash, expirySeconds, events);
            && (o.RateLimited? <==> !WaitOver(f, nowMs))
            && (o.PinRequired? <==> WaitOver(f, nowMs) && !Submitted(submitted))
            && (o.PinIncorrect? <==> WaitOver(f, nowMs) && Submitted(submitted))
            && o.failedAttempts == (if o.PinIncorrect? then |f| + 1 else |f|)
            && exists k :: StandsAt(events, k) && o.salt == events[k].salt
  {
    EveryRunIsStamped(hash, expirySeconds, events);
    EvaluatesExactly(hash, expirySeconds, events, submitted, nowMs);
    AdmittedExactly(hash, expirySeconds, events, submitted, nowMs);
    RowIsStanding(hash, expirySeconds, events);
    EveryRunIsSpaced(hash, expirySeconds, events);
  }

  /** What counts as a failure: a wrong verifier that was looked at. The right one starts the count afresh. */
  lemma FailuresExactly(hash: string -> string, expirySeconds: int, events: seq<Event>, submitted: Option<string>, atMs: int)
    requires ClockOk(events) && 0 <= atMs && (atMs < I64_MAX || 1000 * expirySeconds <= I64_MAX)
    ensures FailuresAfter(hash, expirySeconds, events + [Login(submitted, atMs)]) ==
            if !Challenges(hash, expirySeconds, events, atMs) || !Submitted(submitted) then FailuresAfter(hash, expirySeconds, events)
            else if IsStandingVerifier(hash, events, submitted.value) then []
            else FailuresAfter(hash, expirySeconds, events) + [atMs]
  {
    var all := events + [Login(submitted, atMs)];
    assert all[..|all| - 1] == events;
    EveryRunIsStamped(hash, expirySeconds, events);
    EvaluatesExactly(hash, expirySeconds, events, submitted, atMs);
    if Challenges(hash, expirySeconds, events, atMs) && Submitted(submitted) {
      RightVerifier(hash, expirySeconds, events, submitted.value);
    }
  }

  /** The wait a refused login is told clears the lockout, and no shorter whole number of seconds does. */
  lemma RetryAfterIsExact(hash: string -> string, expirySeconds: int, events: seq<Event>, submitted: Option<string>, nowMs: int)
    requires ClockOk(events) && 0 <= nowMs <= I64_MAX - 3_600_999
    requires Gate(hash, expirySeconds, RowAfter(hash, expirySeconds, events), submitted, nowMs).1.RateLimited?
          || Gate(hash, expirySeconds, RowAfter(hash, expirySeconds, events), submitted, nowMs).1.PinIncorrect?
    ensures var (after, o) := Gate(hash, expirySeconds, RowAfter(hash, expirySeconds, events), submitted, nowMs);
            && after.Some? && 0 <= o.retryAfterSeconds
            && after.value.lockedUntilMs <= nowMs + 1000 * o.retryAfterSeconds
            && forall s | 0 <= s < o.retryAfterSeconds :: after.value.lockedUntilMs > nowMs + 1000 * s
  {
    var row, failures := RowAfter(hash, expirySeconds, events), FailuresAfter(hash, expirySeconds, events);
    EveryRunIsSpaced(hash, expirySeconds, events);
    StepKeepsRecords(hash, expirySeconds, row, failures, Login(submitted, nowMs));
    var (after, o) := Gate(hash, expirySeconds, row, submitted, nowMs);
    SecondsUntilIsLeast(after.value.lockedUntilMs, nowMs);
  }

  /** After the advertised wait, the right verifier is admitted. */
  lemma WaitingAdmits(hash: string -> string, expirySeconds: int, events: seq<Event>, submitted: Option<string>, nowMs: int, right: string)
    requires ClockOk(events) && 0 <= nowMs <= I64_MAX - 3_600_999
    requires var o := Gate(hash, expirySeconds, RowAfter(hash, expirySeconds, events), submitted, nowMs).1; o.RateLimited? || o.PinIncorrect?
    requires right != "" && hash(right) == RowAfter(hash, expirySeconds, events).value.verifierHash
    ensures var (after, o) := Gate(hash, expirySeconds, RowAfter(hash, expirySeconds, events), submitted, nowMs);
            Gate(hash, expirySeconds, after, Some(right), nowMs + 1000 * o.retryAfterSeconds).1 == Admitted
  {
    RetryAfterIsExact(hash, expirySeconds, events, submitted, nowMs);
  }

  /** An admitted login refreshes the window exactly when the lock was enforced. */
  lemma LoginRefreshesExactly(hash: string -> string, expirySeconds: int, row: Row, submitted: Option<string>, nowMs: int)
    requires row.lastActivityMs != nowMs && Gate(hash, expirySeconds, Some(row), submitted, nowMs).1.Admitted?
    ensures Gate(hash, expirySeconds, Some(row), submitted, nowMs).0.value.lastActivityMs == nowMs <==>
            row.enabled && !Lapsed(expirySeconds, row, nowMs)
  {
  }

  /** Of the four ways to touch the row, disabling and reading the status leave the window alone. */
  lemma ManagementRefreshes(hash: string -> string, expirySeconds: int, row: Row, e: Event)
    requires !e.Login? && row.lastActivityMs != e.atMs
    ensures NextRow(hash, expirySeconds, Some(row), e).value.lastActivityMs == e.atMs <==> e.Enable? || e.Touch?
  {
  }

  lemma LapsedLater(expirySeconds: int, row: Row, other: Row, fromMs: int, nowMs: int)
    requires Lapsed(expirySeconds, row, fromMs) && nowMs >= fromMs && other.lastActivityMs == row.lastActivityMs
    ensures Lapsed(expirySeconds, other, nowMs)
  {
  }

  /** A lapsed row, or that row disabled. */
  predicate IsLeftover(row: Row, end: Option<Row>) { end == Some(row) || end == Some(DisabledRow(row)) }

  lemma LapsedStep(hash: string -> string, expirySeconds: int, row: Row, end: Option<Row>, e: Event)
    requires IsLeftover(row, end) && Lapsed(expirySeconds, end.value, e.atMs) && !e.Touch? && !e.Enable?
    ensures IsLeftover(row, NextRow(hash, expirySeconds, end, e))
    ensures e.Login? ==> Gate(hash, expirySeconds, end, e.submitted, e.atMs) == (end, Admitted)
  {
  }

  lemma {:induction false} LapsedIsLeftover(hash: string -> string, expirySeconds: int, row: Row, events: seq<Event>, fromMs: int)
    requires Lapsed(expirySeconds, row, fromMs)
    requires forall i | 0 <= i < |events| :: !events[i].Touch? && !events[i].Enable? && events[i].atMs >= fromMs
    ensures IsLeftover(row, Replay(hash, expirySeconds, Some(row), events))
  {
    if events != [] {
      var front, last := events[..|events| - 1], events[|events| - 1];
      LapsedIsLeftover(hash, expirySeconds, row, front, fromMs);
      var end := Replay(hash, expirySeconds, Some(row), front);
      LapsedLater(expirySeconds, row, end.value, fromMs, last.atMs);
      LapsedStep(hash, expirySeconds, row, end, last);
    }
  }

  /** Once the window has lapsed, only a touch or enabling anew revives it: every login is admitted and leaves the row alone. */
  lemma LapsedStaysLapsed(hash: string -> string, expirySeconds: int, row: Row, events: seq<Event>, fromMs: int)
    requires Lapsed(expirySeconds, row, fromMs)
    requires forall i | 0 <= i < |events| :: !events[i].Touch? && !events[i].Enable? && events[i].atMs >= fromMs
    ensures var end := Replay(hash, expirySeconds, Some(row), events);
            IsLeftover(row, end) && forall nowMs | nowMs >= fromMs :: Lapsed(expirySeconds, end.value, nowMs)
    ensures forall i | 0 <= i < |events| && events[i].Login? ::
              var before := Replay(hash, expirySeconds, Some(row), events[..i]);
              Gate(hash, expirySeconds, before, events[i].submitted, events[i].atMs) == (before, Admitted)
  {
    LapsedIsLeftover(hash, expirySeconds, row, events, fromMs);
    forall nowMs | nowMs >= fromMs ensures Lapsed(expirySeconds, Replay(hash, expirySeconds, Some(row), events).value, nowMs) {
      LapsedLater(expirySeconds, row, Replay(hash, expirySeconds, Some(row), events).value, fromMs, nowMs);
    }
    forall i | 0 <= i < |events| && events[i].Login?
      ensures var before := Replay(hash, expirySeconds, Some(row), events[..i]);
              Gate(hash, expirySeconds, before, events[i].submitted, events[i].atMs) == (before, Admitted)
    {
      var before := Replay(hash, expirySeconds, Some(row), events[..i]);
      LapsedIsLeftover(hash, expirySeconds, row, events[..i], fromMs);
      LapsedLater(expirySeconds, row, before.value, fromMs, events[i].atMs);
      LapsedStep(hash, expirySeconds, row, before, events[i]);
    }
  }
}
