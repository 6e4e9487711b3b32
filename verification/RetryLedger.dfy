/**
 The table worker_delivery_retries. A row counts the failures of one (operation, entity) pair,
 holds the earliest instant of the next attempt, and may suspend the pair altogether.
 Instants are whole seconds.
*/
module RetryLedger {
  import opened Prelude

  datatype Operation =
    | Progress | Alert
    | RoutineClose | RoutineCard | RoutineReminder | RoutineLeaderboard
    | GoalWeekly | GoalReminder | GoalFinal

  datatype Key = Key(op: Operation, id: int)

  datatype Entry = Entry(attempts: nat, nextAttemptAt: int, exhausted: bool)

  type Table = map<Key, Entry>

  const MINUTE := 60
  const MAX_ATTEMPTS: nat := 8

  predicate Blocks(e: Entry, now: int) {
    e.exhausted || e.nextAttemptAt > now
  }

  predicate Ready(t: Table, key: Key, now: int) {
    key in t ==> !Blocks(t[key], now)
  }

  predicate Exhausted(t: Table, key: Key) {
    key in t && t[key].exhausted
  }

  function Find(t: Table, key: Key): Option<Entry> {
    if key in t then Some(t[key]) else None
  }

  /** The upsert: `suspend` and the attempt count decide `exhausted`; its old value is not consulted. */
  function AfterFailure(prior: Option<Entry>, now: int, suspend: bool): Entry {
    match prior
    case None => Entry(1, now + MINUTE, suspend)
    case Some(e) =>
      Entry(Min(e.attempts + 1, MAX_ATTEMPTS),
            now + MINUTE * Pow2(Min(e.attempts, 6)),
            suspend || e.attempts + 1 >= MAX_ATTEMPTS)
  }

  function Recorded(t: Table, key: Key, now: int, suspend: bool): Table {
    t[key := AfterFailure(Find(t, key), now, suspend)]
  }

  class Ledger {
    var rows: Table

    constructor ()
      ensures rows == map[]
    {
      rows := map[];
    }

    /** A failed query reports `ok == false` and decides nothing. */
    method DeliveryReady(key: Key, now: int) returns (ready: bool, ok: bool)
      ensures ok ==> (ready <==> Ready(rows, key, now))
      ensures !ok ==> !ready
    {
      ok := *;
      ready := ok && !(key in rows && (rows[key].exhausted || rows[key].nextAttemptAt > now));
    }

    method RecordDeliveryFailure(key: Key, now: int, suspend: bool) returns (ok: bool)
      modifies this
      ensures rows == if ok then Recorded(old(rows), key, now, suspend) else old(rows)
    {
      ok := *;
      if ok {
        if key !in rows {
          rows := rows[key := Entry(1, now + MINUTE, suspend)];
        } else {
          var e := rows[key];
          rows := rows[key := Entry(Min(e.attempts + 1, MAX_ATTEMPTS),
                                    now + MINUTE * Pow2(Min(e.attempts, 6)),
                                    suspend || e.attempts + 1 >= MAX_ATTEMPTS)];
        }
      }
    }

    method ClearDeliveryRetry(key: Key) returns (ok: bool)
      modifies this
      ensures rows == if ok then old(rows) - {key} else old(rows)
    {
      ok := *;
      if ok {
        rows := rows - {key};
      }
    }
  }

  // ----- The life of one pair under gated attempts -----

  datatype AttemptResult = Succeeded | Failed(suspend: bool) | Unrecorded

  /** One attempt: the clock the gate reads, the clock a failure is recorded with, and how the attempt ends. */
  datatype Attempt = Attempt(gate: int, now: int, result: AttemptResult)

  /** `failures` lists the failures recorded since the row was last cleared. */
  datatype Trail = Trail(entry: Option<Entry>, failures: seq<Attempt>)

  predicate Open(entry: Option<Entry>, gate: int) {
    entry.Some? ==> !Blocks(entry.value, gate)
  }

  function Advance(t: Trail, a: Attempt): Trail {
    if !Open(t.entry, a.gate) then t
    else match a.result
      case Succeeded => Trail(None, [])
      case Failed(suspend) => Trail(Some(AfterFailure(t.entry, a.now, suspend)), t.failures + [a])
      case Unrecorded => t
  }

  function Replay(attempts: seq<Attempt>): Trail {
    if attempts == [] then Trail(None, [])
    else Advance(Replay(attempts[..|attempts| - 1]), attempts[|attempts| - 1])
  }

  /** Delay the gate keeps after the failure with 0-based index k. */
  function Delay(k: nat): int {
    MINUTE * Pow2(Min(k, 6))
  }

  predicate Spaced(f: seq<Attempt>) {
    forall k :: 0 <= k < |f| - 1 ==> f[k + 1].gate >= f[k].now + Delay(k)
  }

  /** What the row holds is a function of the failures recorded since the last clear. */
  ghost predicate Consistent(t: Trail) {
    && (t.entry.None? <==> t.failures == [])
    && |t.failures| <= MAX_ATTEMPTS
    && Spaced(t.failures)
    && (forall a <- t.failures :: a.result.Failed?)
    && (forall i :: 0 <= i < |t.failures| - 1 ==> !t.failures[i].result.suspend)
    && (t.entry.Some? ==>
          var n := |t.failures|;
          var e := t.entry.value;
          && e.attempts == n
          && e.nextAttemptAt == t.failures[n - 1].now + Delay(n - 1)
          && (e.exhausted <==> t.failures[n - 1].result.suspend || n == MAX_ATTEMPTS))
  }

  lemma {:induction false} ReplayIsConsistent(attempts: seq<Attempt>)
    ensures Consistent(Replay(attempts))
  {
    if attempts != [] {
      ReplayIsConsistent(attempts[..|attempts| - 1]);
      AdvanceKeepsConsistent(Replay(attempts[..|attempts| - 1]), attempts[|attempts| - 1]);
    }
  }

  lemma AdvanceKeepsConsistent(t: Trail, a: Attempt)
    requires Consistent(t)
    ensures Consistent(Advance(t, a))
  {
  }

  /** Once suspended, a pair is never attempted again, whatever clocks the later attempts read. */
  lemma {:induction false} SuspensionIsFinal(attempts: seq<Attempt>, later: seq<Attempt>)
    requires Replay(attempts).entry.Some? && Replay(attempts).entry.value.exhausted
    ensures Replay(attempts + later) == Replay(attempts)
  {
    if later == [] {
      assert attempts + later == attempts;
    } else {
      var front := later[..|later| - 1];
      SuspensionIsFinal(attempts, front);
      assert (attempts + later)[..|attempts + later| - 1] == attempts + front;
    }
  }

  /** The eighth recorded failure is the last one, even when no failure asked for suspension. */
  lemma EightFailuresSuspend(attempts: seq<Attempt>, later: seq<Attempt>)
    requires |Replay(attempts).failures| == MAX_ATTEMPTS
    ensures Replay(attempts + later) == Replay(attempts)
  {
    ReplayIsConsistent(attempts);
    SuspensionIsFinal(attempts, later);
  }

  lemma {:induction false} FailuresAreAttempts(attempts: seq<Attempt>)
    ensures forall a <- Replay(attempts).failures :: a in attempts
  {
    if attempts != [] {
      FailuresAreAttempts(attempts[..|attempts| - 1]);
      assert attempts == attempts[..|attempts| - 1] + [attempts[|attempts| - 1]];
    }
  }

  // ----- How far apart eight failures are -----

  /** The gate never reads a clock more than `lag` ahead of the instant the failure is recorded with. */
  predicate Lagging(f: seq<Attempt>, lag: int) {
    forall a <- f :: a.gate - a.now <= lag
  }

  /** With a record clock not behind the gate clock, failures i and j are let through at least 2^j - 2^i minutes apart. */
  lemma {:induction false} GapsAddUp(f: seq<Attempt>, i: nat, j: nat)
    requires Spaced(f) && Lagging(f, 0)
    requires i <= j < |f| && j <= 7
    ensures f[j].gate - f[i].gate >= MINUTE * (Pow2(j) - Pow2(i))
    decreases j
  {
    if i < j {
      GapsAddUp(f, i, j - 1);
      assert f[j - 1 + 1].gate >= f[j - 1].now + Delay(j - 1);
      assert f[j - 1] in f;
    }
  }

  const FULL_BACKOFF := 127 * MINUTE

  /** With such clocks, the first and the eighth failure of a pair are at least 127 minutes apart. */
  lemma SevenGapsTakeAtLeast127Minutes(attempts: seq<Attempt>)
    requires Lagging(attempts, 0)
    requires |Replay(attempts).failures| == MAX_ATTEMPTS
    ensures var f := Replay(attempts).failures;
            f[7].gate - f[0].gate >= FULL_BACKOFF
  {
    ReplayIsConsistent(attempts);
    FailuresAreAttempts(attempts);
    GapsAddUp(Replay(attempts).failures, 0, 7);
    assert Pow2(7) == 128 by {
      assert Pow2(3) == 8;
      assert Pow2(5) == 32;
    }
  }

  /** delivery.Run reads one clock for the gate and the record: the case of a record clock not behind. */
  lemma RunKeepsFullBackoff(attempts: seq<Attempt>)
    requires forall a <- attempts :: a.gate == a.now
    requires |Replay(attempts).failures| == MAX_ATTEMPTS
    ensures var f := Replay(attempts).failures;
            f[7].now - f[0].now >= FULL_BACKOFF
  {
    SevenGapsTakeAtLeast127Minutes(attempts);
    FailuresAreAttempts(attempts);
    var f := Replay(attempts).failures;
    assert f[0] in f && f[7] in f;
  }

  /** The least distance of the failures 0 and n when the record clock may lag: each delay shortened by the lag. */
  function MinSpacing(lag: int, n: nat): (m: int)
    ensures m >= 0
  {
    if n == 0 then 0 else MinSpacing(lag, n - 1) + Max(0, Delay(n - 1) - lag)
  }

  predicate GatesForward(f: seq<Attempt>) {
    forall k :: 0 <= k < |f| - 1 ==> f[k].gate <= f[k + 1].gate
  }

  lemma {:induction false} LagShortensEachGap(f: seq<Attempt>, lag: int, n: nat)
    requires Spaced(f) && GatesForward(f) && Lagging(f, lag) && n < |f|
    ensures f[n].gate - f[0].gate >= MinSpacing(lag, n)
  {
    if n > 0 {
      LagShortensEachGap(f, lag, n - 1);
      assert f[n - 1] in f;
      assert f[n - 1 + 1].gate >= f[n - 1].now + Delay(n - 1);
      assert f[n - 1].gate <= f[n - 1 + 1].gate;
    }
  }

  /** The failures of a history that attempts again as early as the gate allows, recording `lag` behind the gate. */
  function Eager(lag: int, n: nat): (f: seq<Attempt>)
    ensures |f| == n
  {
    seq(n, k requires 0 <= k < n => Attempt(MinSpacing(lag, k), MinSpacing(lag, k) - lag, Failed(false)))
  }

  /** Attempts spaced as the gate demands all pass it, and all end up in the row. */
  lemma {:induction false} SpacedReplays(f: seq<Attempt>)
    requires Spaced(f) && |f| <= MAX_ATTEMPTS && forall a <- f :: a.result == Failed(false)
    ensures Replay(f).failures == f
  {
    if f != [] {
      var n := |f| - 1;
      SpacedReplays(f[..n]);
      ReplayIsConsistent(f[..n]);
      assert f == f[..n] + [f[n]];
      assert f[n] in f;
      if n > 0 {
        assert f[..n][n - 1] == f[n - 1] && f[n - 1] in f;
        assert f[n - 1 + 1].gate >= f[n - 1].now + Delay(n - 1);
      }
    }
  }

  /**
   For every lag the bound of LagShortensEachGap is met with equality: MinSpacing(lag, 7) is the least distance of
   eight failures under a gate clock that is never turned back.
  */
  lemma MinSpacingIsExact(lag: int)
    requires lag >= 0
    ensures forall attempts :: |Replay(attempts).failures| == MAX_ATTEMPTS && GatesForward(Replay(attempts).failures)
              && Lagging(attempts, lag)
              ==> Replay(attempts).failures[7].gate - Replay(attempts).failures[0].gate >= MinSpacing(lag, 7)
    ensures var f := Replay(Eager(lag, 8)).failures;
      && |f| == MAX_ATTEMPTS && GatesForward(f) && Lagging(Eager(lag, 8), lag)
      && f[7].gate - f[0].gate == MinSpacing(lag, 7)
  {
    forall attempts | |Replay(attempts).failures| == MAX_ATTEMPTS && GatesForward(Replay(attempts).failures) && Lagging(attempts, lag)
      ensures Replay(attempts).failures[7].gate - Replay(attempts).failures[0].gate >= MinSpacing(lag, 7)
    {
      ReplayIsConsistent(attempts);
      FailuresAreAttempts(attempts);
      LagShortensEachGap(Replay(attempts).failures, lag, 7);
    }
    EagerReplays(lag);
  }

  lemma OneMoreGap(lag: int, n: nat)
    ensures MinSpacing(lag, n + 1) == MinSpacing(lag, n) + Max(0, Delay(n) - lag)
    ensures MinSpacing(lag, 0) == 0
  {
  }

  lemma EagerStep(lag: int, k: nat)
    requires lag >= 0 && k < 7
    ensures var f := Eager(lag, 8); f[k + 1].gate >= f[k].now + Delay(k) && f[k].gate <= f[k + 1].gate
  {
    OneMoreGap(lag, k);
  }

  lemma EagerLags(lag: int)
    ensures forall a <- Eager(lag, 8) :: a.gate - a.now == lag && a.result == Failed(false)
  {
  }

  lemma EagerReplays(lag: int)
    requires lag >= 0
    ensures Replay(Eager(lag, 8)).failures == Eager(lag, 8)
    ensures GatesForward(Eager(lag, 8)) && Lagging(Eager(lag, 8), lag)
  {
    var f := Eager(lag, 8);
    forall k | 0 <= k < |f| - 1 ensures f[k + 1].gate >= f[k].now + Delay(k) && f[k].gate <= f[k + 1].gate {
      EagerStep(lag, k);
    }
    EagerLags(lag);
    SpacedReplays(f);
  }

  lemma PowersTo64()
    ensures Pow2(0) == 1 && Pow2(1) == 2 && Pow2(2) == 4 && Pow2(3) == 8 && Pow2(4) == 16 && Pow2(5) == 32 && Pow2(6) == 64
  {
    assert Pow2(3) == 2 * Pow2(2) && Pow2(4) == 2 * Pow2(3) && Pow2(5) == 2 * Pow2(4) && Pow2(6) == 2 * Pow2(5);
  }

  lemma MinSpacingExpanded(lag: int)
    ensures MinSpacing(lag, 7) ==
      Max(0, MINUTE - lag) + Max(0, 2 * MINUTE - lag) + Max(0, 4 * MINUTE - lag) + Max(0, 8 * MINUTE - lag)
      + Max(0, 16 * MINUTE - lag) + Max(0, 32 * MINUTE - lag) + Max(0, 64 * MINUTE - lag)
  {
    PowersTo64();
    assert Delay(0) == MINUTE && Delay(1) == 2 * MINUTE && Delay(2) == 4 * MINUTE && Delay(3) == 8 * MINUTE;
    assert Delay(4) == 16 * MINUTE && Delay(5) == 32 * MINUTE && Delay(6) == 64 * MINUTE;
    OneMoreGap(lag, 0);
    OneMoreGap(lag, 1);
    OneMoreGap(lag, 2);
    OneMoreGap(lag, 3);
    OneMoreGap(lag, 4);
    OneMoreGap(lag, 5);
    OneMoreGap(lag, 6);
  }

  /** No lag leaves the full backoff, any lag shortens it, and from 64 minutes on nothing of it is left. */
  lemma LagEatsTheBackoff(lag: int)
    requires lag >= 0
    ensures MinSpacing(lag, 7) >= FULL_BACKOFF <==> lag == 0
    ensures MinSpacing(lag, 7) == 0 <==> lag >= 64 * MINUTE
  {
    MinSpacingExpanded(lag);
  }

  /**
   The 127 minutes are guaranteed for clocks at most `lag` apart if and only if the record clock never lags at
   all.
  */
  lemma FullBackoffIffNoLag(lag: int)
    requires lag >= 0
    ensures (forall attempts :: |Replay(attempts).failures| == MAX_ATTEMPTS && Lagging(attempts, lag)
               ==> Replay(attempts).failures[7].gate - Replay(attempts).failures[0].gate >= FULL_BACKOFF)
            <==> lag == 0
  {
    if lag == 0 {
      forall attempts | |Replay(attempts).failures| == MAX_ATTEMPTS && Lagging(attempts, lag)
        ensures Replay(attempts).failures[7].gate - Replay(attempts).failures[0].gate >= FULL_BACKOFF
      {
        SevenGapsTakeAtLeast127Minutes(attempts);
      }
    } else {
      EagerReplays(lag);
      LagEatsTheBackoff(lag);
      var f := Eager(lag, 8);
      assert f[7].gate - f[0].gate == MinSpacing(lag, 7);
    }
  }

  /**
   A drain loop gates on the database clock but records every failure with the instant its stage began. Once a
   stage has been busy for 64 minutes, eight failures of one row follow each other without any pause.
  */
  lemma StageClockCancelsTheBackoff(start: int)
    ensures var f := seq(8, _ => Attempt(start + 64 * MINUTE, start, Failed(false)));
      Replay(f).failures == f
  {
    var f := seq(8, _ => Attempt(start + 64 * MINUTE, start, Failed(false)));
    PowersTo64();
    forall k | 0 <= k < |f| - 1 ensures f[k + 1].gate >= f[k].now + Delay(k) {
      assert Delay(k) <= 64 * MINUTE;
    }
    SpacedReplays(f);
  }
}
