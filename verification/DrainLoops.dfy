/**
 The three loops of the worker that claim until nothing is left, statement by statement: alerts, progress events, and
 the notices of automatically closed check-ins. A Worker carries, beside the tables it
 updates, the list of protocol actions it has performed; every method keeps that list a run of the protocol, so
 what is proved of all runs holds of these loops.
*/
module DrainLoops {
  import opened Prelude
  import opened RetryLedger
  import opened DeliveryErrors
  import opened DeliveryProtocol

  /** What the Bot API client returns for a sendMessage call: a message, an API error or a foreign error. */
  datatype Reply = Message(messageId: int) | ApiFailure(error: ApiError) | ForeignFailure

  function OutcomeOf(reply: Reply): SendOutcome {
    match reply
    case Message(messageId) => Delivered(messageId)
    case ApiFailure(error) => if error.ambiguous then Ambiguous else Rejected
    case ForeignFailure => NothingSent
  }

  /** What becomes of the edit of a card: done or unnecessary, refused by the Bot API, or failed otherwise. */
  datatype EditReply = EditPassed | EditRefused(statusCode: int) | EditFailed

  /** A foreign key lookup: found, missing, or the query failed. */
  datatype Lookup = Found | Missing | QueryFailed

  /** Why a row is not picked up: finished, acknowledged, waiting in the ledger, or held under a live lease. */
  predicate Settled(row: Row, key: Key, ledger: Table, dbNow: int, clock: int) {
    || Finished(row)
    || row.acknowledged
    || (key in ledger && Blocks(ledger[key], clock))
    || (row.status.Claimed? && row.startedAt.Some? && row.startedAt.value > dbNow - LEASE_SECONDS)
  }

  /** The CHECK constraint of the ledger table. */
  ghost predicate AttemptsInRange(t: Table) {
    forall key <- t :: 1 <= t[key].attempts <= MAX_ATTEMPTS
  }

  function AttemptsOf(t: Table, key: Key): nat {
    if key in t then t[key].attempts else 0
  }

  /** One pair per attempt the ledger still grants to an unfinished row of `op`, present or still to arrive. */
  ghost function Remaining(op: Operation, rows: Rows, arriving: set<Key>, ledger: Table): set<(Key, nat)> {
    set key: Key, n: nat |
      && key in rows.Keys + arriving && key.op == op && n <= MAX_ATTEMPTS
      && (key in rows ==> !Finished(rows[key]))
      && !Exhausted(ledger, key) && AttemptsOf(ledger, key) <= n :: (key, n)
  }

  lemma {:induction false} LowestExists(keys: set<Key>)
    requires keys != {}
    ensures exists key :: key in keys && forall other <- keys :: key.id <= other.id
  {
    var key :| key in keys;
    if keys != {key} {
      LowestExists(keys - {key});
      var low :| low in keys - {key} && forall other <- keys - {key} :: low.id <= other.id;
      if key.id <= low.id {
        assert forall other <- keys :: key.id <= other.id;
      } else {
        assert forall other <- keys :: low.id <= other.id;
      }
    }
  }

  /** ORDER BY checkin_date, id. */
  predicate Earlier(date: int -> int, a: Key, b: Key) {
    date(a.id) < date(b.id) || (date(a.id) == date(b.id) && a.id <= b.id)
  }

  lemma EarlierChains(date: int -> int, a: Key, b: Key, c: Key)
    ensures Earlier(date, a, b) && Earlier(date, b, c) ==> Earlier(date, a, c)
    ensures Earlier(date, a, b) || Earlier(date, b, a)
  {
  }

  lemma {:induction false} EarliestExists(date: int -> int, keys: set<Key>) returns (first: Key)
    requires keys != {}
    ensures first in keys && forall other <- keys :: Earlier(date, first, other)
  {
    var key :| key in keys;
    first := key;
    if keys != {key} {
      var low := EarliestExists(date, keys - {key});
      EarlierChains(date, key, low, low);
      if !Earlier(date, key, low) {
        first := low;
      }
      forall other <- keys ensures Earlier(date, first, other) {
        EarlierChains(date, key, low, other);
        EarlierChains(date, other, other, other);
        assert other != key ==> other in keys - {key};
      }
    }
  }

  /** Why a check-in owes no notice now: it is sent, or the ledger holds it back. */
  predicate NoticeSettled(row: Row, key: Key, ledger: Table, clock: int) {
    Finished(row) || (key in ledger && Blocks(ledger[key], clock))
  }

  /** A check-in either owes its notice or has it; there is no state in between. */
  ghost predicate NoticesPendingOrDone(rows: Rows) {
    forall key <- rows :: key.op.RoutineClose? ==> rows[key].status.Pending? || rows[key].status.Done?
  }

  lemma ArrivalsKeepRemaining(op: Operation, rows0: Rows, arriving0: set<Key>, rows: Rows, arriving: set<Key>, ledger: Table)
    requires rows.Keys + arriving == rows0.Keys + arriving0
    requires forall k <- rows0 :: k in rows && Finished(rows[k]) == Finished(rows0[k])
    requires forall k <- rows.Keys - rows0.Keys :: !Finished(rows[k])
    ensures Remaining(op, rows, arriving, ledger) == Remaining(op, rows0, arriving0, ledger)
  {
  }

  /** A round on a claimed row that finished it or recorded a failure uses up at least one pair. */
  lemma RoundShrinks(op: Operation, rows0: Rows, arriving0: set<Key>, ledger0: Table, rows: Rows, arriving: set<Key>, ledger: Table, key: Key, clock: int)
    requires AttemptsInRange(ledger0)
    requires key in rows0 && key.op == op && Ready(ledger0, key, clock) && !Finished(rows0[key])
    requires rows.Keys + arriving == rows0.Keys + arriving0
    requires forall k <- rows0 :: k in rows && (k != key ==> Finished(rows[k]) == Finished(rows0[k]))
    requires forall k <- rows.Keys - rows0.Keys :: rows[k].status.Pending?
    requires forall k :: k != key ==> Find(ledger, k) == Find(ledger0, k)
    requires Finished(rows[key]) || exists now :: ledger == Recorded(ledger0, key, now, false)
    ensures Remaining(op, rows, arriving, ledger) < Remaining(op, rows0, arriving0, ledger0)
  {
    var before, after := Remaining(op, rows0, arriving0, ledger0), Remaining(op, rows, arriving, ledger);
    var spent := (key, AttemptsOf(ledger0, key));
    assert spent in before && spent !in after;
    forall pair <- after ensures pair in before {
      assert Find(ledger, pair.0) == Find(ledger0, pair.0) || pair.0 == key;
    }
  }

  /** Other processes have only inserted pending rows and dismissed alerts. */
  ghost predicate Quiet(rows0: Rows, arriving0: set<Key>, rows: Rows, arriving: set<Key>) {
    && rows.Keys + arriving == rows0.Keys + arriving0
    && (forall key <- rows0 ::
          key in rows && rows[key].status == rows0[key].status
          && (rows[key] == rows0[key] || (key.op.Alert? && rows[key].acknowledged)))
    && (forall key <- rows.Keys - rows0.Keys :: rows[key].status.Pending?)
  }

  /** Apart from that, nothing but the row and the ledger entry of `key` has changed. */
  ghost predicate OnlyKey(rows0: Rows, arriving0: set<Key>, ledger0: Table, rows: Rows, arriving: set<Key>, ledger: Table, key: Key) {
    && rows.Keys + arriving == rows0.Keys + arriving0
    && (forall k <- rows0 :: k in rows && (k != key ==> rows[k].status == rows0[k].status))
    && (forall k <- rows.Keys - rows0.Keys :: rows[k].status.Pending?)
    && (forall k :: k != key ==> Find(ledger, k) == Find(ledger0, k))
  }

  // ----- What the loops are told -----

  datatype Dependency = Task | Participant | Workspace | Topic

  datatype Read = Read(key: Key, dependency: Dependency, answer: Lookup)

  /** What the database and Telegram told the loops: every lookup, and how many calls came back with an error. */
  class Journal {
    ghost var lookups: seq<Read>
    ghost var errors: nat

    constructor ()
      ensures lookups == [] && errors == 0
    {
      lookups, errors := [], 0;
    }

    ghost method Fail()
      modifies `errors
      ensures errors == old(errors) + 1
    {
      errors := errors + 1;
    }

    method LookUp(key: Key, dependency: Dependency) returns (answer: Lookup)
      modifies `lookups
      ensures lookups == old(lookups) + [Read(key, dependency, answer)]
    {
      answer := *;
      lookups := lookups + [Read(key, dependency, answer)];
    }
  }

  /** A call returns an error exactly when one of the calls it made did. */
  predicate Reports(before: nat, after: nat, ok: bool) {
    before <= after && (ok <==> after == before)
  }

  /** An alert is sent under the owner's name even if the participant is gone. */
  predicate Passes(read: Read) {
    read.answer.Found? || (read.dependency.Participant? && read.answer.Missing?)
  }

  /** The dependencies were looked up in order, each after the one before it had passed. */
  ghost predicate Asked(asked: seq<Read>, key: Key, order: seq<Dependency>) {
    && 1 <= |asked| <= |order|
    && (forall i :: 0 <= i < |asked| ==> asked[i].key == key && asked[i].dependency == order[i])
    && (forall i :: 0 <= i < |asked| - 1 ==> Passes(asked[i]))
    && (|asked| < |order| ==> !Passes(asked[|asked| - 1]))
  }

  ghost function Verdict(asked: seq<Read>): Lookup
    requires asked != []
  {
    asked[|asked| - 1].answer
  }

  const EVENT_NEEDS := [Workspace, Topic]
  const ALERT_NEEDS := [Task, Participant, Workspace, Topic]

  /** How often a topic was found for an entity, after everything in front of it. */
  ghost function TopicsFound(lookups: seq<Read>, key: Key): nat {
    if lookups == [] then 0
    else
      var last := lookups[|lookups| - 1];
      TopicsFound(lookups[..|lookups| - 1], key) + if last == Read(key, Topic, Found) then 1 else 0
  }

  /** How often a needed row was missing for an entity. */
  ghost function NeedsMissing(lookups: seq<Read>, key: Key): nat {
    if lookups == [] then 0
    else
      var last := lookups[|lookups| - 1];
      NeedsMissing(lookups[..|lookups| - 1], key) +
      if last.key == key && last.answer.Missing? && !last.dependency.Participant? then 1 else 0
  }

  lemma CountRead(lookups: seq<Read>, read: Read, key: Key)
    ensures TopicsFound(lookups + [read], key) == TopicsFound(lookups, key) + if read == Read(key, Topic, Found) then 1 else 0
    ensures NeedsMissing(lookups + [read], key) == NeedsMissing(lookups, key) +
      if read.key == key && read.answer.Missing? && !read.dependency.Participant? then 1 else 0
  {
    assert (lookups + [read])[..|lookups|] == lookups;
  }

  lemma {:induction false} CountsGrow(lookups: seq<Read>, n: nat, key: Key)
    requires n <= |lookups|
    ensures TopicsFound(lookups[..n], key) <= TopicsFound(lookups, key)
    ensures NeedsMissing(lookups[..n], key) <= NeedsMissing(lookups, key)
  {
    if n < |lookups| {
      CountsGrow(lookups[..|lookups| - 1], n, key);
      assert lookups[..|lookups| - 1][..n] == lookups[..n];
    } else {
      assert lookups[..n] == lookups;
    }
  }

  /** The lookups in front of the last one neither find the topic nor miss anything that is needed. */
  lemma EarlierReadCounts(asked: seq<Read>, key: Key, order: seq<Dependency>, i: nat, k: Key)
    requires Asked(asked, key, order) && (order == EVENT_NEEDS || order == ALERT_NEEDS) && i < |asked| - 1
    ensures asked[i] != Read(k, Topic, Found)
    ensures !(asked[i].key == k && asked[i].answer.Missing? && !asked[i].dependency.Participant?)
  {
    assert Passes(asked[i]);
  }

  lemma AskedOneMore(lookups: seq<Read>, asked: seq<Read>, key: Key, order: seq<Dependency>, i: nat, k: Key)
    requires Asked(asked, key, order) && (order == EVENT_NEEDS || order == ALERT_NEEDS) && i < |asked| - 1
    ensures TopicsFound(lookups + asked[..i + 1], k) == TopicsFound(lookups + asked[..i], k)
    ensures NeedsMissing(lookups + asked[..i + 1], k) == NeedsMissing(lookups + asked[..i], k)
  {
    assert lookups + asked[..i + 1] == lookups + asked[..i] + [asked[i]];
    CountRead(lookups + asked[..i], asked[i], k);
    EarlierReadCounts(asked, key, order, i, k);
  }

  lemma LastReadCounts(asked: seq<Read>, key: Key, order: seq<Dependency>, k: Key)
    requires Asked(asked, key, order) && (order == EVENT_NEEDS || order == ALERT_NEEDS)
    ensures var last := asked[|asked| - 1];
      && (last == Read(k, Topic, Found) <==> k == key && Verdict(asked).Found?)
      && (last.key == k && last.answer.Missing? && !last.dependency.Participant? <==> k == key && Verdict(asked).Missing?)
  {
  }

  lemma AskedFrontCounts(lookups: seq<Read>, asked: seq<Read>, key: Key, order: seq<Dependency>, k: Key)
    requires Asked(asked, key, order) && (order == EVENT_NEEDS || order == ALERT_NEEDS)
    ensures TopicsFound(lookups + asked[..|asked| - 1], k) == TopicsFound(lookups, k)
    ensures NeedsMissing(lookups + asked[..|asked| - 1], k) == NeedsMissing(lookups, k)
  {
    assert lookups + asked[..0] == lookups;
    for i := 0 to |asked| - 1
      invariant TopicsFound(lookups + asked[..i], k) == TopicsFound(lookups, k)
      invariant NeedsMissing(lookups + asked[..i], k) == NeedsMissing(lookups, k)
    {
      AskedOneMore(lookups, asked, key, order, i, k);
    }
  }

  lemma CountLast(lookups: seq<Read>, asked: seq<Read>, k: Key)
    requires asked != []
    ensures var front, last := lookups + asked[..|asked| - 1], asked[|asked| - 1];
      && TopicsFound(lookups + asked, k) == TopicsFound(front, k) + (if last == Read(k, Topic, Found) then 1 else 0)
      && NeedsMissing(lookups + asked, k) == NeedsMissing(front, k) +
         (if last.key == k && last.answer.Missing? && !last.dependency.Participant? then 1 else 0)
  {
    var front, last := lookups + asked[..|asked| - 1], asked[|asked| - 1];
    assert lookups + asked == front + [last];
    CountRead(front, last, k);
  }

  /** One round of lookups finds the topic or misses something, or it fails. */
  lemma AskedCounts(lookups: seq<Read>, asked: seq<Read>, key: Key, order: seq<Dependency>, k: Key)
    requires Asked(asked, key, order) && (order == EVENT_NEEDS || order == ALERT_NEEDS)
    ensures TopicsFound(lookups + asked, k) == TopicsFound(lookups, k) + if k == key && Verdict(asked).Found? then 1 else 0
    ensures NeedsMissing(lookups + asked, k) == NeedsMissing(lookups, k) + if k == key && Verdict(asked).Missing? then 1 else 0
  {
    AskedFrontCounts(lookups, asked, key, order, k);
    CountLast(lookups, asked, k);
    LastReadCounts(asked, key, order, k);
  }

  // ----- What the loops have sent -----

  ghost predicate NoSend(s0: State, s1: State) {
    forall k :: Queued(k) ==> s1.sends[k] == s0.sends[k]
  }

  /** The worker sent once for the entity, and for no other. */
  ghost predicate SentOnce(s0: State, s1: State, key: Key) {
    forall k :: Queued(k) ==> s1.sends[k] == s0.sends[k] + if k == key then 1 else 0
  }

  /** A round on a claimed row: one send exactly when every lookup passed. */
  ghost predicate SentIfFound(s0: State, s1: State, key: Key, asked: seq<Read>)
    requires asked != []
  {
    if Verdict(asked).Found? then SentOnce(s0, s1, key) else NoSend(s0, s1)
  }

  /** What a round did follows from its lookups: one send if all passed, and a failed row only if one was missing. */
  ghost predicate Followed(s0: State, s1: State, key: Key, asked: seq<Read>, order: seq<Dependency>, status: Status) {
    && Asked(asked, key, order) && SentIfFound(s0, s1, key, asked)
    && (status.Done? ==> Verdict(asked).Found?)
    && (status.Failed? ==> Verdict(asked).Missing?)
  }

  /** Each topic found is one send, and each send one topic found. */
  ghost predicate SendsMatch(s0: State, lookups0: seq<Read>, s1: State, lookups1: seq<Read>) {
    && lookups0 <= lookups1
    && forall k :: Outbox(k) ==> s1.sends[k] + TopicsFound(lookups0, k) == s0.sends[k] + TopicsFound(lookups1, k)
  }

  /** What is newly published or sent was sent meanwhile, and what newly failed lacked something. */
  ghost predicate Accounted(op: Operation, rows0: Rows, lookups0: seq<Read>, s0: State, rows1: Rows, lookups1: seq<Read>, s1: State) {
    forall k <- rows1 :: k.op == op ==>
      && (rows1[k].status.Done? && !(k in rows0 && rows0[k].status.Done?) ==> s1.sends[k] > s0.sends[k])
      && (rows1[k].status.Failed? && !(k in rows0 && rows0[k].status.Failed?) ==>
            NeedsMissing(lookups1, k) > NeedsMissing(lookups0, k))
  }

  /** A check-in that newly has its notice was sent one meanwhile. */
  ghost predicate NoticesSent(rows0: Rows, s0: State, rows1: Rows, s1: State) {
    && (forall k: Key :: k.op.RoutineClose? ==> s0.sends[k] <= s1.sends[k])
    && (forall k <- rows1 :: k.op.RoutineClose? && rows1[k].status.Done? && !(k in rows0 && rows0[k].status.Done?) ==>
          s1.sends[k] > s0.sends[k])
  }

  /** No row has been finished. */
  ghost predicate NoneFinished(rows0: Rows, rows1: Rows) {
    forall k <- rows1 :: Finished(rows1[k]) ==> k in rows0 && rows0[k].status == rows1[k].status
  }

  /** A loop has kept its books: every send and every finished row has its reason in what it was told. */
  ghost predicate Books(op: Operation, rows0: Rows, lookups0: seq<Read>, s0: State, rows1: Rows, lookups1: seq<Read>, s1: State) {
    SendsMatch(s0, lookups0, s1, lookups1) && Accounted(op, rows0, lookups0, s0, rows1, lookups1, s1)
  }

  lemma BooksStart(op: Operation, rows0: Rows, lookups: seq<Read>, s0: State, rows1: Rows, s1: State)
    requires NoSend(s0, s1) && NoneFinished(rows0, rows1)
    ensures Books(op, rows0, lookups, s0, rows1, lookups, s1)
  {
  }

  lemma SendsChain(s0: State, lookups0: seq<Read>, s1: State, lookups1: seq<Read>, s2: State, lookups2: seq<Read>)
    requires SendsMatch(s0, lookups0, s1, lookups1) && SendsMatch(s1, lookups1, s2, lookups2)
    ensures SendsMatch(s0, lookups0, s2, lookups2)
  {
  }

  /** Neither the sends nor the missing rows of an entity become fewer. */
  lemma BooksGrow(s0: State, lookups0: seq<Read>, s1: State, lookups1: seq<Read>, k: Key)
    requires SendsMatch(s0, lookups0, s1, lookups1) && Outbox(k)
    ensures s0.sends[k] <= s1.sends[k] && NeedsMissing(lookups0, k) <= NeedsMissing(lookups1, k)
  {
    CountsGrow(lookups1, |lookups0|, k);
    assert lookups1[..|lookups0|] == lookups0;
  }

  lemma BooksChain(op: Operation, rows0: Rows, lookups0: seq<Read>, s0: State, rows1: Rows, lookups1: seq<Read>, s1: State,
                   rows2: Rows, lookups2: seq<Read>, s2: State)
    requires op.Progress? || op.Alert?
    requires Books(op, rows0, lookups0, s0, rows1, lookups1, s1) && Books(op, rows1, lookups1, s1, rows2, lookups2, s2)
    requires rows1.Keys <= rows2.Keys
    ensures Books(op, rows0, lookups0, s0, rows2, lookups2, s2)
  {
    SendsChain(s0, lookups0, s1, lookups1, s2, lookups2);
    forall k <- rows2 | k.op == op
      ensures rows2[k].status.Done? && !(k in rows0 && rows0[k].status.Done?) ==> s2.sends[k] > s0.sends[k]
      ensures rows2[k].status.Failed? && !(k in rows0 && rows0[k].status.Failed?) ==>
                NeedsMissing(lookups2, k) > NeedsMissing(lookups0, k)
    {
      BooksGrow(s0, lookups0, s1, lookups1, k);
      BooksGrow(s1, lookups1, s2, lookups2, k);
    }
  }

  /** The books of one round: only its row can have been finished, after a send or for want of something. */
  lemma RoundBooks(op: Operation, rows0: Rows, lookups0: seq<Read>, s0: State, rows1: Rows, s1: State,
                   key: Key, asked: seq<Read>, order: seq<Dependency>)
    requires (op.Progress? || op.Alert?) && key.op == op && key in rows1
    requires Followed(s0, s1, key, asked, order, rows1[key].status) && (order == EVENT_NEEDS || order == ALERT_NEEDS)
    requires forall k <- rows1 :: k != key && Finished(rows1[k]) ==> k in rows0 && rows0[k].status == rows1[k].status
    ensures Books(op, rows0, lookups0, s0, rows1, lookups0 + asked, s1)
  {
    forall k ensures
      && TopicsFound(lookups0 + asked, k) == TopicsFound(lookups0, k) + (if k == key && Verdict(asked).Found? then 1 else 0)
      && NeedsMissing(lookups0 + asked, k) == NeedsMissing(lookups0, k) + (if k == key && Verdict(asked).Missing? then 1 else 0)
    {
      AskedCounts(lookups0, asked, key, order, k);
    }
  }

  datatype Step = GoOn | Drained | Broken

  /** The action log was only appended to. */
  ghost predicate Grown(log0: seq<Action>, log: seq<Action>, states0: seq<State>, states: seq<State>) {
    log0 <= log && states0 <= states
  }

  class Worker {
    const ledger: Ledger
    const journal: Journal
    const checkinDate: int -> int
    var rows: Rows
    var arriving: set<Key>   // rows that concurrent transactions will still insert
    var ignoredLosses: nat   // failed statements whose error the progress loop drops
    ghost var log: seq<Action>
    ghost var states: seq<State>
    ghost var state: State

    ghost predicate Logged()
      reads this
    {
      Trace(states, log) && states[|log|] == state
    }

    ghost predicate Tracks()
      reads this, ledger
    {
      && Logged()
      && state.rows == rows && state.ledger == ledger.rows
      && AttemptsInRange(ledger.rows)
      && HoldsClaim(state) && GateHolds(state)
      && arriving !! rows.Keys
      && NoticesPendingOrDone(rows)
      && (forall key <- arriving :: Queued(key) && state.live[key] == 0)
    }

    ghost method Perform(a: Action)
      requires Logged()
      requires HoldsClaim(state) && GateHolds(state)
      requires Enabled(state, a)
      modifies `log, `state, `states
      ensures state == Next(old(state), a)
      ensures Logged() && Grown(old(log), log, old(states), states)
      ensures HoldsClaim(state) && GateHolds(state)
    {
      StepKeepsClaim(state, a);
      if !state.pc.Idle? {
        StepKeepsSuspension(state, a, state.pc.key);
      } else {
        StepKeepsSuspension(state, a, Key(Progress, 0));
      }
      TraceExtends(states, log, a);
      state := Next(state, a);
      log := log + [a];
      states := states + [state];
    }

    constructor (ledger: Ledger, journal: Journal, checkinDate: int -> int, rows: Rows, arriving: set<Key>, ignoredLosses: nat)
      requires arriving !! rows.Keys && (forall key <- arriving :: Queued(key)) && AttemptsInRange(ledger.rows)
      requires NoticesPendingOrDone(rows)
      ensures Tracks() && Initial(state) && states == [state] && log == []
      ensures this.ledger == ledger && this.journal == journal && this.rows == rows && this.arriving == arriving && this.ignoredLosses == ignoredLosses
    {
      this.ledger, this.journal, this.checkinDate := ledger, journal, checkinDate;
      this.rows, this.arriving, this.ignoredLosses := rows, arriving, ignoredLosses;
      var s := State(rows, ledger.rows, Idle, multiset{}, multiset{}, multiset{});
      states, state, log := [s], s, [];
    }

    /** Other processes between two statements of the worker insert queued rows, dismiss alerts and refresh leaderboards. */
    method Others()
      requires Tracks()
      modifies this
      ensures Tracks() && Grown(old(log), log, old(states), states)
      ensures state.pc == old(state.pc) && state.live == old(state.live)
      ensures Quiet(old(rows), old(arriving), rows, arriving)
      ensures ignoredLosses == old(ignoredLosses) && NoSend(old(state), state)
    {
      var times :| times >= 0;
      for i := 0 to times
        invariant Tracks() && Grown(old(log), log, old(states), states)
        invariant state.pc == old(state.pc) && state.live == old(state.live)
        invariant Quiet(old(rows), old(arriving), rows, arriving)
        invariant ignoredLosses == old(ignoredLosses) && NoSend(old(state), state)
      {
        Other();
      }
    }

    /** One step of another process. */
    method Other()
      requires Tracks()
      modifies this
      ensures Tracks() && Grown(old(log), log, old(states), states)
      ensures state.pc == old(state.pc) && state.live == old(state.live)
      ensures Quiet(old(rows), old(arriving), rows, arriving)
      ensures ignoredLosses == old(ignoredLosses) && NoSend(old(state), state)
    {
      var alerts := set key | key in rows && key.op.Alert?;
      var refresh: bool, insert: bool := *, *;
      if refresh {
        var workspace: int := *;
        Perform(Refresh(Key(RoutineLeaderboard, workspace)));
      } else if insert && arriving != {} {
        var key := Pick(arriving);
        Arrive(key);
      } else if alerts != {} {
        var key := Pick(alerts);
        Dismiss(key);
      }
    }

    method Arrive(key: Key)
      requires Tracks() && key in arriving
      modifies this
      ensures Tracks() && Grown(old(log), log, old(states), states) && state.pc == old(state.pc) && state.live == old(state.live)
      ensures rows == old(rows)[key := Row(Pending, None, None, false)] && arriving == old(arriving) - {key}
      ensures ignoredLosses == old(ignoredLosses) && NoSend(old(state), state)
    {
      rows := rows[key := Row(Pending, None, None, false)];
      arriving := arriving - {key};
      Perform(Insert(key));
    }

    method Dismiss(key: Key)
      requires Tracks() && key in rows && key.op.Alert?
      modifies this
      ensures Tracks() && Grown(old(log), log, old(states), states) && state.pc == old(state.pc) && state.live == old(state.live)
      ensures rows == old(rows)[key := old(rows)[key].(acknowledged := true, messageId := None)] && arriving == old(arriving)
      ensures ignoredLosses == old(ignoredLosses) && NoSend(old(state), state)
    {
      rows := rows[key := rows[key].(acknowledged := true, messageId := None)];
      Perform(Acknowledge(key));
    }

    // ----- Statements -----

    /** The claim statement takes the lowest eligible id; an empty answer means every row of `op` is settled. */
    method ClaimNext(op: Operation)
      returns (ok: bool, claimed: Option<Key>, ghost dbNow: int, ghost clock: int)
      requires Tracks() && state.pc.Idle? && (op.Progress? || op.Alert?)
      modifies this, journal
      ensures Tracks() && Grown(old(log), log, old(states), states)
      ensures arriving == old(arriving) && ignoredLosses == old(ignoredLosses)
      ensures journal.lookups == old(journal.lookups) && Reports(old(journal.errors), journal.errors, ok)
      ensures NoSend(old(state), state) && NoneFinished(old(rows), rows)
      ensures !ok ==> claimed.None?
      ensures claimed.None? ==> rows == old(rows) && state == old(state)
      ensures ok && claimed.None? ==> forall key <- rows :: key.op == op ==> Settled(rows[key], key, ledger.rows, dbNow, clock)
      ensures claimed.Some? ==>
        var key := claimed.value;
        && key.op == op && state.pc == Cleared(key)
        && key in old(rows) && Claimable(old(rows)[key], dbNow) && Ready(ledger.rows, key, clock)
        && (forall other <- old(rows) :: other.op == op && other.id < key.id ==>
              Settled(old(rows)[other], other, ledger.rows, dbNow, clock))
        && rows == old(rows)[key := old(rows)[key].(status := Claimed, startedAt := Some(dbNow))]
    {
      ok := *;
      claimed := None;
      var instant: int, gateClock: int := *, *;
      dbNow, clock := instant, gateClock;
      if !ok {
        journal.Fail();
        return;
      }
      claimed := LowestEligible(op, instant, gateClock);
      if claimed.Some? {
        rows := rows[claimed.value := rows[claimed.value].(status := Claimed, startedAt := Some(instant))];
        Perform(Claim(claimed.value, instant, gateClock));
      }
    }

    /** ORDER BY id LIMIT 1 over the claimable rows that the ledger lets through. */
    method LowestEligible(op: Operation, dbNow: int, clock: int) returns (lowest: Option<Key>)
      ensures lowest.None? ==> forall key <- rows :: key.op == op ==> Settled(rows[key], key, ledger.rows, dbNow, clock)
      ensures lowest.Some? ==>
        var key := lowest.value;
        && key in rows && key.op == op && Claimable(rows[key], dbNow) && Ready(ledger.rows, key, clock)
        && forall other <- rows :: other.op == op && other.id < key.id ==>
             Settled(rows[other], other, ledger.rows, dbNow, clock)
    {
      var eligible := set key | key in rows && key.op == op && Claimable(rows[key], dbNow) && Ready(ledger.rows, key, clock);
      if eligible == {} {
        forall key <- rows | key.op == op ensures Settled(rows[key], key, ledger.rows, dbNow, clock) {
          assert key !in eligible;
        }
        return None;
      }
      LowestExists(eligible);
      var key :| key in eligible && forall other <- eligible :: key.id <= other.id;
      forall other <- rows | other.op == op && other.id < key.id
        ensures Settled(rows[other], other, ledger.rows, dbNow, clock)
      {
        assert other !in eligible;
      }
      lowest := Some(key);
    }

    /** UPDATE to pending, guarded by the claimed status; an error or a lost claim is reported. */
    method Requeue(key: Key) returns (ok: bool)
      requires Tracks() && state.pc == GivingBack(key) && Outbox(key)
      modifies this, journal
      ensures Tracks() && Grown(old(log), log, old(states), states) && state.pc.Idle?
      ensures rows == old(rows) || rows == Requeued(old(rows), key)
      ensures state.live == old(state).live
      ensures ok ==> rows == Requeued(old(rows), key) && rows[key].status.Pending?
      ensures NoSend(old(state), state)
      ensures journal.lookups == old(journal.lookups) && Reports(old(journal.errors), journal.errors, ok)
      ensures arriving == old(arriving) && ignoredLosses == old(ignoredLosses)
    {
      var applied: bool := *;
      ok := applied && key in rows && rows[key].status.Claimed?;
      if ok {
        rows := rows[key := rows[key].(status := Pending, startedAt := None)];
      } else {
        journal.Fail();
      }
      Perform(DeliveryProtocol.Requeue(applied));
    }

    /** The requeue statement after other processes had their turn. */
    method RequeueLater(key: Key) returns (ok: bool)
      requires Tracks() && state.pc == GivingBack(key) && Outbox(key)
      modifies this, journal
      ensures Tracks() && Grown(old(log), log, old(states), states) && state.pc.Idle?
      ensures OnlyKey(old(rows), old(arriving), ledger.rows, rows, arriving, ledger.rows, key)
      ensures key in rows && (rows[key].status == old(rows)[key].status || rows[key].status.Pending?)
      ensures ok ==> rows[key].status.Pending?
      ensures state.live == old(state).live && ignoredLosses == old(ignoredLosses)
      ensures NoSend(old(state), state)
      ensures journal.lookups == old(journal.lookups) && Reports(old(journal.errors), journal.errors, ok)
    {
      Others();
      ok := Requeue(key);
    }

    /** Defer the failure, then give the row back whether or not the ledger write went through. */
    method DeferAndRequeue(key: Key, now: int, error: ApiError, cancelled: bool) returns (ok: bool)
      requires Tracks() && state.pc == Refused(key, error.ambiguous) && Outbox(key)
      modifies this, ledger, journal
      ensures Tracks() && Grown(old(log), log, old(states), states) && state.pc.Idle?
      ensures OnlyKey(old(rows), old(arriving), old(ledger.rows), rows, arriving, ledger.rows, key)
      ensures ignoredLosses == old(ignoredLosses)
      ensures ok ==> ledger.rows == Recorded(old(ledger.rows), key, now, false) && rows[key].status.Pending?
      ensures ok ==> !error.ambiguous && error.statusCode !in {0, 401, 429} && error.statusCode < 500
      ensures NoSend(old(state), state) && key in rows && (rows[key].status == old(rows)[key].status || rows[key].status.Pending?)
      ensures journal.lookups == old(journal.lookups) && Reports(old(journal.errors), journal.errors, ok)
    {
      var err, tried, wrote := Defer(ledger, key, now, Api(error), cancelled);
      if err.Some? {
        journal.Fail();
      }
      Perform(RecordFailure(now, wrote));
      var requeued := RequeueLater(key);
      ok := err.None? && requeued;
    }

    /** A missing dependency of an alert costs an attempt without any send. */
    method DeferUnavailable(key: Key, now: int) returns (ok: bool)
      requires Tracks() && state.pc == Cleared(key) && key.op.Alert?
      modifies this, ledger, journal
      ensures Tracks() && Grown(old(log), log, old(states), states) && state.pc.Idle?
      ensures OnlyKey(old(rows), old(arriving), old(ledger.rows), rows, arriving, ledger.rows, key)
      ensures ignoredLosses == old(ignoredLosses)
      ensures ok ==> ledger.rows == Recorded(old(ledger.rows), key, now, false) && rows[key].status.Pending?
      ensures NoSend(old(state), state) && key in rows && (rows[key].status == old(rows)[key].status || rows[key].status.Pending?)
      ensures journal.lookups == old(journal.lookups) && Reports(old(journal.errors), journal.errors, ok)
    {
      var wrote := SpendAttempt(key, now);
      if !wrote {
        journal.Fail();
        Perform(Crash);
        return false;
      }
      ok := RequeueLater(key);
    }

    method SpendAttempt(key: Key, now: int) returns (wrote: bool)
      requires Tracks() && state.pc == Cleared(key) && key.op.Alert?
      modifies ledger, `log, `state, `states
      ensures Tracks() && Grown(old(log), log, old(states), states) && state.pc == GivingBack(key)
      ensures state.rows == old(state).rows && state.sends == old(state).sends
      ensures ledger.rows == if wrote then Recorded(old(ledger.rows), key, now, false) else old(ledger.rows)
    {
      Perform(Unavailable);
      wrote := ledger.RecordDeliveryFailure(key, now, false);
      Perform(RecordFailure(now, wrote));
    }

    /** After a read error the row is given back, and the loop ends with that error. */
    method AbandonRead(key: Key)
      requires Tracks() && state.pc == Cleared(key) && Outbox(key)
      modifies this, journal
      ensures Tracks() && Grown(old(log), log, old(states), states) && state.pc.Idle?
      ensures rows == old(rows) || rows == Requeued(old(rows), key)
      ensures arriving == old(arriving) && ignoredLosses == old(ignoredLosses)
      ensures NoSend(old(state), state)
      ensures journal.lookups == old(journal.lookups) && journal.errors > old(journal.errors)
    {
      journal.Fail();
      Perform(ReadFailed);
      var _ := Requeue(key);
    }

    /** Where a reply to the send leaves the worker. */
    ghost function AfterReply(key: Key, reply: Reply): Pc {
      match reply
      case Message(messageId) => Sent(key, messageId)
      case ApiFailure(error) => Refused(key, error.ambiguous)
      case ForeignFailure => AfterRecord(key)
    }

    method SendMessage(key: Key) returns (reply: Reply)
      requires Tracks() && state.pc == Cleared(key)
      modifies `log, `state, `states
      ensures Tracks() && Grown(old(log), log, old(states), states)
      ensures state == Next(old(state), Send(OutcomeOf(reply)))
      ensures state.sends == old(state).sends + multiset{key} && state.pc == AfterReply(key, reply)
    {
      reply := *;
      Perform(Send(OutcomeOf(reply)));
    }

    /** The ledger row is cleared after other processes had their turn. */
    method ClearLater(key: Key) returns (ok: bool)
      requires Tracks() && state.pc == Confirmed(key) && Queued(key)
      modifies this, ledger, journal
      ensures Tracks() && Grown(old(log), log, old(states), states) && state.pc.Idle?
      ensures Quiet(old(rows), old(arriving), rows, arriving) && ignoredLosses == old(ignoredLosses)
      ensures NoSend(old(state), state)
      ensures journal.lookups == old(journal.lookups) && Reports(old(journal.errors), journal.errors, ok)
      ensures ledger.rows == if ok then old(ledger.rows) - {key} else old(ledger.rows)
    {
      Others();
      ok := ledger.ClearDeliveryRetry(key);
      if !ok {
        journal.Fail();
      }
      Perform(ClearRetry(ok));
    }

    /** MarkProgressEventPublished or MarkAlertSent: guarded by the claimed status. */
    method SaveMessageId(key: Key, messageId: int) returns (saved: bool)
      requires Tracks() && state.pc == Sent(key, messageId) && Outbox(key)
      modifies this, journal
      ensures Tracks() && Grown(old(log), log, old(states), states)
      ensures state.pc == if saved then Confirmed(key) else Unsaved(key, messageId)
      ensures rows == old(rows) || rows == MarkedDone(old(rows), key, messageId)
      ensures saved ==> rows == MarkedDone(old(rows), key, messageId) && rows[key].status.Done?
      ensures arriving == old(arriving) && ignoredLosses == old(ignoredLosses)
      ensures NoSend(old(state), state)
      ensures journal.lookups == old(journal.lookups) && Reports(old(journal.errors), journal.errors, saved)
    {
      var applied: bool, reported: bool := *, *;
      var result := if !applied then NotApplied else if reported then Applied else AppliedButReportedFailed;
      if applied {
        rows := rows[key := Row(Done, None, Some(messageId), rows[key].acknowledged)];
      }
      saved := applied && reported;
      if !saved {
        journal.Fail();
      }
      Perform(Save(result));
    }

    /** Delete the unrecorded message; only a confirmed deletion makes its row retryable. */
    method Compensate(key: Key)
      requires Tracks() && state.pc.Unsaved? && state.pc.key == key && Outbox(key)
      modifies this, journal
      ensures Tracks() && Grown(old(log), log, old(states), states) && state.pc.Idle?
      ensures OnlyKey(old(rows), old(arriving), ledger.rows, rows, arriving, ledger.rows, key)
      ensures key in rows && (rows[key].status == old(rows)[key].status ||
                (rows[key].status.Pending? && state.live == old(state).live - multiset{key}))
      ensures ignoredLosses == old(ignoredLosses) && NoSend(old(state), state)
      ensures journal.lookups == old(journal.lookups) && journal.errors >= old(journal.errors)
    {
      var deleted: bool := *;
      Perform(Delete(deleted, Stop));
      if deleted {
        var _ := RequeueLater(key);
      }
    }

    method Confirm(key: Key, messageId: int) returns (ok: bool)
      requires Tracks() && state.pc == Sent(key, messageId) && Outbox(key)
      modifies this, ledger, journal
      ensures Tracks() && Grown(old(log), log, old(states), states) && state.pc.Idle?
      ensures OnlyKey(old(rows), old(arriving), old(ledger.rows), rows, arriving, ledger.rows, key)
      ensures ignoredLosses == old(ignoredLosses) && NoSend(old(state), state)
      ensures key in rows && !rows[key].status.Failed?
      ensures journal.lookups == old(journal.lookups) && Reports(old(journal.errors), journal.errors, ok)
      ensures ok ==> key in rows && rows[key].status.Done? && key !in ledger.rows
      ensures ok ==> rows[key].messageId == Some(messageId) || (key.op.Alert? && rows[key].acknowledged)
    {
      ghost var ledger0 := ledger.rows;
      var saved := SaveMessageId(key, messageId);
      if saved {
        ok := ClearLater(key);
      } else {
        Compensate(key);
        ok := false;
      }
    }

    // ----- Rounds -----

    /**
     What a round that lets the loop go on has done for its row: finished it, spent one of its attempts, or lost
     one of the statements whose error the loop drops.
    */
    ghost predicate Progressed(key: Key, ledger0: Table, losses0: nat)
      reads this, ledger
    {
      || ignoredLosses < losses0
      || (ignoredLosses == losses0 && (
            || (key in rows && Finished(rows[key]))
            || exists now :: ledger.rows == Recorded(ledger0, key, now, false)))
    }

    /** MarkProgressEventFailed; its error is dropped by the caller. */
    method MarkFailed(key: Key)
      requires Tracks() && state.pc == Cleared(key) && key.op.Progress?
      modifies this
      ensures Tracks() && Grown(old(log), log, old(states), states) && state.pc.Idle?
      ensures arriving == old(arriving) && NoSend(old(state), state)
      ensures if ignoredLosses == old(ignoredLosses) then rows == MarkedFailed(old(rows), key) && Finished(rows[key])
              else ignoredLosses == old(ignoredLosses) - 1 && rows == old(rows)
    {
      var applied: bool := *;
      if applied || ignoredLosses == 0 {
        rows := rows[key := rows[key].(status := Status.Failed, startedAt := None)];
        Perform(GiveUp(true));
      } else {
        ignoredLosses := ignoredLosses - 1;
        Perform(GiveUp(false));
      }
    }

    /** What follows the send: persist the message, or defer the failure, or give the row back. */
    method Conclude(key: Key, now: int, reply: Reply) returns (proceed: bool)
      requires Tracks() && Outbox(key) && state.pc == AfterReply(key, reply)
      modifies this, ledger, journal
      ensures Tracks() && Grown(old(log), log, old(states), states) && state.pc.Idle?
      ensures OnlyKey(old(rows), old(arriving), old(ledger.rows), rows, arriving, ledger.rows, key)
      ensures proceed ==> Progressed(key, old(ledger.rows), old(ignoredLosses))
      ensures ignoredLosses == old(ignoredLosses) && NoSend(old(state), state)
      ensures key in rows && !rows[key].status.Failed?
      ensures proceed && reply.Message? ==> rows[key].status.Done?
      ensures proceed && !reply.Message? ==>
        rows[key].status.Pending? && ledger.rows == Recorded(old(ledger.rows), key, now, false)
      ensures journal.lookups == old(journal.lookups) && Reports(old(journal.errors), journal.errors, proceed)
    {
      match reply {
        case Message(messageId) =>
          proceed := Confirm(key, messageId);
        case ApiFailure(error) =>
          var cancelled: bool := *;
          proceed := DeferAndRequeue(key, now, error, cancelled);
        case ForeignFailure =>
          journal.Fail();
          var _ := Requeue(key);
          proceed := false;
      }
    }

    method SendAndConclude(key: Key, now: int) returns (proceed: bool, ghost reply: Reply)
      requires Tracks() && Outbox(key) && state.pc == Cleared(key)
      modifies this, ledger, journal
      ensures Tracks() && Grown(old(log), log, old(states), states) && state.pc.Idle?
      ensures OnlyKey(old(rows), old(arriving), old(ledger.rows), rows, arriving, ledger.rows, key)
      ensures proceed ==> Progressed(key, old(ledger.rows), old(ignoredLosses))
      ensures ignoredLosses == old(ignoredLosses) && SentOnce(old(state), state, key)
      ensures key in rows && !rows[key].status.Failed?
      ensures proceed && reply.Message? ==> rows[key].status.Done?
      ensures proceed && !reply.Message? ==>
        rows[key].status.Pending? && ledger.rows == Recorded(old(ledger.rows), key, now, false)
      ensures journal.lookups == old(journal.lookups) && Reports(old(journal.errors), journal.errors, proceed)
    {
      var answer := SendMessage(key);
      reply := answer;
      Others();
      proceed := Conclude(key, now, answer);
    }

    /** One claimed progress event. `proceed` is false when the loop returns an error. */
    method PublishOne(key: Key, now: int) returns (proceed: bool)
      requires Tracks() && state.pc == Cleared(key) && key.op.Progress?
      modifies this, ledger, journal
      ensures Tracks() && Grown(old(log), log, old(states), states) && state.pc.Idle?
      ensures OnlyKey(old(rows), old(arriving), old(ledger.rows), rows, arriving, ledger.rows, key)
      ensures old(journal.lookups) <= journal.lookups && Reports(old(journal.errors), journal.errors, proceed)
      ensures var asked := journal.lookups[|old(journal.lookups)|..];
        && Followed(old(state), state, key, asked, EVENT_NEEDS, rows[key].status)
        && (Verdict(asked).Missing? ==> proceed)
        && (Verdict(asked).Missing? && ignoredLosses == old(ignoredLosses) ==> rows[key].status.Failed?)
        && (Verdict(asked).Found? && proceed ==>
              || rows[key].status.Done?
              || (rows[key].status.Pending? && ledger.rows == Recorded(old(ledger.rows), key, now, false)))
      ensures proceed ==> Progressed(key, old(ledger.rows), old(ignoredLosses))
    {
      Others();
      proceed := LookUpAndPublish(key, now);
    }

    /** The workspace, then its Progress topic. */
    method LookUpEvent(key: Key) returns (verdict: Lookup)
      modifies journal`lookups
      ensures old(journal.lookups) <= journal.lookups
      ensures var asked := journal.lookups[|old(journal.lookups)|..];
        Asked(asked, key, EVENT_NEEDS) && verdict == Verdict(asked)
    {
      var workspace := journal.LookUp(key, Workspace);
      if !workspace.Found? {
        return workspace;
      }
      verdict := journal.LookUp(key, Topic);
    }

    method LookUpAndPublish(key: Key, now: int) returns (proceed: bool)
      requires Tracks() && state.pc == Cleared(key) && key.op.Progress?
      modifies this, ledger, journal
      ensures Tracks() && Grown(old(log), log, old(states), states) && state.pc.Idle?
      ensures OnlyKey(old(rows), old(arriving), old(ledger.rows), rows, arriving, ledger.rows, key)
      ensures old(journal.lookups) <= journal.lookups && Reports(old(journal.errors), journal.errors, proceed)
      ensures var asked := journal.lookups[|old(journal.lookups)|..];
        && Followed(old(state), state, key, asked, EVENT_NEEDS, rows[key].status)
        && (Verdict(asked).Missing? ==> proceed)
        && (Verdict(asked).Missing? && ignoredLosses == old(ignoredLosses) ==> rows[key].status.Failed?)
        && (Verdict(asked).Found? && proceed ==>
              || rows[key].status.Done?
              || (rows[key].status.Pending? && ledger.rows == Recorded(old(ledger.rows), key, now, false)))
      ensures proceed ==> Progressed(key, old(ledger.rows), old(ignoredLosses))
    {
      var verdict := LookUpEvent(key);
      match verdict {
        case QueryFailed =>
          AbandonRead(key);
          proceed := false;
        case Missing =>
          MarkFailed(key);
          proceed := true;
        case Found =>
          ghost var reply;
          proceed, reply := SendAndConclude(key, now);
      }
    }

    /** One claimed alert: every missing dependency costs an attempt instead of failing the row. */
    method DispatchOne(key: Key, now: int) returns (proceed: bool)
      requires Tracks() && state.pc == Cleared(key) && key.op.Alert?
      modifies this, ledger, journal
      ensures Tracks() && Grown(old(log), log, old(states), states) && state.pc.Idle?
      ensures OnlyKey(old(rows), old(arriving), old(ledger.rows), rows, arriving, ledger.rows, key)
      ensures ignoredLosses == old(ignoredLosses)
      ensures old(journal.lookups) <= journal.lookups && Reports(old(journal.errors), journal.errors, proceed)
      ensures var asked := journal.lookups[|old(journal.lookups)|..];
        && Followed(old(state), state, key, asked, ALERT_NEEDS, rows[key].status)
        && !rows[key].status.Failed?
        && (Verdict(asked).Missing? && proceed ==>
              ledger.rows == Recorded(old(ledger.rows), key, now, false) && rows[key].status.Pending?)
        && (Verdict(asked).Found? && proceed ==>
              || rows[key].status.Done?
              || (rows[key].status.Pending? && ledger.rows == Recorded(old(ledger.rows), key, now, false)))
      ensures proceed ==> Progressed(key, old(ledger.rows), old(ignoredLosses))
    {
      Others();
      proceed := LookUpAndDispatch(key, now);
    }

    /** The task, its owner, the workspace, and its Today topic; only the owner may be missing. */
    method LookUpAlert(key: Key) returns (verdict: Lookup)
      modifies journal`lookups
      ensures old(journal.lookups) <= journal.lookups
      ensures var asked := journal.lookups[|old(journal.lookups)|..];
        Asked(asked, key, ALERT_NEEDS) && verdict == Verdict(asked)
    {
      var task := journal.LookUp(key, Task);
      if !task.Found? {
        return task;
      }
      var participant := journal.LookUp(key, Participant);
      if participant.QueryFailed? {
        return participant;
      }
      var workspace := journal.LookUp(key, Workspace);
      if !workspace.Found? {
        return workspace;
      }
      verdict := journal.LookUp(key, Topic);
    }

    method LookUpAndDispatch(key: Key, now: int) returns (proceed: bool)
      requires Tracks() && state.pc == Cleared(key) && key.op.Alert?
      modifies this, ledger, journal
      ensures Tracks() && Grown(old(log), log, old(states), states) && state.pc.Idle?
      ensures OnlyKey(old(rows), old(arriving), old(ledger.rows), rows, arriving, ledger.rows, key)
      ensures ignoredLosses == old(ignoredLosses)
      ensures old(journal.lookups) <= journal.lookups && Reports(old(journal.errors), journal.errors, proceed)
      ensures var asked := journal.lookups[|old(journal.lookups)|..];
        && Followed(old(state), state, key, asked, ALERT_NEEDS, rows[key].status)
        && !rows[key].status.Failed?
        && (Verdict(asked).Missing? && proceed ==>
              ledger.rows == Recorded(old(ledger.rows), key, now, false) && rows[key].status.Pending?)
        && (Verdict(asked).Found? && proceed ==>
              || rows[key].status.Done?
              || (rows[key].status.Pending? && ledger.rows == Recorded(old(ledger.rows), key, now, false)))
      ensures proceed ==> Progressed(key, old(ledger.rows), old(ignoredLosses))
    {
      var verdict := LookUpAlert(key);
      match verdict {
        case QueryFailed =>
          AbandonRead(key);
          proceed := false;
        case Missing =>
          proceed := DeferUnavailable(key, now);
        case Found =>
          ghost var reply;
          proceed, reply := SendAndConclude(key, now);
      }
    }

    // ----- Loops -----

    /** The claim after other processes had their turn. */
    method ClaimLater(op: Operation)
      returns (ok: bool, claimed: Option<Key>, ghost dbNow: int, ghost clock: int)
      requires Tracks() && state.pc.Idle? && (op.Progress? || op.Alert?)
      modifies this, journal
      ensures Tracks() && Grown(old(log), log, old(states), states) && ignoredLosses == old(ignoredLosses)
      ensures rows.Keys + arriving == old(rows.Keys + arriving) && old(rows.Keys) <= rows.Keys
      ensures journal.lookups == old(journal.lookups) && Reports(old(journal.errors), journal.errors, ok)
      ensures NoSend(old(state), state) && NoneFinished(old(rows), rows)
      ensures !ok ==> claimed.None?
      ensures claimed.None? ==> state.pc.Idle?
      ensures ok && claimed.None? ==> forall key <- rows :: key.op == op ==> Settled(rows[key], key, ledger.rows, dbNow, clock)
      ensures claimed.Some? ==>
        && claimed.value.op == op && state.pc == Cleared(claimed.value) && Ready(ledger.rows, claimed.value, clock)
        && Remaining(op, rows, arriving, ledger.rows) == old(Remaining(op, rows, arriving, ledger.rows))
    {
      Others();
      ok, claimed, dbNow, clock := ClaimNext(op);
      if claimed.Some? {
        ArrivalsKeepRemaining(op, old(rows), old(arriving), rows, arriving, ledger.rows);
      }
    }

    method PublishPendingClaimed(key: Key, now: int, ghost clock: int) returns (proceed: bool)
      requires Tracks() && state.pc == Cleared(key) && key.op.Progress?
      requires Ready(ledger.rows, key, clock)
      modifies this, ledger, journal
      ensures Tracks() && Grown(old(log), log, old(states), states) && state.pc.Idle?
      ensures rows.Keys + arriving == old(rows.Keys + arriving) && old(rows.Keys) <= rows.Keys
      ensures Reports(old(journal.errors), journal.errors, proceed)
      ensures Books(Progress, old(rows), old(journal.lookups), old(state), rows, journal.lookups, state)
      ensures proceed ==>
        || ignoredLosses < old(ignoredLosses)
        || (ignoredLosses == old(ignoredLosses) &&
              Remaining(Progress, rows, arriving, ledger.rows) < old(Remaining(Progress, rows, arriving, ledger.rows)))
    {
      proceed := PublishOne(key, now);
      ghost var asked := journal.lookups[|old(journal.lookups)|..];
      assert journal.lookups == old(journal.lookups) + asked;
      RoundBooks(Progress, old(rows), old(journal.lookups), old(state), rows, state, key, asked, EVENT_NEEDS);
      if proceed && ignoredLosses == old(ignoredLosses) {
        RoundShrinks(Progress, old(rows), old(arriving), old(ledger.rows), rows, arriving, ledger.rows, key, clock);
      }
    }

    method PublishPendingRound(now: int) returns (verdict: Step, ghost dbNow: int, ghost clock: int)
      requires Tracks() && state.pc.Idle?
      modifies this, ledger, journal
      ensures Tracks() && Grown(old(log), log, old(states), states) && state.pc.Idle?
      ensures rows.Keys + arriving == old(rows.Keys + arriving) && old(rows.Keys) <= rows.Keys
      ensures Reports(old(journal.errors), journal.errors, !verdict.Broken?)
      ensures Books(Progress, old(rows), old(journal.lookups), old(state), rows, journal.lookups, state)
      ensures verdict.Drained? ==>
        forall key <- rows :: key.op.Progress? ==> Settled(rows[key], key, ledger.rows, dbNow, clock)
      ensures verdict.GoOn? ==>
        || ignoredLosses < old(ignoredLosses)
        || (ignoredLosses == old(ignoredLosses) &&
              Remaining(Progress, rows, arriving, ledger.rows) < old(Remaining(Progress, rows, arriving, ledger.rows)))
    {
      var read, claimed;
      read, claimed, dbNow, clock := ClaimLater(Progress);
      ghost var rows1, lookups1, state1 := rows, journal.lookups, state;
      BooksStart(Progress, old(rows), lookups1, old(state), rows1, state1);
      if claimed.None? {
        return if read then Drained else Broken, dbNow, clock;
      }
      var proceed := PublishPendingClaimed(claimed.value, now, clock);
      BooksChain(Progress, old(rows), lookups1, old(state), rows1, lookups1, state1, rows, journal.lookups, state);
      verdict := if proceed then GoOn else Broken;
    }

    /**
     Drains the progress table. It ends whatever the clocks do, because every round that lets it go on uses up an
     attempt, a row or one of the finitely many dropped errors; and when it ends without an error, every event is
     published, failed, held back by the ledger or claimed under a live lease. No row disappears.
    */
    method PublishPending() returns (ok: bool, ghost dbNow: int, ghost clock: int)
      requires Tracks() && state.pc.Idle?
      modifies this, ledger, journal
      ensures Tracks() && Grown(old(log), log, old(states), states) && state.pc.Idle?
      ensures rows.Keys + arriving == old(rows.Keys + arriving) && old(rows.Keys) <= rows.Keys
      ensures Reports(old(journal.errors), journal.errors, ok)
      ensures Books(Progress, old(rows), old(journal.lookups), old(state), rows, journal.lookups, state)
      ensures ok ==> forall key <- rows :: key.op.Progress? ==> Settled(rows[key], key, ledger.rows, dbNow, clock)
    {
      dbNow, clock := 0, 0;
      var now: int, clockRead: bool := *, *;
      BooksStart(Progress, rows, journal.lookups, state, rows, state);
      if !clockRead {
        journal.Fail();
        return false, dbNow, clock;
      }
      while true
        invariant Tracks() && Grown(old(log), log, old(states), states) && state.pc.Idle?
        invariant rows.Keys + arriving == old(rows.Keys + arriving) && old(rows.Keys) <= rows.Keys
        invariant journal.errors == old(journal.errors)
        invariant Books(Progress, old(rows), old(journal.lookups), old(state), rows, journal.lookups, state)
        decreases ignoredLosses, Remaining(Progress, rows, arriving, ledger.rows)
      {
        ghost var rows1, lookups1, state1 := rows, journal.lookups, state;
        var verdict;
        verdict, dbNow, clock := PublishPendingRound(now);
        BooksChain(Progress, old(rows), old(journal.lookups), old(state), rows1, lookups1, state1, rows, journal.lookups, state);
        if !verdict.GoOn? {
          return verdict.Drained?, dbNow, clock;
        }
      }
    }

    method DispatchAlertsClaimed(key: Key, now: int, ghost clock: int) returns (proceed: bool)
      requires Tracks() && state.pc == Cleared(key) && key.op.Alert?
      requires Ready(ledger.rows, key, clock)
      modifies this, ledger, journal
      ensures Tracks() && Grown(old(log), log, old(states), states) && state.pc.Idle?
      ensures rows.Keys + arriving == old(rows.Keys + arriving) && old(rows.Keys) <= rows.Keys
      ensures Reports(old(journal.errors), journal.errors, proceed)
      ensures Books(Alert, old(rows), old(journal.lookups), old(state), rows, journal.lookups, state)
      ensures proceed ==>
        || ignoredLosses < old(ignoredLosses)
        || (ignoredLosses == old(ignoredLosses) &&
              Remaining(Alert, rows, arriving, ledger.rows) < old(Remaining(Alert, rows, arriving, ledger.rows)))
    {
      proceed := DispatchOne(key, now);
      ghost var asked := journal.lookups[|old(journal.lookups)|..];
      assert journal.lookups == old(journal.lookups) + asked;
      RoundBooks(Alert, old(rows), old(journal.lookups), old(state), rows, state, key, asked, ALERT_NEEDS);
      if proceed && ignoredLosses == old(ignoredLosses) {
        RoundShrinks(Alert, old(rows), old(arriving), old(ledger.rows), rows, arriving, ledger.rows, key, clock);
      }
    }

    method DispatchAlertsRound(now: int) returns (verdict: Step, ghost dbNow: int, ghost clock: int)
      requires Tracks() && state.pc.Idle?
      modifies this, ledger, journal
      ensures Tracks() && Grown(old(log), log, old(states), states) && state.pc.Idle?
      ensures rows.Keys + arriving == old(rows.Keys + arriving) && old(rows.Keys) <= rows.Keys
      ensures Reports(old(journal.errors), journal.errors, !verdict.Broken?)
      ensures Books(Alert, old(rows), old(journal.lookups), old(state), rows, journal.lookups, state)
      ensures verdict.Drained? ==>
        forall key <- rows :: key.op.Alert? ==> Settled(rows[key], key, ledger.rows, dbNow, clock)
      ensures verdict.GoOn? ==>
        || ignoredLosses < old(ignoredLosses)
        || (ignoredLosses == old(ignoredLosses) &&
              Remaining(Alert, rows, arriving, ledger.rows) < old(Remaining(Alert, rows, arriving, ledger.rows)))
    {
      var read, claimed;
      read, claimed, dbNow, clock := ClaimLater(Alert);
      ghost var rows1, lookups1, state1 := rows, journal.lookups, state;
      BooksStart(Alert, old(rows), lookups1, old(state), rows1, state1);
      if claimed.None? {
        return if read then Drained else Broken, dbNow, clock;
      }
      var proceed := DispatchAlertsClaimed(claimed.value, now, clock);
      BooksChain(Alert, old(rows), lookups1, old(state), rows1, lookups1, state1, rows, journal.lookups, state);
      verdict := if proceed then GoOn else Broken;
    }

    /** Drains the alert table in the same way; acknowledged alerts are settled too. */
    method DispatchAlerts() returns (ok: bool, ghost dbNow: int, ghost clock: int)
      requires Tracks() && state.pc.Idle?
      modifies this, ledger, journal
      ensures Tracks() && Grown(old(log), log, old(states), states) && state.pc.Idle?
      ensures rows.Keys + arriving == old(rows.Keys + arriving) && old(rows.Keys) <= rows.Keys
      ensures Reports(old(journal.errors), journal.errors, ok)
      ensures Books(Alert, old(rows), old(journal.lookups), old(state), rows, journal.lookups, state)
      ensures ok ==> forall key <- rows :: key.op.Alert? ==> Settled(rows[key], key, ledger.rows, dbNow, clock)
    {
      dbNow, clock := 0, 0;
      var now: int, clockRead: bool := *, *;
      BooksStart(Alert, rows, journal.lookups, state, rows, state);
      if !clockRead {
        journal.Fail();
        return false, dbNow, clock;
      }
      while true
        invariant Tracks() && Grown(old(log), log, old(states), states) && state.pc.Idle?
        invariant rows.Keys + arriving == old(rows.Keys + arriving) && old(rows.Keys) <= rows.Keys
        invariant journal.errors == old(journal.errors)
        invariant Books(Alert, old(rows), old(journal.lookups), old(state), rows, journal.lookups, state)
        decreases ignoredLosses, Remaining(Alert, rows, arriving, ledger.rows)
      {
        ghost var rows1, lookups1, state1 := rows, journal.lookups, state;
        var verdict;
        verdict, dbNow, clock := DispatchAlertsRound(now);
        BooksChain(Alert, old(rows), old(journal.lookups), old(state), rows1, lookups1, state1, rows, journal.lookups, state);
        if !verdict.GoOn? {
          return verdict.Drained?, dbNow, clock;
        }
      }
    }

    // ----- Notices of automatic closes -----

    /** SELECT ... FOR UPDATE of the first check-in that owes a notice; the lock is not written anywhere. */
    method LockNotice() returns (ok: bool, locked: Option<Key>, ghost clock: int)
      requires Tracks() && state.pc.Idle?
      modifies this, journal
      ensures Tracks() && Grown(old(log), log, old(states), states)
      ensures rows == old(rows) && arriving == old(arriving) && ignoredLosses == old(ignoredLosses)
      ensures journal.lookups == old(journal.lookups) && Reports(old(journal.errors), journal.errors, ok)
      ensures NoSend(old(state), state)
      ensures !ok ==> locked.None?
      ensures locked.None? ==> state == old(state)
      ensures ok && locked.None? ==> forall key <- rows :: key.op.RoutineClose? ==> NoticeSettled(rows[key], key, ledger.rows, clock)
      ensures locked.Some? ==>
        var key := locked.value;
        && key.op.RoutineClose? && state.pc == Cleared(key)
        && key in rows && rows[key].status.Pending? && Ready(ledger.rows, key, clock)
        && (forall other <- rows ::
              && other.op.RoutineClose?
              && (checkinDate(other.id) < checkinDate(key.id)
                  || (checkinDate(other.id) == checkinDate(key.id) && other.id < key.id))
              ==> NoticeSettled(rows[other], other, ledger.rows, clock))
    {
      ok := *;
      locked := None;
      var gateClock: int := *;
      clock := gateClock;
      if !ok {
        journal.Fail();
        return;
      }
      var eligible := set key |
        key in rows && key.op.RoutineClose? && rows[key].status.Pending? && Ready(ledger.rows, key, gateClock);
      if eligible == {} {
        forall key <- rows | key.op.RoutineClose?
          ensures NoticeSettled(rows[key], key, ledger.rows, clock)
        {
          assert key !in eligible;
        }
        return;
      }
      ghost var first := EarliestExists(checkinDate, eligible);
      var key :| key in eligible && forall other <- eligible :: Earlier(checkinDate, key, other);
      forall other <- rows | other.op.RoutineClose? && !Earlier(checkinDate, key, other)
        ensures NoticeSettled(rows[other], other, ledger.rows, clock)
      {
        assert other !in eligible;
      }
      locked := Some(key);
      Perform(Lock(key, gateClock));
    }

    /** The send, repeated once without a reply when the message replied to is gone. */
    method SendNotice(key: Key) returns (reply: Reply)
      requires Tracks() && state.pc == Cleared(key)
      modifies `log, `state, `states
      ensures Tracks() && Grown(old(log), log, old(states), states)
      ensures state.pc == AfterReply(key, reply)
      ensures state.sends[key] > old(state).sends[key] && forall k :: k != key ==> state.sends[k] == old(state).sends[k]
    {
      var targetMissing: bool := *;
      if targetMissing && !Outbox(key) {
        Perform(Send(ReplyTargetMissing));
      }
      reply := SendMessage(key);
    }

    /** The failed transaction is deferred; the loop goes on only when the failure is in the ledger. */
    method DeferNotice(key: Key, now: int, error: ApiError) returns (proceed: bool)
      requires Tracks() && state.pc == Refused(key, error.ambiguous) && key.op.RoutineClose?
      modifies this, ledger, journal
      ensures Tracks() && Grown(old(log), log, old(states), states) && state.pc.Idle?
      ensures rows == old(rows) && arriving == old(arriving) && ignoredLosses == old(ignoredLosses)
      ensures forall k :: k != key ==> Find(ledger.rows, k) == Find(old(ledger.rows), k)
      ensures NoSend(old(state), state)
      ensures journal.lookups == old(journal.lookups) && Reports(old(journal.errors), journal.errors, proceed)
      ensures proceed ==> ledger.rows == Recorded(old(ledger.rows), key, now, false)
    {
      var cancelled: bool := *;
      var err, tried, wrote := Defer(ledger, key, now, Wrap(Api(error)), cancelled);
      if err.Some? {
        journal.Fail();
      }
      Perform(RecordFailure(now, wrote));
      proceed := err.None?;
    }

    /** Storing the id and committing; a failed statement is compensated, a failed commit is not. */
    method CommitNotice(key: Key, messageId: int) returns (ok: bool)
      requires Tracks() && state.pc == Sent(key, messageId) && key.op.RoutineClose?
      modifies this, ledger, journal
      ensures Tracks() && Grown(old(log), log, old(states), states) && state.pc.Idle?
      ensures OnlyKey(old(rows), old(arriving), old(ledger.rows), rows, arriving, ledger.rows, key)
      ensures ignoredLosses == old(ignoredLosses)
      ensures NoSend(old(state), state)
      ensures journal.lookups == old(journal.lookups) && Reports(old(journal.errors), journal.errors, ok)
      ensures ok ==> key in rows && rows[key].status.Done? && rows[key].messageId == Some(messageId) && key !in ledger.rows
    {
      var committed := SaveNotice(key, messageId);
      if committed {
        ok := ClearLater(key);
      } else {
        DropNotice();
        ok := false;
      }
    }

    /** A notice whose statement failed is deleted again, as far as Telegram lets it. */
    method DropNotice()
      requires Tracks() && (state.pc.Idle? || (state.pc.Unsaved? && state.pc.key.op.RoutineClose?))
      modifies `log, `state, `states
      ensures NoSend(old(state), state)
      ensures Tracks() && Grown(old(log), log, old(states), states) && state.pc.Idle?
    {
      if state.pc.Unsaved? {
        var deleted: bool := *;
        Perform(Delete(deleted, Stop));
      }
    }

    method SaveNotice(key: Key, messageId: int) returns (committed: bool)
      requires Tracks() && state.pc == Sent(key, messageId) && key.op.RoutineClose?
      modifies this, journal
      ensures Tracks() && Grown(old(log), log, old(states), states)
      ensures state.pc == Confirmed(key) || state.pc == Unsaved(key, messageId) || state.pc.Idle?
      ensures committed <==> state.pc.Confirmed?
      ensures key in rows && (rows == old(rows) || rows == old(rows)[key := old(rows)[key].(status := Done, messageId := Some(messageId))])
      ensures committed ==> rows[key].status.Done? && rows[key].messageId == Some(messageId)
      ensures NoSend(old(state), state)
      ensures journal.lookups == old(journal.lookups) && Reports(old(journal.errors), journal.errors, committed)
      ensures arriving == old(arriving) && ignoredLosses == old(ignoredLosses)
    {
      var result: SaveOutcome := *;
      if result.Applied? || result.AppliedButReportedFailed? {
        rows := rows[key := rows[key].(status := Done, messageId := Some(messageId))];
      }
      Perform(Save(result));
      committed := result.Applied?;
      if !committed {
        journal.Fail();
      }
    }

    /** One locked check-in: edit its card, send the notice, commit. */
    method NoticeOne(key: Key, now: int) returns (proceed: bool)
      requires Tracks() && state.pc == Cleared(key) && key.op.RoutineClose?
      modifies this, ledger, journal
      ensures Tracks() && Grown(old(log), log, old(states), states) && state.pc.Idle?
      ensures OnlyKey(old(rows), old(arriving), old(ledger.rows), rows, arriving, ledger.rows, key)
      ensures ignoredLosses == old(ignoredLosses)
      ensures journal.lookups == old(journal.lookups) && Reports(old(journal.errors), journal.errors, proceed)
      ensures NoticesSent(old(rows), old(state), rows, state)
      ensures proceed && !(key in rows && rows[key].status.Done?) ==>
        ledger.rows == Recorded(old(ledger.rows), key, now, false)
      ensures proceed ==> Progressed(key, old(ledger.rows), old(ignoredLosses))
    {
      Others();
      proceed := EditAndNotice(key, now);
    }

    /** An edit is never ambiguous; one of a missing or unchanged card is no failure. */
    method EditAndNotice(key: Key, now: int) returns (proceed: bool)
      requires Tracks() && state.pc == Cleared(key) && key.op.RoutineClose?
      modifies this, ledger, journal
      ensures Tracks() && Grown(old(log), log, old(states), states) && state.pc.Idle?
      ensures OnlyKey(old(rows), old(arriving), old(ledger.rows), rows, arriving, ledger.rows, key)
      ensures ignoredLosses == old(ignoredLosses)
      ensures journal.lookups == old(journal.lookups) && Reports(old(journal.errors), journal.errors, proceed)
      ensures NoticesSent(old(rows), old(state), rows, state)
      ensures proceed && !(key in rows && rows[key].status.Done?) ==>
        ledger.rows == Recorded(old(ledger.rows), key, now, false)
      ensures proceed ==> Progressed(key, old(ledger.rows), old(ignoredLosses))
    {
      var edit: EditReply := *;
      match edit {
        case EditFailed =>
          journal.Fail();
          Perform(ReadFailed);
          proceed := false;
        case EditRefused(statusCode) =>
          Perform(Unavailable);
          proceed := DeferNotice(key, now, ApiError(statusCode, false));
        case EditPassed =>
          proceed := SendAndCommit(key, now);
      }
    }

    method SendAndCommit(key: Key, now: int) returns (proceed: bool)
      requires Tracks() && state.pc == Cleared(key) && key.op.RoutineClose?
      modifies this, ledger, journal
      ensures Tracks() && Grown(old(log), log, old(states), states) && state.pc.Idle?
      ensures OnlyKey(old(rows), old(arriving), old(ledger.rows), rows, arriving, ledger.rows, key)
      ensures ignoredLosses == old(ignoredLosses)
      ensures journal.lookups == old(journal.lookups) && Reports(old(journal.errors), journal.errors, proceed)
      ensures NoticesSent(old(rows), old(state), rows, state)
      ensures proceed && !(key in rows && rows[key].status.Done?) ==>
        ledger.rows == Recorded(old(ledger.rows), key, now, false)
      ensures proceed ==> Progressed(key, old(ledger.rows), old(ignoredLosses))
    {
      var reply := SendNotice(key);
      proceed := ConcludeNotice(key, now, reply);
    }

    method ConcludeNotice(key: Key, now: int, reply: Reply) returns (proceed: bool)
      requires Tracks() && state.pc == AfterReply(key, reply) && key.op.RoutineClose?
      modifies this, ledger, journal
      ensures Tracks() && Grown(old(log), log, old(states), states) && state.pc.Idle?
      ensures OnlyKey(old(rows), old(arriving), old(ledger.rows), rows, arriving, ledger.rows, key)
      ensures ignoredLosses == old(ignoredLosses) && NoSend(old(state), state)
      ensures journal.lookups == old(journal.lookups) && Reports(old(journal.errors), journal.errors, proceed)
      ensures proceed && !(key in rows && rows[key].status.Done?) ==>
        ledger.rows == Recorded(old(ledger.rows), key, now, false)
      ensures proceed ==> Progressed(key, old(ledger.rows), old(ignoredLosses))
    {
      Others();
      match reply {
        case Message(messageId) =>
          proceed := CommitNotice(key, messageId);
        case ApiFailure(error) =>
          proceed := DeferNotice(key, now, error);
        case ForeignFailure =>
          journal.Fail();
          proceed := false;
      }
    }

    method NoticeClaimed(key: Key, now: int, ghost clock: int) returns (proceed: bool)
      requires Tracks() && state.pc == Cleared(key) && key.op.RoutineClose?
      requires Ready(ledger.rows, key, clock)
      modifies this, ledger, journal
      ensures Tracks() && Grown(old(log), log, old(states), states) && state.pc.Idle?
      ensures rows.Keys + arriving == old(rows.Keys + arriving) && old(rows.Keys) <= rows.Keys
      ensures journal.lookups == old(journal.lookups) && Reports(old(journal.errors), journal.errors, proceed)
      ensures NoticesSent(old(rows), old(state), rows, state)
      ensures proceed ==>
        Remaining(RoutineClose, rows, arriving, ledger.rows) < old(Remaining(RoutineClose, rows, arriving, ledger.rows))
    {
      proceed := NoticeOne(key, now);
      if proceed {
        RoundShrinks(RoutineClose, old(rows), old(arriving), old(ledger.rows), rows, arriving, ledger.rows, key, clock);
      }
    }

    /** The lock after other processes had their turn. */
    method LockLater() returns (ok: bool, locked: Option<Key>, ghost clock: int)
      requires Tracks() && state.pc.Idle?
      modifies this, journal
      ensures Tracks() && Grown(old(log), log, old(states), states)
      ensures rows.Keys + arriving == old(rows.Keys + arriving) && old(rows.Keys) <= rows.Keys
      ensures NoticesSent(old(rows), old(state), rows, state)
      ensures journal.lookups == old(journal.lookups) && Reports(old(journal.errors), journal.errors, ok)
      ensures !ok ==> locked.None?
      ensures locked.None? ==> state.pc.Idle?
      ensures ok && locked.None? ==> forall key <- rows :: key.op.RoutineClose? ==> NoticeSettled(rows[key], key, ledger.rows, clock)
      ensures locked.Some? ==>
        && locked.value.op.RoutineClose? && state.pc == Cleared(locked.value) && Ready(ledger.rows, locked.value, clock)
        && Remaining(RoutineClose, rows, arriving, ledger.rows) == old(Remaining(RoutineClose, rows, arriving, ledger.rows))
    {
      Others();
      ok, locked, clock := LockNotice();
      ArrivalsKeepRemaining(RoutineClose, old(rows), old(arriving), rows, arriving, ledger.rows);
    }

    method NoticeRound(now: int) returns (verdict: Step, ghost clock: int)
      requires Tracks() && state.pc.Idle?
      modifies this, ledger, journal
      ensures Tracks() && Grown(old(log), log, old(states), states) && state.pc.Idle?
      ensures rows.Keys + arriving == old(rows.Keys + arriving) && old(rows.Keys) <= rows.Keys
      ensures journal.lookups == old(journal.lookups) && Reports(old(journal.errors), journal.errors, !verdict.Broken?)
      ensures NoticesSent(old(rows), old(state), rows, state)
      ensures verdict.Drained? ==>
        forall key <- rows :: key.op.RoutineClose? ==> NoticeSettled(rows[key], key, ledger.rows, clock)
      ensures verdict.GoOn? ==>
        Remaining(RoutineClose, rows, arriving, ledger.rows) < old(Remaining(RoutineClose, rows, arriving, ledger.rows))
    {
      var read, locked;
      read, locked, clock := LockLater();
      if locked.None? {
        return if read then Drained else Broken, clock;
      }
      var proceed := NoticeClaimed(locked.value, now, clock);
      verdict := if proceed then GoOn else Broken;
    }

    /**
     Sends the notices of automatic closes. It ends whatever the clocks do, and when it ends without an error every
     check-in has its notice or is held back by the ledger.
    */
    method SendAutoCloseNotices(now: int) returns (ok: bool, ghost clock: int)
      requires Tracks() && state.pc.Idle?
      modifies this, ledger, journal
      ensures Tracks() && Grown(old(log), log, old(states), states) && state.pc.Idle?
      ensures rows.Keys + arriving == old(rows.Keys + arriving) && old(rows.Keys) <= rows.Keys
      ensures journal.lookups == old(journal.lookups) && Reports(old(journal.errors), journal.errors, ok)
      ensures NoticesSent(old(rows), old(state), rows, state)
      ensures ok ==> forall key <- rows :: key.op.RoutineClose? ==> NoticeSettled(rows[key], key, ledger.rows, clock)
    {
      clock := 0;
      while true
        invariant Tracks() && Grown(old(log), log, old(states), states) && state.pc.Idle?
        invariant rows.Keys + arriving == old(rows.Keys + arriving) && old(rows.Keys) <= rows.Keys
        invariant journal.lookups == old(journal.lookups) && journal.errors == old(journal.errors)
        invariant NoticesSent(old(rows), old(state), rows, state)
        decreases Remaining(RoutineClose, rows, arriving, ledger.rows)
      {
        var verdict;
        verdict, clock := NoticeRound(now);
        if !verdict.GoOn? {
          return verdict.Drained?, clock;
        }
      }
    }

    /** Whatever loops a worker has run, with whatever outcomes, its chat obeys the bound on duplicates. */
    lemma ChatIsBounded(key: Key)
      requires Tracks() && Initial(states[0]) && Queued(key)
      ensures state.live[key] <= 1 + state.faults[key]
    {
      TraceIsRun(states, log);
      DuplicatesNeedFaults(states[0], log, key);
    }

    /** And a suspension that was in force at some logged state has stopped every later send of the worker for that entity. */
    lemma SuspensionHolds(key: Key, i: nat)
      requires Tracks() && Initial(states[0]) && i <= |log|
      requires Exhausted(states[i].ledger, key) && Reconcile(key) !in log[i..]
      ensures Exhausted(ledger.rows, key) && state.sends[key] == states[i].sends[key] + Refreshes(log[i..], key)
    {
      TraceKeepsGate(states, log, i);
      TraceIsRun(states[i..], log[i..]);
      SuspensionIsSticky(states[i], log[i..], key);
    }
  }
}
