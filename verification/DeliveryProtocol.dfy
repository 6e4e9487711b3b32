/**
 The worker's deliveries as one state machine. A state holds the outbox rows (progress events and alerts), the
 retry ledger, the control point of the one worker that owns the lease, and three counters per entity: the
 worker's messages that may still be visible in the chat (`live`), send requests issued by anyone (`sends`), and
 lost-knowledge events (`faults`). Every action
 is one database statement, one Telegram request, a crash, or a change made by another process.
*/
module DeliveryProtocol {
  import opened Prelude
  import opened RetryLedger

  const LEASE_SECONDS := 5 * 60

  /** pending; publishing or dispatching; published or sent; failed. */
  datatype Status = Pending | Claimed | Done | Failed

  datatype Row = Row(status: Status, startedAt: Option<int>, messageId: Option<int>, acknowledged: bool)

  type Rows = map<Key, Row>

  predicate Outbox(key: Key) {
    key.op.Progress? || key.op.Alert?
  }

  /** The entities that have a row here: outbox rows, and automatically closed check-ins that owe a notice. */
  predicate Queued(key: Key) {
    Outbox(key) || key.op.RoutineClose?
  }

  predicate Stale(row: Row, dbNow: int) {
    row.status.Claimed? && (row.startedAt.None? || row.startedAt.value <= dbNow - LEASE_SECONDS)
  }

  /** The WHERE clause of both claim statements; progress events are never acknowledged. */
  predicate Claimable(row: Row, dbNow: int) {
    !row.acknowledged && (row.status.Pending? || Stale(row, dbNow))
  }

  /** Where the worker stands. Every control point but Idle concerns one entity. */
  datatype Pc =
    | Idle
    | Cleared(key: Key)                     // past the gate, about to send
    | Refused(key: Key, suspend: bool)      // failed, about to write the ledger
    | GivingBack(key: Key)                  // about to requeue the row
    | Sent(key: Key, messageId: int)        // about to persist the message id
    | Unsaved(key: Key, messageId: int)     // persisting failed, about to delete the message
    | Confirmed(key: Key)                   // about to clear the ledger

  datatype State = State(
    rows: Rows, ledger: Table, pc: Pc,
    live: multiset<Key>, sends: multiset<Key>, faults: multiset<Key>)

  datatype SendOutcome = Delivered(messageId: int) | Rejected | ReplyTargetMissing | Ambiguous | NothingSent

  /** CommitLost: the statement went through but its transaction did not. */
  datatype SaveOutcome = Applied | NotApplied | AppliedButReportedFailed | CommitLost

  /** What deliverWeeklyReviewPrompt makes of a compensated message whose review was closed meanwhile. */
  datatype AfterDelete = Stop | TreatAsDelivered | TreatAsFailed

  datatype Action =
    | Claim(key: Key, dbNow: int, clock: int)
    | Lock(key: Key, clock: int)
    | Gate(key: Key, now: int)
    | Send(outcome: SendOutcome)
    | NothingToSend
    | Unavailable
    | GiveUp(applied: bool)
    | ReadFailed
    | RecordFailure(now: int, wrote: bool)
    | Requeue(applied: bool)
    | Save(result: SaveOutcome)
    | Delete(ok: bool, next: AfterDelete)
    | ClearRetry(applied: bool)
    | Crash
    | Insert(key: Key)
    | Acknowledge(key: Key)
    | Reconcile(key: Key)
    | Refresh(key: Key)

  predicate Enabled(s: State, a: Action) {
    match a
    case Claim(key, dbNow, clock) =>
      s.pc.Idle? && Outbox(key) && key in s.rows && Claimable(s.rows[key], dbNow) && Ready(s.ledger, key, clock)
    case Lock(key, clock) =>
      s.pc.Idle? && key.op.RoutineClose? && key in s.rows && s.rows[key].status.Pending? && Ready(s.ledger, key, clock)
    case Gate(key, now) => s.pc.Idle? && !Queued(key) && Ready(s.ledger, key, now)
    case Send(_) => s.pc.Cleared?
    case NothingToSend => s.pc.Cleared? && !Queued(s.pc.key)
    case Unavailable => s.pc.Cleared? && !s.pc.key.op.Progress?
    case GiveUp(_) => s.pc.Cleared? && s.pc.key.op.Progress?
    case ReadFailed => s.pc.Cleared?
    case RecordFailure(_, _) => s.pc.Refused?
    case Requeue(_) => s.pc.GivingBack?
    case Save(result) => s.pc.Sent? && (result.CommitLost? ==> s.pc.key.op.RoutineClose?)
    case Delete(ok, next) =>
      s.pc.Unsaved?
      && (!next.Stop? ==> s.pc.key.op.GoalWeekly? || s.pc.key.op.GoalReminder?)
      && (next.TreatAsDelivered? ==> ok) && (next.TreatAsFailed? ==> !ok)
    case ClearRetry(_) => s.pc.Confirmed?
    case Crash => true
    case Insert(key) => Queued(key) && key !in s.rows && s.live[key] == 0
    case Acknowledge(key) => key in s.rows && key.op.Alert?
    case Reconcile(key) => true
    case Refresh(key) => key.op.RoutineLeaderboard?
  }

  /** UPDATE ... WHERE id = key AND status = 'claimed': no effect on any other status. */
  function IfClaimed(rows: Rows, key: Key, row: Row): Rows {
    if key in rows && rows[key].status.Claimed? then rows[key := row.(acknowledged := rows[key].acknowledged)] else rows
  }

  function Requeued(rows: Rows, key: Key): Rows {
    if key in rows then IfClaimed(rows, key, rows[key].(status := Pending, startedAt := None)) else rows
  }

  function MarkedDone(rows: Rows, key: Key, messageId: int): Rows {
    IfClaimed(rows, key, Row(Done, None, Some(messageId), false))
  }

  function MarkedFailed(rows: Rows, key: Key): Rows {
    if key in rows then IfClaimed(rows, key, rows[key].(status := Status.Failed, startedAt := None)) else rows
  }

  /** After the ledger statement the outbox loops requeue, the others return to their stage. */
  function AfterRecord(key: Key): Pc {
    if Outbox(key) then GivingBack(key) else Idle
  }

  function Next(s: State, a: Action): State
    requires Enabled(s, a)
  {
    match a
    case Claim(key, dbNow, _) =>
      s.(rows := s.rows[key := s.rows[key].(status := Claimed, startedAt := Some(dbNow))],
         pc := Cleared(key),
         faults := if s.rows[key].status.Claimed? then s.faults + multiset{key} else s.faults)
    case Lock(key, _) => s.(pc := Cleared(key))
    case Gate(key, _) => s.(pc := Cleared(key))
    case Send(outcome) => AfterSend(s.(sends := s.sends + multiset{s.pc.key}), outcome)
    case NothingToSend => s.(pc := Confirmed(s.pc.key))
    case Unavailable => s.(pc := Refused(s.pc.key, false))
    case GiveUp(applied) => s.(rows := if applied then MarkedFailed(s.rows, s.pc.key) else s.rows, pc := Idle)
    case ReadFailed => s.(pc := AfterRecord(s.pc.key))
    case RecordFailure(now, wrote) =>
      var key := s.pc.key;
      if wrote then s.(ledger := Recorded(s.ledger, key, now, s.pc.suspend), pc := AfterRecord(key))
      else s.(pc := AfterRecord(key), faults := if s.pc.suspend then s.faults + multiset{key} else s.faults)
    case Requeue(applied) => s.(rows := if applied then Requeued(s.rows, s.pc.key) else s.rows, pc := Idle)
    case Save(result) => AfterSave(s, result)
    case Delete(ok, next) =>
      s.(live := if ok then s.live - multiset{s.pc.key} else s.live,
         faults := if !ok && s.pc.key.op.RoutineClose? then s.faults + multiset{s.pc.key} else s.faults,
         pc := match next
               case Stop => if ok && Outbox(s.pc.key) then GivingBack(s.pc.key) else Idle
               case TreatAsDelivered => Confirmed(s.pc.key)
               case TreatAsFailed => Refused(s.pc.key, false))
    case ClearRetry(applied) => s.(ledger := if applied then s.ledger - {s.pc.key} else s.ledger, pc := Idle)
    case Crash =>
      s.(pc := Idle, faults := if LeavesUnknown(s.pc) then s.faults + multiset{s.pc.key} else s.faults)
    case Insert(key) => s.(rows := s.rows[key := Row(Pending, None, None, false)])
    case Acknowledge(key) => s.(rows := s.rows[key := s.rows[key].(acknowledged := true, messageId := None)])
    case Reconcile(key) => s.(ledger := s.ledger - {key}, faults := s.faults + multiset{key})
    case Refresh(key) => s.(sends := s.sends + multiset{key})
  }

  /**
   A row lock leaves nothing behind: when the worker goes while a close notice may be in the chat and is not yet
   recorded, that knowledge is lost at once. An outbox claim stays in its row and is lost when it is taken over.
  */
  predicate LeavesUnknown(pc: Pc) {
    !pc.Idle? && pc.key.op.RoutineClose? && (pc.Sent? || pc.Unsaved? || (pc.Refused? && pc.suspend))
  }

  function AfterSend(s: State, outcome: SendOutcome): State
    requires s.pc.Cleared?
  {
    var key := s.pc.key;
    match outcome
    case Delivered(messageId) => s.(live := s.live + multiset{key}, pc := Sent(key, messageId))
    case Rejected => s.(pc := Refused(key, false))
    case ReplyTargetMissing => if Outbox(key) then s.(pc := Refused(key, false)) else s
    case Ambiguous => s.(live := s.live + multiset{key}, pc := Refused(key, true))
    case NothingSent => s.(pc := AfterRecord(key))
  }

  function AfterSave(s: State, result: SaveOutcome): State
    requires s.pc.Sent?
  {
    var key, messageId := s.pc.key, s.pc.messageId;
    if key.op.RoutineClose? then AfterCommit(s, key, messageId, result)
    else
      var rows := if result.NotApplied? then s.rows else MarkedDone(s.rows, key, messageId);
      var lost := Outbox(key) && !(key in s.rows && s.rows[key].status.Claimed?);
      s.(rows := rows, pc := if result.Applied? && !lost then Confirmed(key) else Unsaved(key, messageId))
  }

  /** The transaction of a close notice: the message id and the end of the row lock are committed together. */
  function AfterCommit(s: State, key: Key, messageId: int, result: SaveOutcome): State {
    match result
    case Applied => s.(rows := Noticed(s.rows, key, messageId), pc := Confirmed(key))
    case NotApplied => s.(pc := Unsaved(key, messageId))
    case AppliedButReportedFailed => s.(rows := Noticed(s.rows, key, messageId), pc := Idle)
    case CommitLost => s.(pc := Idle, faults := s.faults + multiset{key})
  }

  function Noticed(rows: Rows, key: Key, messageId: int): Rows {
    if key in rows then rows[key := rows[key].(status := Done, messageId := Some(messageId))] else rows
  }

  // ----- Runs -----

  ghost predicate Runs(s: State, actions: seq<Action>)
    decreases |actions|
  {
    actions != [] ==> Enabled(s, actions[0]) && Runs(Next(s, actions[0]), actions[1..])
  }

  ghost function Exec(s: State, actions: seq<Action>): State
    requires Runs(s, actions)
    decreases |actions|
  {
    if actions == [] then s else Exec(Next(s, actions[0]), actions[1..])
  }

  /** A run written out with its intermediate states. */
  ghost predicate Trace(states: seq<State>, actions: seq<Action>) {
    && |states| == |actions| + 1
    && forall i :: 0 <= i < |actions| ==> Enabled(states[i], actions[i]) && states[i + 1] == Next(states[i], actions[i])
  }

  lemma TraceExtends(states: seq<State>, actions: seq<Action>, a: Action)
    requires Trace(states, actions) && Enabled(states[|actions|], a)
    ensures Trace(states + [Next(states[|actions|], a)], actions + [a])
  {
  }

  lemma {:induction false} TraceIsRun(states: seq<State>, actions: seq<Action>)
    requires Trace(states, actions)
    ensures Runs(states[0], actions) && Exec(states[0], actions) == states[|actions|]
    decreases |actions|
  {
    if actions != [] {
      TraceIsRun(states[1..], actions[1..]);
    }
  }

  ghost predicate Initial(s: State) {
    s.pc.Idle? && s.live == multiset{} && s.faults == multiset{} && s.sends == multiset{}
  }

  // ----- Suspension -----

  /** Between the gate and the ledger statement the worker never stands at a suspended entity. */
  ghost predicate GateHolds(s: State) {
    s.pc.Idle? || s.pc.GivingBack? || !Exhausted(s.ledger, s.pc.key)
  }

  /** Actions that pick up work or come from outside. */
  predicate Outer(a: Action) {
    a.Claim? || a.Lock? || a.Gate? || a.Insert? || a.Acknowledge? || a.Crash? || a.Reconcile? || a.Refresh?
  }

  /** Actions that change neither rows nor ledger. */
  predicate Asks(a: Action) {
    a.Send? || a.NothingToSend? || a.Unavailable? || a.ReadFailed?
  }

  /** A participant's answer makes the bot refresh the leaderboard of the workspace, without a look at the ledger. */
  ghost function Refreshes(actions: seq<Action>, key: Key): nat
    decreases |actions|
  {
    if actions == [] then 0 else (if actions[0] == Refresh(key) then 1 else 0) + Refreshes(actions[1..], key)
  }

  ghost predicate SuspensionKept(s: State, a: Action, key: Key)
    requires Enabled(s, a)
  {
    && GateHolds(Next(s, a))
    && (Exhausted(s.ledger, key) && a != Reconcile(key) ==>
          Exhausted(Next(s, a).ledger, key) && Next(s, a).sends[key] == s.sends[key] + (if a == Refresh(key) then 1 else 0))
  }

  lemma AskKeepsSuspension(s: State, a: Action, key: Key)
    requires GateHolds(s) && Enabled(s, a) && Asks(a)
    ensures SuspensionKept(s, a, key)
  {
  }

  lemma RecordKeepsSuspension(s: State, a: Action, key: Key)
    requires GateHolds(s) && Enabled(s, a) && a.RecordFailure?
    ensures SuspensionKept(s, a, key)
  {
  }

  lemma WriteKeepsSuspension(s: State, a: Action, key: Key)
    requires GateHolds(s) && Enabled(s, a) && !Outer(a) && !Asks(a) && !a.RecordFailure?
    ensures SuspensionKept(s, a, key)
  {
  }

  lemma StepKeepsSuspension(s: State, a: Action, key: Key)
    requires GateHolds(s) && Enabled(s, a)
    ensures GateHolds(Next(s, a))
    ensures Exhausted(s.ledger, key) && a != Reconcile(key) ==>
              Exhausted(Next(s, a).ledger, key) && Next(s, a).sends[key] == s.sends[key] + (if a == Refresh(key) then 1 else 0)
  {
    if Asks(a) {
      AskKeepsSuspension(s, a, key);
    } else if a.RecordFailure? {
      RecordKeepsSuspension(s, a, key);
    } else if !Outer(a) {
      WriteKeepsSuspension(s, a, key);
    }
  }

  /**
   Although the upsert recomputes `exhausted` from scratch and abandoned rows can be claimed again, no run of
   ticks, crashes and lease expiries sends for a suspended entity until an operator removes its ledger row. The only
   sends are the bot's own refreshes of a leaderboard.
  */
  lemma {:induction false} SuspensionIsSticky(s: State, actions: seq<Action>, key: Key)
    requires GateHolds(s) && Runs(s, actions)
    requires Exhausted(s.ledger, key)
    requires Reconcile(key) !in actions
    ensures Exhausted(Exec(s, actions).ledger, key)
    ensures Exec(s, actions).sends[key] == s.sends[key] + Refreshes(actions, key)
    ensures !key.op.RoutineLeaderboard? ==> Refreshes(actions, key) == 0
    decreases |actions|
  {
    if actions != [] {
      assert actions[0] in actions;
      StepKeepsSuspension(s, actions[0], key);
      forall a | a in actions[1..] ensures a in actions {}
      SuspensionIsSticky(Next(s, actions[0]), actions[1..], key);
    }
  }

  lemma {:induction false} TraceKeepsGate(states: seq<State>, actions: seq<Action>, i: nat)
    requires Trace(states, actions) && GateHolds(states[0]) && i <= |actions|
    ensures GateHolds(states[i])
  {
    if i > 0 {
      TraceKeepsGate(states, actions, i - 1);
      StepKeepsSuspension(states[i - 1], actions[i - 1], Key(Progress, 0));
    }
  }

  /** A failure suspends at once only after a send whose outcome is unknown. */
  lemma SuspendNeedsAmbiguity(s: State, a: Action)
    requires Enabled(s, a)
    ensures var t := Next(s, a);
      t.pc.Refused? && t.pc.suspend && !(s.pc.Refused? && s.pc.suspend) ==> a == Send(Ambiguous)
  {
  }

  /** An operator can resume any entity, and then nothing in the ledger holds it back. */
  lemma ReconcileResumes(s: State, key: Key, clock: int)
    ensures Enabled(s, Reconcile(key)) && Ready(Next(s, Reconcile(key)).ledger, key, clock)
  {
  }

  /** A prompt that lost its review meanwhile is taken back: gone, it counts as delivered, and otherwise as a failure. */
  lemma LatePromptIsTakenBack(s: State)
    requires s.pc.Unsaved? && (s.pc.key.op.GoalWeekly? || s.pc.key.op.GoalReminder?)
    ensures Enabled(s, Delete(true, TreatAsDelivered)) && Enabled(s, Delete(false, TreatAsFailed))
    ensures var gone, kept := Next(s, Delete(true, TreatAsDelivered)), Next(s, Delete(false, TreatAsFailed));
      && gone == s.(live := s.live - multiset{s.pc.key}, pc := Confirmed(s.pc.key))
      && kept == s.(pc := Refused(s.pc.key, false))
  {
  }

  // ----- Duplicates -----

  /** What counts as lost knowledge about an entity, event by event. */
  lemma FaultsHaveCauses(s: State, a: Action, key: Key)
    requires Enabled(s, a)
    ensures var mine := !s.pc.Idle? && s.pc.key == key;
      Next(s, a).faults[key] == s.faults[key] + if
        || (a.Claim? && a.key == key && s.rows[key].status.Claimed?)
        || (a.RecordFailure? && mine && s.pc.suspend && !a.wrote)
        || (a.Crash? && mine && key.op.RoutineClose? && (s.pc.Sent? || s.pc.Unsaved? || (s.pc.Refused? && s.pc.suspend)))
        || (a.Delete? && mine && key.op.RoutineClose? && !a.ok)
        || (a.Save? && mine && key.op.RoutineClose? && a.result.CommitLost?)
        || (a.Reconcile? && a.key == key)
      then 1 else 0
  {
  }

  /** How many messages may be visible for a queued entity, given where its row and the worker are. */
  ghost function Allowance(s: State, key: Key): nat {
    s.faults[key] + (
      if s.pc.Cleared? && s.pc.key == key then 0
      else if s.pc.Refused? && s.pc.key == key && !s.pc.suspend then 0
      else if s.pc.GivingBack? && s.pc.key == key && !Exhausted(s.ledger, key) then 0
      else if LeavesUnknown(s.pc) && s.pc.key == key then 1
      else if key !in s.rows then 0
      else if s.rows[key].status.Pending? && !Exhausted(s.ledger, key) then 0
      else 1)
  }

  /**
   The outbox row the worker stands at stays claimed until the worker itself changes it; a locked row stays pending
   until its notice is committed.
  */
  ghost predicate HoldsClaim(s: State) {
    !s.pc.Idle? && Queued(s.pc.key) ==>
      && s.pc.key in s.rows
      && (if Outbox(s.pc.key)
          then s.rows[s.pc.key].status.Claimed? || (s.rows[s.pc.key].status.Done? && !s.pc.Cleared? && !s.pc.Refused? && !s.pc.Sent?)
          else (if s.pc.Confirmed? then s.rows[s.pc.key].status.Done? else s.rows[s.pc.key].status.Pending? && !s.pc.GivingBack?))
  }

  ghost predicate Bounded(s: State, key: Key) {
    s.live[key] <= Allowance(s, key)
  }

  lemma SaveKeepsClaim(s: State, a: Action)
    requires HoldsClaim(s) && Enabled(s, a) && a.Save?
    ensures HoldsClaim(Next(s, a))
  {
  }

  lemma WriteKeepsClaim(s: State, a: Action)
    requires HoldsClaim(s) && Enabled(s, a) && !Outer(a) && !Asks(a) && !a.Save?
    ensures HoldsClaim(Next(s, a))
  {
  }

  lemma StepKeepsClaim(s: State, a: Action)
    requires HoldsClaim(s) && Enabled(s, a)
    ensures HoldsClaim(Next(s, a))
  {
    if a.Save? {
      SaveKeepsClaim(s, a);
    } else if !Outer(a) && !Asks(a) {
      WriteKeepsClaim(s, a);
    }
  }

  lemma ClaimKeepsBound(s: State, a: Action, key: Key)
    requires GateHolds(s) && HoldsClaim(s) && Queued(key) && Bounded(s, key) && Enabled(s, a)
    requires a.Claim? || a.Lock? || a.Gate?
    ensures Bounded(Next(s, a), key)
  {
  }

  lemma SendKeepsBound(s: State, a: Action, key: Key)
    requires GateHolds(s) && HoldsClaim(s) && Queued(key) && Bounded(s, key) && Enabled(s, a)
    requires a.Send?
    ensures Bounded(Next(s, a), key)
  {
  }

  lemma AskKeepsBound(s: State, a: Action, key: Key)
    requires GateHolds(s) && HoldsClaim(s) && Queued(key) && Bounded(s, key) && Enabled(s, a)
    requires (Asks(a) && !a.Send?) || a.GiveUp?
    ensures Bounded(Next(s, a), key)
  {
  }

  lemma WriteKeepsBound(s: State, a: Action, key: Key)
    requires GateHolds(s) && HoldsClaim(s) && Queued(key) && Bounded(s, key) && Enabled(s, a)
    requires a.RecordFailure? || a.Requeue?
    ensures Bounded(Next(s, a), key)
  {
  }

  lemma SaveKeepsBound(s: State, a: Action, key: Key)
    requires GateHolds(s) && HoldsClaim(s) && Queued(key) && Bounded(s, key) && Enabled(s, a)
    requires a.Save?
    ensures Bounded(Next(s, a), key)
  {
  }

  lemma DeleteKeepsBound(s: State, a: Action, key: Key)
    requires GateHolds(s) && HoldsClaim(s) && Queued(key) && Bounded(s, key) && Enabled(s, a)
    requires a.Delete?
    ensures Bounded(Next(s, a), key)
  {
  }

  lemma ClearKeepsBound(s: State, a: Action, key: Key)
    requires GateHolds(s) && HoldsClaim(s) && Queued(key) && Bounded(s, key) && Enabled(s, a)
    requires a.ClearRetry?
    ensures Bounded(Next(s, a), key)
  {
  }

  lemma OutsideKeepsBound(s: State, a: Action, key: Key)
    requires GateHolds(s) && HoldsClaim(s) && Queued(key) && Bounded(s, key) && Enabled(s, a)
    requires a.Crash? || a.Insert? || a.Acknowledge? || a.Reconcile? || a.Refresh?
    ensures Bounded(Next(s, a), key)
  {
  }

  lemma StepKeepsBound(s: State, a: Action, key: Key)
    requires GateHolds(s) && HoldsClaim(s) && Queued(key) && Bounded(s, key) && Enabled(s, a)
    ensures Bounded(Next(s, a), key)
  {
    match a
    case Claim(_, _, _) => ClaimKeepsBound(s, a, key);
    case Lock(_, _) => ClaimKeepsBound(s, a, key);
    case Gate(_, _) => ClaimKeepsBound(s, a, key);
    case Send(_) => SendKeepsBound(s, a, key);
    case RecordFailure(_, _) => WriteKeepsBound(s, a, key);
    case Requeue(_) => WriteKeepsBound(s, a, key);
    case Save(_) => SaveKeepsBound(s, a, key);
    case Delete(_, _) => DeleteKeepsBound(s, a, key);
    case ClearRetry(_) => ClearKeepsBound(s, a, key);
    case Crash => OutsideKeepsBound(s, a, key);
    case Insert(_) => OutsideKeepsBound(s, a, key);
    case Acknowledge(_) => OutsideKeepsBound(s, a, key);
    case Reconcile(_) => OutsideKeepsBound(s, a, key);
    case Refresh(_) => OutsideKeepsBound(s, a, key);
    case _ => AskKeepsBound(s, a, key);
  }

  lemma {:induction false} BoundHoldsAlong(s: State, actions: seq<Action>, key: Key)
    requires GateHolds(s) && HoldsClaim(s) && Queued(key) && Bounded(s, key)
    requires Runs(s, actions)
    ensures Bounded(Exec(s, actions), key)
    decreases |actions|
  {
    if actions != [] {
      StepKeepsSuspension(s, actions[0], key);
      StepKeepsClaim(s, actions[0]);
      StepKeepsBound(s, actions[0], key);
      BoundHoldsAlong(Next(s, actions[0]), actions[1..], key);
    }
  }

  /** A pending row that is not suspended, unless it is locked by a worker that has just sent for it. */
  predicate Sendable(s: State, key: Key) {
    key in s.rows && s.rows[key].status.Pending? && !Exhausted(s.ledger, key) && !(LeavesUnknown(s.pc) && s.pc.key == key)
  }

  /**
   In every reachable state a progress event, an alert or a check-in that owes a close notice has at most one visible
   message more than there were lost-knowledge events for it: stale claims taken over, ambiguous sends whose ledger
   write failed, ledger rows removed by hand, and close notices whose transaction ended without recording or
   deleting them.
   Without any such event there is at most one message, and none while the row can be sent again.
  */
  lemma DuplicatesNeedFaults(s: State, actions: seq<Action>, key: Key)
    requires Initial(s) && Queued(key) && Runs(s, actions)
    ensures var e := Exec(s, actions);
            && e.live[key] <= 1 + e.faults[key]
            && (Sendable(e, key) ==> e.live[key] <= e.faults[key])
  {
    BoundHoldsAlong(s, actions, key);
  }

  /** Claim, send, die. */
  function Takeover(key: Key, from: nat): seq<Action> {
    [Claim(key, LEASE_SECONDS * from, 0), Send(Delivered(from)), Crash]
  }

  function Takeovers(key: Key, from: nat, n: nat): seq<Action>
    decreases n
  {
    if n == 0 then [] else Takeover(key, from) + Takeovers(key, from + 1, n - 1)
  }

  lemma RunsOne(s: State, a: Action, rest: seq<Action>)
    requires Enabled(s, a) && Runs(Next(s, a), rest)
    ensures Runs(s, [a] + rest) && Exec(s, [a] + rest) == Exec(Next(s, a), rest)
  {
    assert ([a] + rest)[1..] == rest;
  }

  lemma RunsThree(s: State, a: Action, b: Action, c: Action, rest: seq<Action>)
    requires Enabled(s, a) && Enabled(Next(s, a), b) && Enabled(Next(Next(s, a), b), c)
    requires Runs(Next(Next(Next(s, a), b), c), rest)
    ensures Runs(s, [a, b, c] + rest) && Exec(s, [a, b, c] + rest) == Exec(Next(Next(Next(s, a), b), c), rest)
  {
    RunsOne(Next(Next(s, a), b), c, rest);
    RunsOne(Next(s, a), b, [c] + rest);
    RunsOne(s, a, [b] + ([c] + rest));
    assert [a, b, c] + rest == [a] + ([b] + ([c] + rest));
  }

  lemma TakeoverDuplicates(s: State, key: Key, from: nat) returns (t: State)
    requires s.pc.Idle? && Outbox(key) && key in s.rows && Claimable(s.rows[key], LEASE_SECONDS * from) && key !in s.ledger
    ensures var a := Takeover(key, from);
      && Enabled(s, a[0]) && Enabled(Next(s, a[0]), a[1]) && Enabled(Next(Next(s, a[0]), a[1]), a[2])
      && t == Next(Next(Next(s, a[0]), a[1]), a[2])
    ensures t.pc.Idle? && key in t.rows && Claimable(t.rows[key], LEASE_SECONDS * (from + 1)) && t.ledger == s.ledger
    ensures t.rows[key].status.Claimed? && t.live[key] == s.live[key] + 1
    ensures t.faults[key] == s.faults[key] + (if s.rows[key].status.Pending? then 0 else 1)
  {
    var a := Takeover(key, from);
    t := Next(Next(Next(s, a[0]), a[1]), a[2]);
  }

  lemma {:induction false} TakeoversDuplicate(s: State, key: Key, from: nat, n: nat)
    requires s.pc.Idle? && Outbox(key) && key in s.rows && Claimable(s.rows[key], LEASE_SECONDS * from) && key !in s.ledger
    requires n > 0
    ensures Runs(s, Takeovers(key, from, n))
    ensures var e := Exec(s, Takeovers(key, from, n));
            && e.live[key] == s.live[key] + n
            && e.faults[key] == s.faults[key] + n - (if s.rows[key].status.Pending? then 1 else 0)
    decreases n
  {
    var t := TakeoverDuplicates(s, key, from);
    if n > 1 {
      TakeoversDuplicate(t, key, from + 1, n - 1);
    }
    var a := Takeover(key, from);
    RunsThree(s, a[0], a[1], a[2], Takeovers(key, from + 1, n - 1));
  }

  /** The bound cannot be improved: a worker that dies after each send leaves n + 1 messages after n takeovers. */
  lemma BoundIsTight(key: Key, n: nat)
    requires Outbox(key)
    ensures exists s, actions ::
      && Initial(s) && Runs(s, actions)
      && Exec(s, actions).faults[key] == n && Exec(s, actions).live[key] == n + 1
  {
    var s := State(map[key := Row(Pending, None, None, false)], map[], Idle, multiset{}, multiset{}, multiset{});
    TakeoversDuplicate(s, key, 0, n + 1);
  }

  ghost function LostMarks(key: Key, from: nat, n: nat): seq<Action>
    decreases n
  {
    if n == 0 then [] else [Claim(key, LEASE_SECONDS * from, 0), GiveUp(false)] + LostMarks(key, from + 1, n - 1)
  }

  /** One lost mark: the row stays claimed, and its lease has expired at the next claim. */
  lemma LostMark(s: State, key: Key, from: nat) returns (t: State)
    requires s.pc.Idle? && key.op.Progress? && key in s.rows && key !in s.ledger
    requires Claimable(s.rows[key], LEASE_SECONDS * from)
    ensures var a := Claim(key, LEASE_SECONDS * from, 0);
      Enabled(s, a) && Enabled(Next(s, a), GiveUp(false)) && t == Next(Next(s, a), GiveUp(false))
    ensures t.pc.Idle? && key in t.rows && t.ledger == s.ledger && Claimable(t.rows[key], LEASE_SECONDS * (from + 1))
  {
    t := Next(Next(s, Claim(key, LEASE_SECONDS * from, 0)), GiveUp(false));
  }

  /**
   The progress loop drops the error of MarkProgressEventFailed. While that statement keeps failing and each
   claim finds the lease of the previous one expired, the loop goes round as often as one likes.
  */
  lemma {:induction false} DroppedErrorsGoRound(s: State, key: Key, from: nat, n: nat)
    requires s.pc.Idle? && key.op.Progress? && key in s.rows && key !in s.ledger
    requires Claimable(s.rows[key], LEASE_SECONDS * from)
    ensures Runs(s, LostMarks(key, from, n))
    ensures var e := Exec(s, LostMarks(key, from, n));
            e.pc.Idle? && e.ledger == s.ledger && key in e.rows && Claimable(e.rows[key], LEASE_SECONDS * (from + n))
    decreases n
  {
    if n > 0 {
      var t := LostMark(s, key, from);
      DroppedErrorsGoRound(t, key, from + 1, n - 1);
    }
  }

  /** The row still belongs to the claim made at t. */
  predicate HeldSince(rows: Rows, key: Key, t: int) {
    key in rows && rows[key].status.Claimed? && rows[key].startedAt == Some(t)
  }

  predicate WorksOn(pc: Pc, key: Key) {
    !pc.Idle? && pc.key == key
  }

  /**
   A claim whose worker died keeps its row for the whole lease: until a claim statement reads a clock five minutes
   later, nobody takes the row over and nothing changes it.
  */
  lemma {:induction false} AbandonedClaimKeepsItsLease(s: State, actions: seq<Action>, key: Key, t: int)
    requires Outbox(key) && Runs(s, actions) && HeldSince(s.rows, key, t) && !WorksOn(s.pc, key)
    requires forall a <- actions :: a.Claim? ==> a.dbNow < t + LEASE_SECONDS
    ensures var e := Exec(s, actions);
            HeldSince(e.rows, key, t) && !WorksOn(e.pc, key) && e.sends[key] == s.sends[key] && e.live[key] == s.live[key]
    decreases |actions|
  {
    if actions != [] {
      var a := actions[0];
      assert a in actions;
      StepKeepsLease(s, a, key, t);
      forall b | b in actions[1..] ensures b in actions {}
      AbandonedClaimKeepsItsLease(Next(s, a), actions[1..], key, t);
    }
  }

  lemma RecordKeepsRows(s: State, a: Action, key: Key)
    requires Enabled(s, a) && !WorksOn(s.pc, key) && a.RecordFailure?
    ensures Next(s, a).rows == s.rows && !WorksOn(Next(s, a).pc, key)
  {
    assert Next(s, a).pc == AfterRecord(s.pc.key);
  }

  lemma DeleteKeepsRows(s: State, a: Action, key: Key)
    requires Enabled(s, a) && !WorksOn(s.pc, key) && a.Delete?
    ensures Next(s, a).rows == s.rows && !WorksOn(Next(s, a).pc, key)
  {
  }

  lemma StatementsSpareChat(s: State, a: Action, key: Key)
    requires Enabled(s, a) && !WorksOn(s.pc, key)
    requires Outbox(key)
    ensures Next(s, a).sends[key] == s.sends[key] && Next(s, a).live[key] == s.live[key]
  {
    if a.Send? || a.Delete? {
      assert s.pc.key != key;
    } else if a.Refresh? {
      assert a.key != key;
    } else {
      assert Next(s, a).sends == s.sends && Next(s, a).live == s.live;
    }
  }

  lemma StepKeepsLease(s: State, a: Action, key: Key, t: int)
    requires Enabled(s, a) && HeldSince(s.rows, key, t) && !WorksOn(s.pc, key) && Outbox(key)
    requires a.Claim? ==> a.dbNow < t + LEASE_SECONDS
    ensures var n := Next(s, a);
            HeldSince(n.rows, key, t) && !WorksOn(n.pc, key) && n.sends[key] == s.sends[key] && n.live[key] == s.live[key]
  {
    StatementsSpareChat(s, a, key);
    if a.RecordFailure? {
      RecordKeepsRows(s, a, key);
    } else if a.Delete? {
      DeleteKeepsRows(s, a, key);
    }
  }

  predicate Finished(row: Row) {
    row.status.Done? || row.status.Failed?
  }

  /** What a finished row keeps: its status, and its message id unless an alert is dismissed. */
  predicate Keeps(row: Row, later: Row) {
    && (row.acknowledged ==> later.acknowledged)
    && (Finished(row) ==> later.status == row.status && (later.messageId == row.messageId || later.acknowledged))
  }

  lemma StepKeepsFinished(s: State, a: Action, key: Key)
    requires Enabled(s, a) && key in s.rows
    requires key.op.RoutineClose? ==> HoldsClaim(s)
    ensures key in Next(s, a).rows && Keeps(s.rows[key], Next(s, a).rows[key])
  {
  }

  /** A finished row keeps its status, and a published message id is never overwritten; no row disappears. */
  lemma {:induction false} FinishedRowsStay(s: State, actions: seq<Action>, key: Key)
    requires Runs(s, actions) && key in s.rows
    requires key.op.RoutineClose? ==> HoldsClaim(s)
    ensures key in Exec(s, actions).rows && Keeps(s.rows[key], Exec(s, actions).rows[key])
    decreases |actions|
  {
    if actions != [] {
      StepKeepsFinished(s, actions[0], key);
      if HoldsClaim(s) {
        StepKeepsClaim(s, actions[0]);
      }
      FinishedRowsStay(Next(s, actions[0]), actions[1..], key);
    }
  }
}
