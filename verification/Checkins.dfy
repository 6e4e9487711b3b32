/**
 The life of one routine check-in: item-by-item answers of the owner, reasons asked for in between, the worker's
 reminder, the automatic close, its notice, and the cleanup of temporary messages.
*/
module Checkins {
  import opened Prelude
  import opened Streaks

  datatype Item = Item(status: Option<ItemStatus>, reason: bool)

  /** The pending input routine_reason of this check-in. */
  datatype Reason = Reason(index: nat, status: ItemStatus)

  /** What the worker has read and not yet written back. */
  datatype Pc = Idle | Closing | Reminding

  datatype State = State(
    items: seq<Item>,
    cardId: Option<int>,
    completedAt: Option<int>, autoFailedAt: Option<int>,
    reminderId: Option<int>, reminderSentAt: Option<int>,
    noticeId: Option<int>, noticeSentAt: Option<int>,
    pending: Option<Reason>, pc: Pc,
    reminders: nat, notices: nat)   // how many reminders and notices were ever persisted

  datatype Action =
    | PressItem(index: int, status: ItemStatus, busy: bool, now: int)
    | AnswerReason(now: int)
    | DropPending
    | PostCard(messageId: int)
    | StartAutoFail
    | FillItems
    | CloseCheckin(now: int)
    | StartReminder
    | SetReminder(messageId: int, now: int)
    | ClearReminder
    | SendNotice(messageId: int, now: int)
    | ClearNotice
    | Stop

  /** Index of the first unanswered item, or -1. */
  function NextItem(items: seq<Item>): (i: int)
    ensures -1 <= i < |items|
  {
    NextItemFrom(items, 0)
  }

  function NextItemFrom(items: seq<Item>, from: nat): (i: int)
    requires from <= |items|
    ensures i == -1 || from <= i < |items|
    decreases |items| - from
  {
    if from == |items| then -1
    else if items[from].status.None? then from
    else NextItemFrom(items, from + 1)
  }

  function Fill(items: seq<Item>): (r: seq<Item>)
    ensures |r| == |items|
    ensures forall i :: 0 <= i < |items| ==> r[i] == if items[i].status.None? then items[i].(status := Some(Failed)) else items[i]
  {
    seq(|items|, i requires 0 <= i < |items| => if items[i].status.None? then items[i].(status := Some(Failed)) else items[i])
  }

  /** advanceRoutineCheckin: completes the check-in when nothing is left to answer, and then drops the reminder id. */
  function Advanced(s: State, now: int): State {
    if NextItem(s.items) >= 0 then s
    else s.(completedAt := Some(s.completedAt.GetOr(now)), reminderId := None)
  }

  predicate Enabled(s: State, a: Action) {
    match a
    case PostCard(_) => s.cardId.None? && s.completedAt.None? && NextItem(s.items) >= 0
    case StartAutoFail => s.pc.Idle? && s.completedAt.None? && s.cardId.Some?
    case FillItems => s.pc.Closing?
    case CloseCheckin(_) => s.pc.Closing? && NextItem(s.items) < 0
    case StartReminder => s.pc.Idle? && s.cardId.Some? && s.completedAt.None? && s.reminderSentAt.None?
    case SetReminder(_, _) => s.pc.Reminding?
    case SendNotice(_, _) => s.autoFailedAt.Some? && s.noticeId.None? && s.noticeSentAt.None? && s.cardId.Some?
    case _ => true
  }

  function Next(s: State, a: Action): State
    requires Enabled(s, a)
  {
    match a
    case PressItem(index, status, busy, now) =>
      if s.completedAt.Some? || NextItem(s.items) != index || index < 0 || s.pending.Some? || busy then s
      else
        var answered := s.(items := s.items[index := Item(Some(status), false)]);
        if status.Done? then Advanced(answered, now)
        else answered.(pending := Some(Reason(index, status)))
    case AnswerReason(now) =>
      if s.pending.None? || s.completedAt.Some? || s.pending.value.index >= |s.items| then s
      else
        var r := s.pending.value;
        Advanced(s.(items := s.items[r.index := Item(Some(r.status), true)], pending := None), now)
    case DropPending => s.(pending := None)
    case PostCard(messageId) => s.(cardId := Some(messageId))
    case StartAutoFail => s.(pending := None, pc := Closing)
    case FillItems => s.(items := Fill(s.items))
    case CloseCheckin(now) =>
      if s.completedAt.Some? then s.(pc := Idle)
      else s.(completedAt := Some(now), autoFailedAt := Some(s.autoFailedAt.GetOr(now)), pc := Idle)
    case StartReminder => s.(pc := Reminding)
    case SetReminder(messageId, now) =>
      s.(reminderId := Some(messageId), reminderSentAt := Some(now), reminders := s.reminders + 1, pc := Idle)
    case ClearReminder => s.(reminderId := None)
    case SendNotice(messageId, now) =>
      s.(noticeId := Some(messageId), noticeSentAt := Some(now), notices := s.notices + 1)
    case ClearNotice => s.(noticeId := None)
    case Stop => s.(pc := Idle)
  }

  // ----- Invariant -----

  predicate AnsweredUpTo(items: seq<Item>, n: int) {
    0 <= n <= |items| && forall i :: 0 <= i < |items| ==> (items[i].status.Some? <==> i < n)
  }

  predicate AllAnswered(items: seq<Item>) {
    forall i :: 0 <= i < |items| ==> items[i].status.Some?
  }

  lemma {:induction false} NextItemFromFinds(items: seq<Item>, from: nat)
    requires from <= |items|
    ensures var i := NextItemFrom(items, from);
            if i == -1 then forall j :: from <= j < |items| ==> items[j].status.Some?
            else items[i].status.None? && forall j :: from <= j < i ==> items[j].status.Some?
    decreases |items| - from
  {
    if from < |items| && items[from].status.Some? {
      NextItemFromFinds(items, from + 1);
    }
  }

  ghost predicate Inv(s: State) {
    && (exists n :: AnsweredUpTo(s.items, n))
    && (s.pending.Some? ==> s.pending.value.index < |s.items| && s.items[s.pending.value.index].status == Some(s.pending.value.status))
    && (s.completedAt.Some? ==> AllAnswered(s.items))
    && (s.autoFailedAt.Some? ==> s.completedAt == s.autoFailedAt)
    && s.reminders == (if s.reminderSentAt.Some? then 1 else 0)
    && (s.pc.Reminding? ==> s.reminderSentAt.None?)
    && s.notices == (if s.noticeSentAt.Some? then 1 else 0)
    && (s.noticeSentAt.Some? ==> s.autoFailedAt.Some?)
    && (s.noticeId.Some? ==> s.noticeSentAt.Some?)
    && (s.reminderSentAt.Some? || s.autoFailedAt.Some? || !s.pc.Idle? ==> s.cardId.Some?)
  }

  /** What no later action takes back. */
  ghost predicate Evolves(s: State, t: State) {
    && |t.items| == |s.items|
    && (s.cardId.Some? ==> t.cardId == s.cardId)
    && (forall i :: 0 <= i < |s.items| && s.items[i].status.Some? ==> t.items[i].status == s.items[i].status)
    && (s.completedAt.Some? ==> t.items == s.items && t.completedAt == s.completedAt && t.autoFailedAt == s.autoFailedAt)
    && (s.reminderSentAt.Some? ==> t.reminderSentAt == s.reminderSentAt)
    && (s.noticeSentAt.Some? ==> t.noticeSentAt == s.noticeSentAt)
  }

  lemma AnswerKeepsPrefix(items: seq<Item>, index: int, item: Item)
    requires index == NextItem(items) >= 0 && AnsweredUpTo(items, index) && item.status.Some?
    ensures AnsweredUpTo(items[index := item], index + 1)
  {
  }

  lemma NextItemIsPrefixLength(items: seq<Item>, n: int)
    requires AnsweredUpTo(items, n)
    ensures NextItem(items) == if n < |items| then n else -1
  {
    NextItemFromFinds(items, 0);
    if n < |items| {
      assert items[n].status.None?;
    }
  }

  lemma PressKeepsInv(s: State, a: Action)
    requires Inv(s) && Enabled(s, a) && a.PressItem?
    ensures Inv(Next(s, a)) && Evolves(s, Next(s, a))
  {
    var n :| AnsweredUpTo(s.items, n);
    NextItemIsPrefixLength(s.items, n);
    var t := Next(s, a);
    if t.items != s.items {
      AnswerKeepsPrefix(s.items, n, t.items[n]);
      NextItemIsPrefixLength(t.items, n + 1);
    }
  }

  lemma ReasonKeepsInv(s: State, a: Action)
    requires Inv(s) && Enabled(s, a) && a.AnswerReason?
    ensures Inv(Next(s, a)) && Evolves(s, Next(s, a))
  {
    var n :| AnsweredUpTo(s.items, n);
    var t := Next(s, a);
    assert AnsweredUpTo(t.items, n);
    NextItemIsPrefixLength(t.items, n);
  }

  lemma FillKeepsInv(s: State)
    requires Inv(s) && Enabled(s, FillItems)
    ensures Inv(Next(s, FillItems)) && Evolves(s, Next(s, FillItems))
  {
    assert AnsweredUpTo(Next(s, FillItems).items, |s.items|);
  }

  /** The worker's other statements leave the items alone. */
  lemma WorkerKeepsInv(s: State, a: Action)
    requires Inv(s) && Enabled(s, a) && !a.PressItem? && !a.AnswerReason? && !a.FillItems?
    ensures Inv(Next(s, a)) && Evolves(s, Next(s, a))
  {
    var n :| AnsweredUpTo(s.items, n);
    NextItemIsPrefixLength(s.items, n);
    assert Next(s, a).items == s.items;
  }

  lemma StepKeepsInv(s: State, a: Action)
    requires Inv(s) && Enabled(s, a)
    ensures Inv(Next(s, a)) && Evolves(s, Next(s, a))
  {
    if a.PressItem? {
      PressKeepsInv(s, a);
    } else if a.AnswerReason? {
      ReasonKeepsInv(s, a);
    } else if a.FillItems? {
      FillKeepsInv(s);
    } else {
      WorkerKeepsInv(s, a);
    }
  }

  /**
   An accepted press records exactly that answer for the next item, asks for a reason unless the item is done, and
   completes the check-in exactly when a done item was the last one.
  */
  lemma PressRecordsTheAnswer(s: State, index: int, status: ItemStatus, now: int)
    requires Inv(s) && s.completedAt.None? && 0 <= index == NextItem(s.items) && s.pending.None?
    ensures var t := Next(s, PressItem(index, status, false, now));
      && index < |t.items| && t.items == s.items[index := Item(Some(status), false)]
      && t.pending == (if status.Done? then None else Some(Reason(index, status)))
      && t.completedAt == (if status.Done? && index == |s.items| - 1 then Some(now) else None)
  {
    var n :| AnsweredUpTo(s.items, n);
    NextItemIsPrefixLength(s.items, n);
    var item := Item(Some(status), false);
    AnswerKeepsPrefix(s.items, index, item);
    NextItemIsPrefixLength(s.items[index := item], index + 1);
  }

  /** The reason goes to the item it was asked for, and completes the check-in exactly when every item is answered. */
  lemma ReasonCompletesWhenAllAnswered(s: State, now: int)
    requires Inv(s) && s.pending.Some? && s.completedAt.None?
    ensures var t, i := Next(s, AnswerReason(now)), s.pending.value.index;
      && t.pending.None? && t.items == s.items[i := s.items[i].(reason := true)]
      && t.completedAt == (if AllAnswered(s.items) then Some(now) else None)
  {
    var n :| AnsweredUpTo(s.items, n);
    var t := Next(s, AnswerReason(now));
    var answered := s.items[s.pending.value.index := s.items[s.pending.value.index].(reason := true)];
    assert AnsweredUpTo(answered, n) && t.items == answered;
    NextItemIsPrefixLength(answered, n);
    assert n < |s.items| ==> s.items[n].status.None?;
  }

  // ----- Runs -----

  /** The snapshot of a plan: one open item per line. */
  ghost predicate Fresh(s: State) {
    && (forall i :: 0 <= i < |s.items| ==> s.items[i] == Item(None, false))
    && s == State(s.items, None, None, None, None, None, None, None, None, Idle, 0, 0)
  }

  ghost predicate Trace(states: seq<State>, actions: seq<Action>) {
    && |states| == |actions| + 1
    && forall i :: 0 <= i < |actions| ==> Enabled(states[i], actions[i]) && states[i + 1] == Next(states[i], actions[i])
  }

  lemma {:induction false} TraceKeepsInv(states: seq<State>, actions: seq<Action>, i: nat)
    requires Trace(states, actions) && Fresh(states[0]) && i <= |actions|
    ensures Inv(states[i])
  {
    if i == 0 {
      assert AnsweredUpTo(states[0].items, 0);
    } else {
      TraceKeepsInv(states, actions, i - 1);
      StepKeepsInv(states[i - 1], actions[i - 1]);
    }
  }

  /**
   Over every run: the answered items form a prefix, a completed check-in has every item answered, an automatic
   close is a completion, and at most one reminder and one notice were ever persisted.
  */
  lemma CheckinIsConsistent(states: seq<State>, actions: seq<Action>, i: nat)
    requires Trace(states, actions) && Fresh(states[0]) && i <= |actions|
    ensures exists n :: AnsweredUpTo(states[i].items, n)
    ensures states[i].completedAt.Some? ==> AllAnswered(states[i].items)
    ensures states[i].autoFailedAt.Some? ==> states[i].completedAt == states[i].autoFailedAt
    ensures states[i].reminders <= 1 && states[i].notices <= 1
    ensures states[i].notices == 1 ==> states[i].autoFailedAt.Some?
    ensures states[i].reminders == 1 || states[i].notices == 1 ==> states[i].cardId.Some?
  {
    TraceKeepsInv(states, actions, i);
  }

  /** Nobody has answered yet: the card is posted, and one reminder follows it. */
  lemma CardThenReminder(s: State, card: int, reminder: int, reminded: int) returns (states: seq<State>)
    requires Fresh(s) && s.items != []
    ensures Trace(states, [PostCard(card), StartReminder, SetReminder(reminder, reminded)]) && states[0] == s
    ensures states[3] == State(s.items, Some(card), None, None, Some(reminder), Some(reminded), None, None, None, Idle, 1, 0)
  {
    NextItemIsPrefixLength(s.items, 0);
    var s1 := Next(s, PostCard(card));
    var s2 := Next(s1, StartReminder);
    states := [s, s1, s2, Next(s2, SetReminder(reminder, reminded))];
  }

  /** An incomplete check-in with a card can be closed: what is open has failed, and the notice follows. */
  lemma CloseThenNotice(s: State, closed: int, notice: int, noticed: int) returns (states: seq<State>)
    requires Inv(s) && s.pc.Idle? && s.cardId.Some? && s.completedAt.None?
    ensures Trace(states, [StartAutoFail, FillItems, CloseCheckin(closed), ClearReminder, SendNotice(notice, noticed)])
    ensures states[0] == s
    ensures states[5] == State(Fill(s.items), s.cardId, Some(closed), Some(closed), None, s.reminderSentAt,
                               Some(notice), Some(noticed), None, Idle, s.reminders, 1)
  {
    NextItemIsPrefixLength(Fill(s.items), |s.items|);
    var s1 := Next(s, StartAutoFail);
    var s2 := Next(s1, FillItems);
    var s3 := Next(s2, CloseCheckin(closed));
    var s4 := Next(s3, ClearReminder);
    states := [s, s1, s2, s3, s4, Next(s4, SendNotice(notice, noticed))];
  }

  lemma EvolvesChains(s: State, t: State, u: State)
    requires Evolves(s, t) && Evolves(t, u)
    ensures Evolves(s, u)
  {
  }

  /** A recorded outcome never changes, a completed check-in is frozen, and neither timestamp is ever rewritten. */
  lemma {:induction false} CheckinEvolves(states: seq<State>, actions: seq<Action>, i: nat, j: nat)
    requires Trace(states, actions) && Fresh(states[0]) && i <= j <= |actions|
    ensures Evolves(states[i], states[j])
  {
    if i < j {
      CheckinEvolves(states, actions, i, j - 1);
      TraceKeepsInv(states, actions, j - 1);
      StepKeepsInv(states[j - 1], actions[j - 1]);
      EvolvesChains(states[i], states[j - 1], states[j]);
    }
  }

  // ----- Handlers and statements on a row -----

  class CheckinRow {
    var row: State
    ghost var states: seq<State>
    ghost var actions: seq<Action>

    /** The row is where the actions so far lead from a fresh snapshot. */
    ghost predicate Valid()
      reads this
    {
      Logged() && states[|actions|] == row
    }

    ghost predicate Logged()
      reads this`states, this`actions
    {
      Trace(states, actions) && Fresh(states[0])
    }

    constructor (items: nat)
      ensures Valid() && actions == [] && |row.items| == items
    {
      var snapshot := State(seq(items, _ => Item(None, false)), None, None, None, None, None, None, None, None, Idle, 0, 0);
      row, states, actions := snapshot, [snapshot], [];
    }

    /** So everything proved of runs holds of the row, and of what it was at any earlier time. */
    lemma RowIsReachable(past: nat)
      requires Valid() && past <= |actions|
      ensures Inv(row) && Evolves(states[past], row)
    {
      TraceKeepsInv(states, actions, |actions|);
      CheckinEvolves(states, actions, past, |actions|);
    }

    /** Notes an action before the statements that carry it out. */
    ghost method Perform(a: Action)
      requires Logged() && Enabled(states[|actions|], a)
      modifies `states, `actions
      ensures Logged() && actions == old(actions) + [a] && old(states) <= states && states[|actions|] == Next(old(states[|actions|]), a)
    {
      states, actions := states + [Next(states[|actions|], a)], actions + [a];
    }

    /** NextRoutineItemIndex walks the items until the first without a status. */
    method NextRoutineItemIndex() returns (index: int)
      ensures index == NextItem(row.items)
    {
      for i := 0 to |row.items|
        invariant NextItem(row.items) == NextItemFrom(row.items, i)
      {
        if row.items[i].status.None? {
          return i;
        }
      }
      return -1;
    }

    /** The transaction behind a pressed item button; `accepted` is false when it answers with a notice only. */
    method HandleRoutineItem(index: int, status: ItemStatus, busy: bool, now: int) returns (accepted: bool)
      requires Valid()
      modifies this
      ensures Valid() && actions == old(actions) + [PressItem(index, status, busy, now)]
      ensures row == Next(old(row), PressItem(index, status, busy, now))
      ensures accepted <==> old(row).completedAt.None? && 0 <= index == NextItem(old(row).items) && old(row).pending.None? && !busy
    {
      Perform(PressItem(index, status, busy, now));
      if row.completedAt.Some? {
        return false;
      }
      var next := NextRoutineItemIndex();
      if next != index || index < 0 {
        return false;
      }
      if row.pending.Some? || busy {
        return false;
      }
      row := row.(items := row.items[index := Item(Some(status), false)]);
      if status.Partial? || status.Failed? {
        row := row.(pending := Some(Reason(index, status)));
        return true;
      }
      Advance(now);
      accepted := true;
    }

    method Advance(now: int)
      modifies `row
      ensures row == Advanced(old(row), now)
    {
      var next := NextRoutineItemIndex();
      if next < 0 {
        row := row.(completedAt := Some(row.completedAt.GetOr(now)), reminderId := None);
      }
    }

    /** A reason for a check-in that was closed meanwhile fails the transaction, which keeps the pending input. */
    method ConsumeRoutineReason(now: int) returns (saved: bool)
      requires Valid()
      modifies this
      ensures Valid() && actions == old(actions) + [AnswerReason(now)]
      ensures row == Next(old(row), AnswerReason(now))
      ensures saved <==> old(row).pending.Some? && old(row).completedAt.None?
    {
      TraceKeepsInv(states, actions, |actions|);
      Perform(AnswerReason(now));
      if row.pending.None? {
        return false;
      }
      var r := row.pending.value;
      if row.completedAt.Some? || r.index >= |row.items| {
        return false;
      }
      row := row.(items := row.items[r.index := Item(Some(r.status), true)], pending := None);
      Advance(now);
      saved := true;
    }

    /** UPDATE of the items without a status. */
    method FailOpenItems()
      modifies `row
      ensures row == old(row).(items := Fill(old(row).items))
    {
      var items := row.items;
      for i := 0 to |items|
        invariant |items| == |row.items|
        invariant forall j :: 0 <= j < i ==> items[j] == Fill(row.items)[j]
        invariant forall j :: i <= j < |items| ==> items[j] == row.items[j]
      {
        if items[i].status.None? {
          items := items[i := items[i].(status := Some(Failed))];
        }
      }
      assert items == Fill(row.items);
      row := row.(items := items);
    }

    /** The first two statements: the pending reason goes, and the open items are failed. */
    method StartClosing()
      requires Valid() && row.pc.Idle? && row.completedAt.None? && row.cardId.Some?
      modifies this
      ensures Valid() && actions == old(actions) + [StartAutoFail, FillItems] && old(states) <= states
      ensures row == old(row).(pending := None, pc := Closing, items := Fill(old(row).items))
    {
      Perform(StartAutoFail);
      row := row.(pending := None, pc := Closing);
      Perform(FillItems);
      FailOpenItems();
    }

    /** The last two: the row is closed, and its reminder is no longer kept. */
    method CloseRow(now: int)
      requires Valid() && row.pc.Closing? && row.completedAt.None? && AllAnswered(row.items)
      modifies this
      ensures Valid() && actions == old(actions) + [CloseCheckin(now), ClearReminder] && old(states) <= states
      ensures row == old(row).(completedAt := Some(now), autoFailedAt := Some(old(row).autoFailedAt.GetOr(now)),
                               pc := Idle, reminderId := None)
    {
      NextItemIsPrefixLength(row.items, |row.items|);
      Perform(CloseCheckin(now));
      row := row.(completedAt := Some(now), autoFailedAt := Some(row.autoFailedAt.GetOr(now)), pc := Idle);
      Perform(ClearReminder);
      row := row.(reminderId := None);
    }

    /**
     The automatic close as the worker issues it: the pending reason goes, open items are failed one statement
     before the row is closed. Afterwards the row is completed and every recorded outcome is the one it was.
    */
    method AutoFail(now: int)
      requires Valid() && row.pc.Idle? && row.completedAt.None? && row.cardId.Some?
      modifies this
      ensures Valid() && actions == old(actions) + [StartAutoFail, FillItems, CloseCheckin(now), ClearReminder]
      ensures Inv(row) && Evolves(old(row), row)
      ensures row.items == Fill(old(row).items) && row.completedAt == Some(now) && row.autoFailedAt == Some(now)
      ensures row.pending.None? && row.reminderId.None?
    {
      ghost var start := |actions|;
      TraceKeepsInv(states, actions, start);
      StartClosing();
      CloseRow(now);
      RowIsReachable(start);
    }
  }
}
