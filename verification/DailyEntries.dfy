/**
 The daily entries of one participant: tasks and evening summaries, the single pending input of the Today thread,
 the worker's midnight and noon transitions, late reports, and the progress events all of these leave behind.
 Every transaction is one atomic step.
*/
module DailyEntries {
  import opened Prelude

  datatype Kind = Task | Summary

  datatype Status = Active | AwaitingReport | Done | Partial | Failed

  predicate IsOpen(s: Status) {
    s.Active? || s.AwaitingReport?
  }

  /** `reports` counts the reports ever accepted for the entry. */
  datatype Entry = Entry(
    date: int, kind: Kind, status: Status, failedAt: Option<int>,
    reportStatus: Option<Status>, reportedAt: Option<int>, reports: nat)

  datatype EventKind = TaskClosed | TaskAutoFailed | SummaryClosed | SummaryAutoFailed

  datatype Event = Event(entry: nat, kind: EventKind)

  datatype Pending = TaskText | TaskReport(entry: nat, status: Status) | SummaryReport(entry: nat, status: Status)

  datatype AlertKind = DayClosed | Overdue

  /** Rows in id order; an entry is named by its position. */
  datatype State = State(entries: seq<Entry>, events: seq<Event>, alerts: set<(nat, AlertKind)>, pending: Option<Pending>)

  /** For each local day the instants of the following midnight and the following noon. */
  datatype Zone = Zone(nextDay: int -> int, noon: int -> int)

  ghost predicate ValidZone(z: Zone) {
    forall d :: z.nextDay(d) <= z.noon(d)
  }

  predicate AcceptsReport(e: Entry) {
    IsOpen(e.status) || (e.kind.Task? && e.status.Failed? && e.failedAt.Some? && e.reportedAt.None?)
  }

  /** NextDailyTaskTransition; None when nothing changes. */
  function Transition(z: Zone, date: int, status: Status, now: int): Option<Status> {
    if status.Active? && now >= z.noon(date) then Some(Failed)
    else if status.Active? && now >= z.nextDay(date) then Some(AwaitingReport)
    else if status.AwaitingReport? && now >= z.noon(date) then Some(Failed)
    else None
  }

  function EventFor(e: Entry): EventKind {
    match (e.kind, e.failedAt.Some?)
    case (Task, true) => TaskAutoFailed
    case (Task, false) => TaskClosed
    case (Summary, true) => SummaryAutoFailed
    case (Summary, false) => SummaryClosed
  }

  /** One task of the worker's walk. */
  function TickEntry(z: Zone, s: State, i: nat, now: int): (t: State)
    requires i < |s.entries|
    ensures |t.entries| == |s.entries|
  {
    var e := s.entries[i];
    match Transition(z, e.date, e.status, now)
    case Some(AwaitingReport) =>
      s.(entries := s.entries[i := e.(status := AwaitingReport)], alerts := s.alerts + {(i, DayClosed)})
    case Some(Failed) =>
      var failed := e.(status := Failed, failedAt := Some(now));
      s.(entries := s.entries[i := failed], alerts := s.alerts + {(i, Overdue)},
         events := s.events + [Event(i, EventFor(failed))])
    case _ => s
  }

  /** The walk over the first n entries. It ends early at the first open entry whose workspace is missing. */
  function TickFirst(z: Zone, s: State, n: nat, now: int): (t: State)
    requires n <= |s.entries|
    ensures |t.entries| == |s.entries|
  {
    if n == 0 then s else TickEntry(z, TickFirst(z, s, n - 1, now), n - 1, now)
  }

  datatype Transaction =
    | Add(today: int, evening: bool)
    | SendText(today: int)
    | PressStatus(entry: nat, status: Status)
    | SendReport(now: int)
    | Cleanup
    | Tick(now: int, reach: nat)

  predicate IsFinal(s: Status) {
    s.Done? || s.Partial? || s.Failed?
  }

  predicate HasEntryOn(entries: seq<Entry>, date: int) {
    exists e <- entries :: e.date == date
  }

  predicate HasOpenTask(entries: seq<Entry>) {
    exists e <- entries :: OpenTask(e)
  }

  function Created(date: int, kind: Kind): Entry {
    Entry(date, kind, Active, None, None, None, 0)
  }

  function PendingFor(e: Entry, i: nat, status: Status): Pending {
    if e.kind.Summary? then SummaryReport(i, status) else TaskReport(i, status)
  }

  predicate SameKind(p: Pending, q: Pending) {
    (p.TaskReport? && q.TaskReport?) || (p.SummaryReport? && q.SummaryReport?)
  }

  /** SubmitTaskReport: an open entry is closed with an event, a failed task is only annotated. */
  function Submit(s: State, i: nat, status: Status, now: int): State {
    if i >= |s.entries| || !AcceptsReport(s.entries[i]) || !IsFinal(status) then s
    else
      var e := s.entries[i].(reportStatus := Some(status), reportedAt := Some(now), reports := s.entries[i].reports + 1);
      if IsOpen(s.entries[i].status) then
        var closed := e.(status := status);
        s.(entries := s.entries[i := closed], events := s.events + [Event(i, EventFor(closed))])
      else s.(entries := s.entries[i := e])
  }

  function Next(z: Zone, s: State, t: Transaction): State {
    match t
    case Add(today, evening) =>
      if HasEntryOn(s.entries, today) || HasOpenTask(s.entries) || s.pending.Some? then s
      else if evening then s.(entries := s.entries + [Created(today, Summary)])
      else s.(pending := Some(TaskText))
    case SendText(today) =>
      if s.pending != Some(TaskText) then s
      else if HasEntryOn(s.entries, today) then s.(pending := None)
      else s.(entries := s.entries + [Created(today, Task)], pending := None)
    case PressStatus(i, status) =>
      if i >= |s.entries| || !AcceptsReport(s.entries[i]) || !IsFinal(status) then s
      else
        var wanted := PendingFor(s.entries[i], i, status);
        if s.pending.Some? && !SameKind(s.pending.value, wanted) then s else s.(pending := Some(wanted))
    case SendReport(now) =>
      if s.pending.None? || s.pending.value.TaskText? then s
      else Submit(s.(pending := None), s.pending.value.entry, s.pending.value.status, now)
    case Cleanup => s.(pending := None)
    case Tick(now, reach) => TickFirst(z, s, Min(reach, |s.entries|), now)
  }

  // ----- One open task, one entry per day -----

  predicate OpenTask(e: Entry) {
    e.kind.Task? && IsOpen(e.status)
  }

  ghost predicate OneOpenTask(entries: seq<Entry>) {
    forall i, j :: 0 <= i < |entries| && 0 <= j < |entries| && OpenTask(entries[i]) && OpenTask(entries[j]) ==> i == j
  }

  ghost predicate OneEntryPerDay(entries: seq<Entry>) {
    forall i, j :: 0 <= i < |entries| && 0 <= j < |entries| && entries[i].date == entries[j].date ==> i == j
  }

  /** The gate of the handlers: while a task text is awaited, no task is open. */
  ghost predicate Exclusive(s: State) {
    && OneOpenTask(s.entries) && OneEntryPerDay(s.entries)
    && (s.pending == Some(TaskText) ==> !HasOpenTask(s.entries))
  }

  // ----- Reports and events -----

  ghost function Count(events: seq<Event>, i: nat): nat {
    if events == [] then 0
    else Count(events[..|events| - 1], i) + (if events[|events| - 1].entry == i then 1 else 0)
  }

  /** How the columns of one row agree. */
  predicate Consistent(e: Entry) {
    && e.reports == (if e.reportedAt.Some? then 1 else 0)
    && (IsOpen(e.status) ==> e.failedAt.None? && e.reportedAt.None?)
    && (e.failedAt.Some? ==> e.status.Failed? && (e.kind.Summary? ==> e.reportedAt.None?))
    && (!IsOpen(e.status) && e.failedAt.None? ==> e.reportedAt.Some? && e.reportStatus == Some(e.status))
  }

  /** One terminal event per closed entry, of the matching kind, and none for an open one. */
  ghost predicate EventsMatch(events: seq<Event>, i: nat, e: Entry) {
    && Count(events, i) == (if IsOpen(e.status) then 0 else 1)
    && forall k :: 0 <= k < |events| && events[k].entry == i ==> events[k].kind == EventFor(e)
  }

  /** An automatic failure has its alert, and nothing else has; an entry past its day has been announced. */
  predicate AlertsMatch(alerts: set<(nat, AlertKind)>, i: nat, e: Entry) {
    && ((i, Overdue) in alerts <==> e.failedAt.Some?)
    && (e.status.AwaitingReport? ==> (i, DayClosed) in alerts)
    && ((i, DayClosed) in alerts ==> !e.status.Active?)
  }

  ghost predicate NoStrayAlerts(s: State) {
    forall a <- s.alerts :: a.0 < |s.entries|
  }

  ghost predicate NoStrayEvents(s: State) {
    forall k :: 0 <= k < |s.events| ==> s.events[k].entry < |s.entries|
  }

  /** A closed entry keeps its status, and a reported one does not change at all. */
  predicate EntryEvolves(e: Entry, f: Entry) {
    && f.date == e.date && f.kind == e.kind
    && (!IsOpen(e.status) ==> f.status == e.status && f.failedAt == e.failedAt)
    && (e.reportedAt.Some? ==> f == e)
  }

  predicate Evolves(s: State, t: State) {
    && |s.entries| <= |t.entries|
    && forall i :: 0 <= i < |s.entries| ==> EntryEvolves(s.entries[i], t.entries[i])
  }

  ghost predicate Inv(s: State) {
    && Exclusive(s) && NoStrayEvents(s) && NoStrayAlerts(s)
    && forall i :: 0 <= i < |s.entries| ==>
         Consistent(s.entries[i]) && EventsMatch(s.events, i, s.entries[i]) && AlertsMatch(s.alerts, i, s.entries[i])
  }

  lemma CountAppend(events: seq<Event>, e: Event, i: nat)
    ensures Count(events + [e], i) == Count(events, i) + (if e.entry == i then 1 else 0)
  {
    assert (events + [e])[..|events|] == events;
  }

  lemma {:induction false} NoEventsForNewEntry(events: seq<Event>, i: nat)
    requires forall k :: 0 <= k < |events| ==> events[k].entry < i
    ensures Count(events, i) == 0
  {
    if events != [] {
      NoEventsForNewEntry(events[..|events| - 1], i);
    }
  }

  lemma {:induction false} UncountedIsAbsent(events: seq<Event>, i: nat, k: nat)
    requires Count(events, i) == 0 && k < |events|
    ensures events[k].entry != i
  {
    if k < |events| - 1 {
      UncountedIsAbsent(events[..|events| - 1], i, k);
    }
  }

  /** One row replaced by a successor of itself, with its terminal event if that closes it. */
  ghost predicate Replaces(s: State, t: State, i: nat) {
    && i < |s.entries| && |t.entries| == |s.entries| && t.pending == s.pending
    && t.entries == s.entries[i := t.entries[i]]
    && s.alerts <= t.alerts && (forall a <- t.alerts - s.alerts :: a.0 == i) && AlertsMatch(t.alerts, i, t.entries[i])
    && Consistent(t.entries[i]) && EntryEvolves(s.entries[i], t.entries[i])
    && (IsOpen(t.entries[i].status) ==> IsOpen(s.entries[i].status))
    && t.events == if IsOpen(s.entries[i].status) && !IsOpen(t.entries[i].status)
                   then s.events + [Event(i, EventFor(t.entries[i]))] else s.events
  }

  lemma ReplacedEventsMatch(s: State, t: State, i: nat, j: nat)
    requires Inv(s) && Replaces(s, t, i) && j < |s.entries|
    ensures EventsMatch(t.events, j, t.entries[j])
  {
    assert EventsMatch(s.events, j, s.entries[j]);
    if t.events != s.events {
      CountAppend(s.events, t.events[|s.events|], j);
      if j == i {
        forall k | 0 <= k < |s.events| ensures s.events[k].entry != i {
          UncountedIsAbsent(s.events, i, k);
        }
      }
    }
  }

  lemma ReplacedStaysExclusive(s: State, t: State, i: nat)
    requires Exclusive(s) && Replaces(s, t, i)
    ensures Exclusive(t)
  {
    assert forall j :: 0 <= j < |s.entries| && OpenTask(t.entries[j]) ==> OpenTask(s.entries[j]);
    assert forall j :: 0 <= j < |s.entries| ==> t.entries[j].date == s.entries[j].date;
    if HasOpenTask(t.entries) {
      var j :| 0 <= j < |t.entries| && OpenTask(t.entries[j]);
      assert s.entries[j] in s.entries;
    }
  }

  lemma ReplaceKeepsInv(s: State, t: State, i: nat)
    requires Inv(s) && Replaces(s, t, i)
    ensures Inv(t) && Evolves(s, t)
  {
    ReplacedStaysExclusive(s, t, i);
    forall j | 0 <= j < |s.entries|
      ensures Consistent(t.entries[j]) && EventsMatch(t.events, j, t.entries[j]) && AlertsMatch(t.alerts, j, t.entries[j])
    {
      ReplacedRowMatches(s, t, i, j);
    }
    ReplacedEvolves(s, t, i);
  }

  lemma ReplacedRowMatches(s: State, t: State, i: nat, j: nat)
    requires Inv(s) && Replaces(s, t, i) && j < |s.entries|
    ensures Consistent(t.entries[j]) && EventsMatch(t.events, j, t.entries[j]) && AlertsMatch(t.alerts, j, t.entries[j])
  {
    assert Consistent(s.entries[j]);
    ReplacedEventsMatch(s, t, i, j);
  }

  lemma ReplacedEvolves(s: State, t: State, i: nat)
    requires Replaces(s, t, i)
    ensures Evolves(s, t)
  {
  }

  lemma TickEntryKeepsInv(z: Zone, s: State, i: nat, now: int)
    requires Inv(s) && i < |s.entries|
    ensures Inv(TickEntry(z, s, i, now)) && Evolves(s, TickEntry(z, s, i, now))
  {
    assert Consistent(s.entries[i]) && AlertsMatch(s.alerts, i, s.entries[i]);
    ReplaceKeepsInv(s, TickEntry(z, s, i, now), i);
  }

  ghost predicate Succeeds(s: State, t: State) {
    Inv(t) && Evolves(s, t)
  }

  lemma OneMoreEntry(z: Zone, s: State, n: nat, now: int)
    requires n < |s.entries| && Succeeds(s, TickFirst(z, s, n, now))
    ensures Succeeds(s, TickFirst(z, s, n + 1, now))
  {
    TickEntryKeepsInv(z, TickFirst(z, s, n, now), n, now);
  }

  lemma TickKeepsInv(z: Zone, s: State, n: nat, now: int)
    requires Inv(s) && n <= |s.entries|
    ensures Succeeds(s, TickFirst(z, s, n, now))
  {
    for i := 0 to n
      invariant Succeeds(s, TickFirst(z, s, i, now))
    {
      OneMoreEntry(z, s, i, now);
    }
  }

  lemma CreateKeepsInv(s: State, date: int, kind: Kind)
    requires Inv(s) && !HasEntryOn(s.entries, date) && !HasOpenTask(s.entries) && s.pending != Some(TaskText)
    ensures Inv(s.(entries := s.entries + [Created(date, kind)]))
  {
    NoEventsForNewEntry(s.events, |s.entries|);
    forall i | 0 <= i < |s.entries| ensures s.entries[i].date != date && !OpenTask(s.entries[i]) {
      assert s.entries[i] in s.entries;
    }
  }

  lemma SubmitKeepsInv(s: State, i: nat, status: Status, now: int)
    requires Inv(s)
    ensures Inv(Submit(s, i, status, now)) && Evolves(s, Submit(s, i, status, now))
  {
    if Submit(s, i, status, now) != s {
      assert Consistent(s.entries[i]) && AlertsMatch(s.alerts, i, s.entries[i]);
      ReplaceKeepsInv(s, Submit(s, i, status, now), i);
    }
  }

  lemma StepKeepsInv(z: Zone, s: State, t: Transaction)
    requires Inv(s)
    ensures Inv(Next(z, s, t)) && Evolves(s, Next(z, s, t))
  {
    var claimed := s.(pending := None);
    match t
    case Add(today, evening) =>
      if Next(z, s, t).entries != s.entries {
        CreateKeepsInv(s, today, Summary);
      }
    case SendText(today) =>
      if Next(z, s, t).entries != s.entries {
        CreateKeepsInv(claimed, today, Task);
      }
    case PressStatus(_, _) =>
    case SendReport(now) =>
      if s.pending.Some? && !s.pending.value.TaskText? {
        SubmitKeepsInv(claimed, s.pending.value.entry, s.pending.value.status, now);
      }
    case Cleanup =>
    case Tick(now, reach) => TickKeepsInv(z, s, Min(reach, |s.entries|), now);
  }

  // ----- Runs -----

  function Run(z: Zone, ts: seq<Transaction>): State {
    if ts == [] then State([], [], {}, None) else Next(z, Run(z, ts[..|ts| - 1]), ts[|ts| - 1])
  }

  lemma RunAppend(z: Zone, ts: seq<Transaction>, t: Transaction)
    ensures Run(z, ts + [t]) == Next(z, Run(z, ts), t)
  {
    assert (ts + [t])[..|ts|] == ts;
  }

  lemma {:induction false} RunKeepsInv(z: Zone, ts: seq<Transaction>)
    ensures Inv(Run(z, ts))
  {
    if ts != [] {
      RunKeepsInv(z, ts[..|ts| - 1]);
      StepKeepsInv(z, Run(z, ts[..|ts| - 1]), ts[|ts| - 1]);
    }
  }

  /** In every reachable state at most one task is open and no local day has two entries. */
  lemma OneTaskOneEntry(z: Zone, ts: seq<Transaction>)
    ensures OneOpenTask(Run(z, ts).entries) && OneEntryPerDay(Run(z, ts).entries)
  {
    RunKeepsInv(z, ts);
  }

  /**
   Every closed entry has exactly one terminal event, of the kind that matches how it was closed; open entries
   have none; at most one report was accepted; an automatically failed summary never has one.
  */
  lemma OneTerminalEvent(z: Zone, ts: seq<Transaction>, i: nat)
    requires i < |Run(z, ts).entries|
    ensures var s := Run(z, ts); var e := s.entries[i];
      && Count(s.events, i) == (if IsOpen(e.status) then 0 else 1)
      && (forall k :: 0 <= k < |s.events| && s.events[k].entry == i ==> s.events[k].kind == EventFor(e))
      && e.reports <= 1
      && (e.failedAt.Some? ==> e.status.Failed?)
      && (e.failedAt.Some? && e.kind.Summary? ==> e.reports == 0)
  {
    RunKeepsInv(z, ts);
    assert EventsMatch(Run(z, ts).events, i, Run(z, ts).entries[i]);
  }

  /** The overdue alert exists exactly for automatic failures; an entry awaiting its report has been announced. */
  lemma AlertsFollowTransitions(z: Zone, ts: seq<Transaction>, i: nat)
    requires i < |Run(z, ts).entries|
    ensures AlertsMatch(Run(z, ts).alerts, i, Run(z, ts).entries[i])
  {
    RunKeepsInv(z, ts);
    assert AlertsMatch(Run(z, ts).alerts, i, Run(z, ts).entries[i]);
  }

  /** Closed statuses are absorbing: an automatically failed task stays failed through its one late report. */
  lemma {:induction false} ClosedStaysClosed(z: Zone, ts: seq<Transaction>, later: seq<Transaction>)
    ensures Evolves(Run(z, ts), Run(z, ts + later))
  {
    if later == [] {
      assert ts + later == ts;
    } else {
      var front := later[..|later| - 1];
      assert (ts + later)[..|ts + later| - 1] == ts + front;
      ClosedStaysClosed(z, ts, front);
      RunKeepsInv(z, ts + front);
      StepKeepsInv(z, Run(z, ts + front), later[|later| - 1]);
    }
  }

  // ----- Ticks alone -----

  function StatusAfter(z: Zone, date: int, status: Status, now: int): Status {
    Transition(z, date, status, now).GetOr(status)
  }

  function StatusAfterAll(z: Zone, date: int, status: Status, ticks: seq<int>): Status
    decreases |ticks|
  {
    if ticks == [] then status else StatusAfterAll(z, date, StatusAfter(z, date, status, ticks[0]), ticks[1..])
  }

  /** For nondecreasing tick times the status depends on the last tick only. */
  lemma {:induction false} LastTickDecides(z: Zone, date: int, status: Status, ticks: seq<int>)
    requires ValidZone(z) && ticks != [] && forall i, j :: 0 <= i < j < |ticks| ==> ticks[i] <= ticks[j]
    ensures StatusAfterAll(z, date, status, ticks) == StatusAfter(z, date, status, ticks[|ticks| - 1])
    decreases |ticks|
  {
    if |ticks| > 1 {
      LastTickDecides(z, date, StatusAfter(z, date, status, ticks[0]), ticks[1..]);
      assert z.nextDay(date) <= z.noon(date);
      assert ticks[0] <= ticks[|ticks| - 1];
    }
  }

  /** The walk gives each entry it reaches exactly its own transition, and leaves the others alone. */
  lemma {:induction false} TickIsPointwise(z: Zone, s: State, n: nat, now: int, j: nat)
    requires n <= |s.entries| && j < |s.entries|
    ensures var e, f := s.entries[j], TickFirst(z, s, n, now).entries[j];
      f.date == e.date && f.status == if j < n then StatusAfter(z, e.date, e.status, now) else e.status
  {
    if n > 0 {
      TickIsPointwise(z, s, n - 1, now, j);
    }
  }

  // ----- What a tick does to the rows, by the clock -----

  /**
   Entry f is what a tick at `now` makes of e. Nothing happens before the following midnight; from then on an active
   entry awaits its report, and from the following noon on an open entry has failed.
  */
  ghost predicate Ticked(z: Zone, e: Entry, f: Entry, now: int) {
    && (e.status.Active? && now < z.nextDay(e.date) && now < z.noon(e.date) ==> f == e)
    && (e.status.Active? && z.nextDay(e.date) <= now < z.noon(e.date) ==> f == e.(status := AwaitingReport))
    && (e.status.AwaitingReport? && now < z.noon(e.date) ==> f == e)
    && (IsOpen(e.status) && z.noon(e.date) <= now ==> f == e.(status := Failed, failedAt := Some(now)))
    && (!IsOpen(e.status) ==> f == e)
  }

  /** The walk reached the first n entries. Each alert and each event has its cause in the clock. */
  ghost predicate Walked(z: Zone, s: State, t: State, n: nat, now: int) {
    && n <= |s.entries| && |t.entries| == |s.entries| && t.pending == s.pending && s.events <= t.events
    && (forall j :: 0 <= j < n ==> Ticked(z, s.entries[j], t.entries[j], now))
    && (forall j :: n <= j < |s.entries| ==> t.entries[j] == s.entries[j])
    && (forall j: nat :: (j, DayClosed) in t.alerts <==> (
          || (j, DayClosed) in s.alerts
          || (j < n && s.entries[j].status.Active? && z.nextDay(s.entries[j].date) <= now < z.noon(s.entries[j].date))))
    && (forall j: nat :: (j, Overdue) in t.alerts <==> (
          || (j, Overdue) in s.alerts
          || (j < n && IsOpen(s.entries[j].status) && z.noon(s.entries[j].date) <= now)))
    && (forall j: nat :: Count(t.events, j) == Count(s.events, j) +
          if j < n && IsOpen(s.entries[j].status) && z.noon(s.entries[j].date) <= now then 1 else 0)
  }

  lemma WalkOne(z: Zone, s: State, t: State, n: nat, now: int)
    requires n < |s.entries| && Walked(z, s, t, n, now)
    ensures Walked(z, s, TickEntry(z, t, n, now), n + 1, now)
  {
    var u := TickEntry(z, t, n, now);
    assert t.entries[n] == s.entries[n];
    forall j: nat ensures Count(u.events, j) == Count(t.events, j) +
      if j == n && IsOpen(s.entries[n].status) && z.noon(s.entries[n].date) <= now then 1 else 0
    {
      if u.events != t.events {
        CountAppend(t.events, u.events[|t.events|], j);
      }
    }
  }

  /** A tick does to every entry what the clock says, and to the entries it does not reach nothing. */
  lemma TickFollowsTheClock(z: Zone, s: State, n: nat, now: int)
    requires n <= |s.entries|
    ensures Walked(z, s, TickFirst(z, s, n, now), n, now)
  {
    for i := 0 to n
      invariant Walked(z, s, TickFirst(z, s, i, now), i, now)
    {
      WalkOne(z, s, TickFirst(z, s, i, now), i, now);
    }
  }

  /** A tick at or after the instant has reached the entry. */
  ghost predicate ReachedFrom(ts: seq<Transaction>, i: nat, instant: int) {
    exists k :: 0 <= k < |ts| && ts[k].Tick? && i < ts[k].reach && instant <= ts[k].now
  }

  /** The alerts of entry i have had their tick. */
  ghost predicate AlertsAreDue(z: Zone, ts: seq<Transaction>, i: nat) {
    var s := Run(z, ts);
    && ((i, DayClosed) in s.alerts ==> i < |s.entries| && ReachedFrom(ts, i, z.nextDay(s.entries[i].date)))
    && ((i, Overdue) in s.alerts ==> i < |s.entries| && ReachedFrom(ts, i, z.noon(s.entries[i].date)))
  }

  lemma ReachedStays(ts: seq<Transaction>, t: Transaction, i: nat, instant: int)
    requires ReachedFrom(ts, i, instant) || (t.Tick? && i < t.reach && instant <= t.now)
    ensures ReachedFrom(ts + [t], i, instant)
  {
    if ReachedFrom(ts, i, instant) {
      var k :| 0 <= k < |ts| && ts[k].Tick? && i < ts[k].reach && instant <= ts[k].now;
      assert (ts + [t])[k] == ts[k];
    } else {
      assert (ts + [t])[|ts|] == t;
    }
  }

  /** Only a tick adds alerts, and only for the entries it reaches. */
  lemma NewAlertHasItsTick(z: Zone, s: State, t: Transaction, i: nat)
    requires Inv(s)
    ensures (i, DayClosed) in Next(z, s, t).alerts && (i, DayClosed) !in s.alerts ==>
      t.Tick? && i < t.reach && i < |s.entries| && z.nextDay(s.entries[i].date) <= t.now
    ensures (i, Overdue) in Next(z, s, t).alerts && (i, Overdue) !in s.alerts ==>
      t.Tick? && i < t.reach && i < |s.entries| && z.noon(s.entries[i].date) <= t.now
  {
    if t.Tick? {
      TickFollowsTheClock(z, s, Min(t.reach, |s.entries|), t.now);
    }
  }

  lemma AlertsStayDue(z: Zone, ts: seq<Transaction>, t: Transaction, i: nat)
    requires AlertsAreDue(z, ts, i)
    ensures AlertsAreDue(z, ts + [t], i)
  {
    var s := Run(z, ts);
    RunAppend(z, ts, t);
    RunKeepsInv(z, ts);
    StepKeepsInv(z, s, t);
    NewAlertHasItsTick(z, s, t, i);
    if (i, DayClosed) in Next(z, s, t).alerts {
      ReachedStays(ts, t, i, z.nextDay(s.entries[i].date));
    }
    if (i, Overdue) in Next(z, s, t).alerts {
      ReachedStays(ts, t, i, z.noon(s.entries[i].date));
    }
  }

  /**
   Over every run: a day is announced as closed only after a tick at or after its midnight reached the entry, and an
   entry is overdue only after a tick at or after its noon did.
  */
  lemma AlertsNeedTheirTick(z: Zone, ts: seq<Transaction>, i: nat)
    ensures var s := Run(z, ts);
      && ((i, DayClosed) in s.alerts ==> i < |s.entries| && ReachedFrom(ts, i, z.nextDay(s.entries[i].date)))
      && ((i, Overdue) in s.alerts ==> i < |s.entries| && ReachedFrom(ts, i, z.noon(s.entries[i].date)))
  {
    for n := 0 to |ts|
      invariant AlertsAreDue(z, ts[..n], i)
    {
      AlertsStayDue(z, ts[..n], ts[n], i);
      assert ts[..n + 1] == ts[..n] + [ts[n]];
    }
    assert ts[..|ts|] == ts;
  }

  // ----- What the participant's transactions do -----

  /** A task is added in two steps, and only on a day without an entry while no task is open and no input pending. */
  lemma TaskIsAdded(z: Zone, s: State, today: int)
    ensures var t := Next(z, Next(z, s, Add(today, false)), SendText(today));
      !(exists e <- s.entries :: e.date == today) && !(exists e <- s.entries :: e.kind.Task? && IsOpen(e.status)) && s.pending.None? ==>
        t == s.(entries := s.entries + [Entry(today, Task, Active, None, None, None, 0)])
  {
  }

  lemma SummaryIsAdded(z: Zone, s: State, today: int)
    ensures var t := Next(z, s, Add(today, true));
      if !(exists e <- s.entries :: e.date == today) && !(exists e <- s.entries :: e.kind.Task? && IsOpen(e.status)) && s.pending.None?
      then t == s.(entries := s.entries + [Entry(today, Summary, Active, None, None, None, 0)])
      else t == s
  {
  }

  /** A status can be chosen unless another kind of input is pending; choosing again replaces the choice. */
  lemma PressNeedsAFreeInput(z: Zone, s: State, i: nat, status: Status)
    requires i < |s.entries| && (status.Done? || status.Partial? || status.Failed?)
    requires var e := s.entries[i];
      IsOpen(e.status) || (e.kind.Task? && e.status.Failed? && e.failedAt.Some? && e.reportedAt.None?)
    ensures var t, task := Next(z, s, PressStatus(i, status)), s.entries[i].kind.Task?;
      t == if s.pending.None? || (if task then s.pending.value.TaskReport? else s.pending.value.SummaryReport?)
           then s.(pending := Some(if task then TaskReport(i, status) else SummaryReport(i, status))) else s
  {
  }

  /**
   A status chosen and then a report: the entry keeps the chosen status as its report, takes it as its own status
   unless it had failed, and an entry that was open gets its one event.
  */
  lemma ReportStoresTheChoice(z: Zone, s: State, i: nat, status: Status, now: int)
    requires i < |s.entries| && s.pending.None? && (status.Done? || status.Partial? || status.Failed?)
    requires var e := s.entries[i];
      IsOpen(e.status) || (e.kind.Task? && e.status.Failed? && e.failedAt.Some? && e.reportedAt.None?)
    ensures var t, e := Next(z, Next(z, s, PressStatus(i, status)), SendReport(now)), s.entries[i];
      && t.entries == s.entries[i := Entry(e.date, e.kind, if IsOpen(e.status) then status else e.status, e.failedAt,
                                           Some(status), Some(now), e.reports + 1)]
      && t.alerts == s.alerts && t.pending.None?
      && |t.events| == |s.events| + (if IsOpen(e.status) then 1 else 0)
  {
  }

  /** The instants of those ticks whose walk reaches entry j. */
  function Reaching(ticks: seq<Transaction>, j: nat): seq<int> {
    if ticks == [] then []
    else
      var rest, last := Reaching(ticks[..|ticks| - 1], j), ticks[|ticks| - 1];
      if last.Tick? && j < last.reach then rest + [last.now] else rest
  }

  function After(z: Zone, s: State, ticks: seq<Transaction>): State {
    if ticks == [] then s else Next(z, After(z, s, ticks[..|ticks| - 1]), ticks[|ticks| - 1])
  }

  lemma {:induction false} StatusAfterOneMore(z: Zone, date: int, status: Status, ticks: seq<int>, now: int)
    ensures StatusAfterAll(z, date, status, ticks + [now]) == StatusAfter(z, date, StatusAfterAll(z, date, status, ticks), now)
    decreases |ticks|
  {
    if ticks == [] {
      assert ticks + [now] == [now] && [now][1..] == [];
    } else {
      assert (ticks + [now])[1..] == ticks[1..] + [now];
      StatusAfterOneMore(z, date, StatusAfter(z, date, status, ticks[0]), ticks[1..], now);
    }
  }

  /** Ticks of the worker move an entry exactly as the ticks that reach it do, taken alone. */
  lemma {:induction false} TicksReachEntries(z: Zone, s: State, ticks: seq<Transaction>, j: nat)
    requires j < |s.entries| && forall t <- ticks :: t.Tick?
    ensures var t, e := After(z, s, ticks), s.entries[j];
      && |t.entries| == |s.entries| && t.entries[j].date == e.date
      && t.entries[j].status == StatusAfterAll(z, e.date, e.status, Reaching(ticks, j))
  {
    if ticks != [] {
      var front, last := ticks[..|ticks| - 1], ticks[|ticks| - 1];
      TicksReachEntries(z, s, front, j);
      var t := After(z, s, front);
      TickIsPointwise(z, t, Min(last.reach, |t.entries|), last.now, j);
      StatusAfterOneMore(z, s.entries[j].date, s.entries[j].status, Reaching(front, j), last.now);
    }
  }

  // ----- The transactions as code -----

  class Today {
    const zone: Zone
    var state: State
    ghost var log: seq<Transaction>

    /** The rows are what the transactions so far make of an empty table. */
    ghost predicate Valid()
      reads this
    {
      state == Run(zone, log)
    }

    constructor (zone: Zone)
      ensures Valid() && log == [] && this.zone == zone
    {
      this.zone := zone;
      state, log := State([], [], {}, None), [];
    }

    /** So everything proved of runs holds of the rows, and of what they were at any earlier time. */
    lemma RowsAreReachable(past: nat)
      requires Valid() && past <= |log|
      ensures Inv(state) && Evolves(Run(zone, log[..past]), state)
    {
      RunKeepsInv(zone, log);
      ClosedStaysClosed(zone, log[..past], log[past..]);
      assert log[..past] + log[past..] == log;
    }

    /**
     RunDailyTaskTransitions lists the open entries first and then updates them one by one; a missing workspace
     ends the walk without an error, and the entries behind it wait for another tick. Every entry it reaches is
     left alone before its following midnight, awaits its report from then on, and has failed from its noon on.
    */
    method RunDailyTaskTransitions(now: int, workspaceFound: nat -> bool) returns (ghost reach: nat)
      requires Valid()
      modifies this
      ensures Valid() && log == old(log) + [Tick(now, reach)] && state == Next(zone, old(state), Tick(now, reach))
      ensures reach <= |old(state).entries|
      ensures forall j :: 0 <= j < reach && IsOpen(old(state).entries[j].status) ==> workspaceFound(j)
      ensures reach < |old(state).entries| ==> IsOpen(old(state).entries[reach].status) && !workspaceFound(reach)
      ensures Walked(zone, old(state), state, reach, now)
    {
      var last := Walk(now, workspaceFound);
      reach := last;
      Note(old(state), Tick(now, reach));
      TickFollowsTheClock(zone, old(state), reach, now);
    }

    /** Adds a transaction to the log once its statements have been carried out. */
    ghost method Note(before: State, t: Transaction)
      requires before == Run(zone, log) && state == Next(zone, before, t)
      modifies `log
      ensures Valid() && log == old(log) + [t]
    {
      RunAppend(zone, log, t);
      log := log + [t];
    }

    method Walk(now: int, workspaceFound: nat -> bool) returns (reach: nat)
      modifies `state
      ensures reach <= |old(state).entries| && state == TickFirst(zone, old(state), reach, now)
      ensures forall j :: 0 <= j < reach && IsOpen(old(state).entries[j].status) ==> workspaceFound(j)
      ensures reach < |old(state).entries| ==> IsOpen(old(state).entries[reach].status) && !workspaceFound(reach)
    {
      var tasks := state.entries;
      for i := 0 to |tasks|
        invariant |state.entries| == |tasks|
        invariant forall j :: i <= j < |tasks| ==> state.entries[j] == tasks[j]
        invariant state == TickFirst(zone, old(state), i, now)
        invariant forall j :: 0 <= j < i && IsOpen(tasks[j].status) ==> workspaceFound(j)
      {
        if IsOpen(tasks[i].status) {
          if !workspaceFound(i) {
            return i;
          }
          TransitTask(i, tasks[i], now);
        }
      }
      reach := |tasks|;
    }

    /** The updates of one task, decided on the row as it was listed. */
    method TransitTask(i: nat, task: Entry, now: int)
      requires i < |state.entries| && state.entries[i] == task && IsOpen(task.status)
      modifies `state
      ensures state == TickEntry(zone, old(state), i, now)
    {
      match Transition(zone, task.date, task.status, now) {
        case Some(AwaitingReport) =>
          state := state.(entries := state.entries[i := state.entries[i].(status := AwaitingReport)],
                          alerts := state.alerts + {(i, DayClosed)});
        case Some(Failed) =>
          var kind := if task.kind.Summary? then SummaryAutoFailed else TaskAutoFailed;
          state := state.(entries := state.entries[i := state.entries[i].(status := Failed, failedAt := Some(now))],
                          alerts := state.alerts + {(i, Overdue)},
                          events := state.events + [Event(i, kind)]);
        case _ =>
      }
    }

    method HandleTodayAdd(today: int, evening: bool)
      requires Valid()
      modifies this
      ensures Valid() && log == old(log) + [Add(today, evening)] && state == Next(zone, old(state), Add(today, evening))
    {
      RunAppend(zone, log, Add(today, evening));
      log := log + [Add(today, evening)];
      if HasEntryOn(state.entries, today) {
        return;
      }
      if HasOpenTask(state.entries) {
        return;
      }
      if state.pending.Some? {
        return;
      }
      if evening {
        state := state.(entries := state.entries + [Created(today, Summary)]);
      } else {
        state := state.(pending := Some(TaskText));
      }
    }

    method ConsumeDailyTaskText(today: int)
      requires Valid()
      modifies this
      ensures Valid() && log == old(log) + [SendText(today)] && state == Next(zone, old(state), SendText(today))
    {
      if state.pending == Some(TaskText) {
        InsertTask(today);
      }
      Note(old(state), SendText(today));
    }

    /** The pending text is claimed, and the insert does nothing on a date that has an entry. */
    method InsertTask(today: int)
      requires state.pending == Some(TaskText)
      modifies `state
      ensures state == Next(zone, old(state), SendText(today))
    {
      state := state.(pending := None);
      if !HasEntryOn(state.entries, today) {
        state := state.(entries := state.entries + [Created(today, Task)]);
      }
    }

    method HandleTaskStatus(i: nat, status: Status)
      requires Valid()
      modifies this
      ensures Valid() && log == old(log) + [PressStatus(i, status)] && state == Next(zone, old(state), PressStatus(i, status))
    {
      RunAppend(zone, log, PressStatus(i, status));
      log := log + [PressStatus(i, status)];
      if i >= |state.entries| || !AcceptsReport(state.entries[i]) || !IsFinal(status) {
        return;
      }
      var wanted := PendingFor(state.entries[i], i, status);
      if state.pending.Some? && !SameKind(state.pending.value, wanted) {
        return;
      }
      state := state.(pending := Some(wanted));
    }

    method ConsumeDailyReport(now: int) returns (submitted: bool)
      requires Valid()
      modifies this
      ensures Valid() && log == old(log) + [SendReport(now)] && state == Next(zone, old(state), SendReport(now))
      ensures submitted <==>
        && old(state).pending.Some? && !old(state).pending.value.TaskText?
        && old(state).pending.value.entry < |old(state).entries|
        && AcceptsReport(old(state).entries[old(state).pending.value.entry]) && IsFinal(old(state).pending.value.status)
    {
      RunAppend(zone, log, SendReport(now));
      log := log + [SendReport(now)];
      submitted := false;
      if state.pending.None? || state.pending.value.TaskText? {
        return;
      }
      var i, status := state.pending.value.entry, state.pending.value.status;
      state := state.(pending := None);
      if i >= |state.entries| {
        return;
      }
      var task := state.entries[i];
      if !AcceptsReport(task) || !IsFinal(status) {
        return;
      }
      var reported := task.(reportStatus := Some(status), reportedAt := Some(now), reports := task.reports + 1);
      if !IsOpen(task.status) {
        state := state.(entries := state.entries[i := reported]);
      } else {
        state := state.(entries := state.entries[i := reported.(status := status)]);
        var failed := task.failedAt.Some?;
        var kind := if task.kind.Summary? then (if failed then SummaryAutoFailed else SummaryClosed)
                    else (if failed then TaskAutoFailed else TaskClosed);
        state := state.(events := state.events + [Event(i, kind)]);
      }
      submitted := true;
    }

    /** The worker drops an input that has been pending for a day. */
    method CleanupStaleInput()
      requires Valid()
      modifies this
      ensures Valid() && log == old(log) + [Cleanup] && state == old(state).(pending := None)
    {
      RunAppend(zone, log, Cleanup);
      log := log + [Cleanup];
      state := state.(pending := None);
    }
  }
}
