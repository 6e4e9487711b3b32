/**
 Which list a routine check-in carries when its owner changes the plan. A zone maps every local day to the instants
 of its midnight and of its 08:00; the window of a day runs from its 08:00 to the next 08:00.
*/
module PlanSnapshots {
  import opened Prelude

  datatype Zone = Zone(midnight: int -> int, eight: int -> int, day: int -> int)

  ghost predicate ValidZone(z: Zone) {
    && (forall d :: z.midnight(d) <= z.eight(d) < z.midnight(d + 1))
    && (forall t :: z.midnight(z.day(t)) <= t < z.midnight(z.day(t) + 1))
  }

  predicate InWindow(z: Zone, d: int, t: int) {
    z.eight(d) <= t < z.eight(d + 1)
  }

  /** RoutinePlanChangeSnapshotDate: the day whose window the change falls into, unless the plan is younger. */
  function SnapshotDate(z: Zone, created: int, now: int): Option<int> {
    var today := z.day(now);
    var active := if now < z.eight(today) then today - 1 else today;
    if active < z.day(created) then None else Some(active)
  }

  /** RoutineCheckinDue with RoutinePreviousCheckinDate: from 08:00 on, yesterday. */
  function DueDate(z: Zone, created: int, now: int): Option<int> {
    if now < z.eight(z.day(now)) then None
    else if z.day(now) - 1 < z.day(created) then None
    else Some(z.day(now) - 1)
  }

  lemma {:induction false} MidnightsIncrease(z: Zone, d: int, e: int)
    requires ValidZone(z) && d < e
    ensures z.midnight(d) < z.midnight(e)
    decreases e - d
  {
    if d + 1 < e {
      MidnightsIncrease(z, d + 1, e);
    }
    assert z.midnight(d) <= z.eight(d) < z.midnight(d + 1);
  }

  lemma DayIsUnique(z: Zone, d: int, t: int)
    requires ValidZone(z) && z.midnight(d) <= t < z.midnight(d + 1)
    ensures z.day(t) == d
  {
    var e := z.day(t);
    if e < d {
      if e + 1 < d {
        MidnightsIncrease(z, e + 1, d);
      }
    } else if d < e {
      if d + 1 < e {
        MidnightsIncrease(z, d + 1, e);
      }
    }
  }

  lemma EightsIncrease(z: Zone, d: int, e: int)
    requires ValidZone(z) && d < e
    ensures z.eight(d) < z.midnight(e) <= z.eight(e)
  {
    if d + 1 < e {
      MidnightsIncrease(z, d + 1, e);
    }
  }

  lemma DayOfEight(z: Zone, d: int)
    requires ValidZone(z)
    ensures z.day(z.eight(d)) == d
  {
    DayIsUnique(z, d, z.eight(d));
  }

  /**
   The date a plan change snapshots is the date the dispatcher will pick at the first 08:00 after the change:
   both are the day in whose window the change falls.
  */
  lemma SnapshotMatchesNextDispatch(z: Zone, created: int, now: int) returns (d: int)
    requires ValidZone(z)
    ensures InWindow(z, d, now)
    ensures forall e :: z.eight(e) > now ==> z.eight(e) >= z.eight(d + 1)
    ensures SnapshotDate(z, created, now) == DueDate(z, created, z.eight(d + 1))
    ensures SnapshotDate(z, created, now) == if d < z.day(created) then None else Some(d)
  {
    var today := z.day(now);
    d := if now < z.eight(today) then today - 1 else today;
    assert z.eight(today) < z.midnight(today + 1) <= z.eight(today + 1);
    assert z.eight(today - 1) < z.midnight(today - 1 + 1);
    DayOfEight(z, d + 1);
    forall e | z.eight(e) > now ensures z.eight(e) >= z.eight(d + 1) {
      if e <= d && e < d {
        EightsIncrease(z, e, d);
      } else if e > d + 1 {
        EightsIncrease(z, d + 1, e);
      }
    }
  }

  /** From 08:00 to midnight the day before is due, unless it is older than the plan; before 08:00 none is. */
  lemma DueFromEightToMidnight(z: Zone, created: int, now: int, d: int)
    requires ValidZone(z)
    ensures DueDate(z, created, now) == Some(d) <==> z.eight(d + 1) <= now < z.midnight(d + 2) && d >= z.day(created)
  {
    assert z.midnight(d + 1) <= z.eight(d + 1);
    if z.eight(d + 1) <= now < z.midnight(d + 2) {
      DayIsUnique(z, d + 1, now);
    }
  }

  lemma OneWindow(z: Zone, d: int, e: int, t: int)
    requires ValidZone(z) && InWindow(z, d, t) && InWindow(z, e, t)
    ensures d == e
  {
    if d + 1 < e {
      EightsIncrease(z, d + 1, e);
    } else if e + 1 < d {
      EightsIncrease(z, e + 1, d);
    }
  }

  // ----- Plan changes and dispatches -----

  type List = seq<string>

  datatype Change = Change(at: int, items: List)

  /** How a check-in came to be: `before` counts the plan settings that preceded it. */
  datatype Origin = ByChange(before: nat) | ByDispatch(at: int, before: nat)

  /** The plan is its last setting; the first one created it. */
  datatype State = State(history: seq<Change>, checkins: map<int, List>, origins: map<int, Origin>, clock: int)

  datatype Event = SetPlan(at: int, items: List) | Dispatch(at: int)

  function Insert(s: State, d: int, origin: Origin): State
    requires s.history != []
  {
    if d in s.checkins then s
    else s.(checkins := s.checkins[d := s.history[|s.history| - 1].items], origins := s.origins[d := origin])
  }

  function Next(z: Zone, s: State, e: Event): State {
    match e
    case SetPlan(at, items) =>
      var kept :=
        if s.history == [] then s
        else match SnapshotDate(z, s.history[0].at, at)
          case None => s
          case Some(d) => Insert(s, d, ByChange(|s.history|));
      kept.(history := kept.history + [Change(at, items)], clock := at)
    case Dispatch(at) =>
      var kept :=
        if s.history == [] || s.history[|s.history| - 1].items == [] then s
        else match DueDate(z, s.history[0].at, at)
          case None => s
          case Some(d) => Insert(s, d, ByDispatch(at, |s.history|));
      kept.(clock := at)
  }

  ghost predicate Ordered(s: State) {
    && (forall i, j :: 0 <= i < j < |s.history| ==> s.history[i].at <= s.history[j].at)
    && (forall i :: 0 <= i < |s.history| ==> s.history[i].at <= s.clock)
  }

  /** Everything known about the check-in of day d. */
  ghost predicate CheckinOk(z: Zone, s: State, d: int) {
    d in s.checkins ==>
      && d in s.origins && s.history != [] && d >= z.day(s.history[0].at)
      && 1 <= s.origins[d].before <= |s.history|
      && s.checkins[d] == s.history[s.origins[d].before - 1].items
      && (forall j :: 1 <= j < s.origins[d].before ==> !InWindow(z, d, s.history[j].at))
      && match s.origins[d]
         case ByChange(k) => k < |s.history| && InWindow(z, d, s.history[k].at)
         case ByDispatch(at, k) =>
           at >= z.eight(d + 1) && at <= s.clock && forall j :: k <= j < |s.history| ==> s.history[j].at >= z.eight(d + 1)
  }

  /** A setting after the first one leaves a check-in behind for the day of its window. */
  ghost predicate ChangeKept(z: Zone, s: State, j: int, d: int) {
    1 <= j < |s.history| && InWindow(z, d, s.history[j].at) && d >= z.day(s.history[0].at) ==> d in s.checkins
  }

  ghost predicate Inv(z: Zone, s: State) {
    && Ordered(s)
    && (forall d :: CheckinOk(z, s, d))
    && (forall j, d :: ChangeKept(z, s, j, d))
  }

  lemma StepKeepsOldCheckin(z: Zone, s: State, e: Event, d: int)
    requires Ordered(s) && CheckinOk(z, s, d) && e.at >= s.clock && d in s.checkins
    ensures CheckinOk(z, Next(z, s, e), d)
  {
    var t := Next(z, s, e);
    assert t.checkins[d] == s.checkins[d] && t.origins[d] == s.origins[d];
    assert t.history == s.history || t.history == s.history + [Change(e.at, t.history[|s.history|].items)];
  }

  lemma NoEarlierChange(z: Zone, s: State, d: int)
    requires d !in s.checkins && (forall j :: ChangeKept(z, s, j, d))
    requires s.history != [] && d >= z.day(s.history[0].at)
    ensures forall j :: 1 <= j < |s.history| ==> !InWindow(z, d, s.history[j].at)
  {
    forall j | 1 <= j < |s.history| ensures !InWindow(z, d, s.history[j].at) {
      assert ChangeKept(z, s, j, d);
    }
  }

  lemma SetPlanMakesCheckin(z: Zone, s: State, e: Event, d: int)
    requires ValidZone(z) && d !in s.checkins && e.SetPlan?
    requires forall j :: ChangeKept(z, s, j, d)
    ensures CheckinOk(z, Next(z, s, e), d)
  {
    var t := Next(z, s, e);
    if d in t.checkins {
      var w := SnapshotMatchesNextDispatch(z, s.history[0].at, e.at);
      NoEarlierChange(z, s, d);
      assert t.history[..|s.history|] == s.history;
    }
  }

  lemma DispatchMakesCheckin(z: Zone, s: State, e: Event, d: int)
    requires d !in s.checkins && e.Dispatch?
    requires forall j :: ChangeKept(z, s, j, d)
    ensures CheckinOk(z, Next(z, s, e), d)
  {
    if d in Next(z, s, e).checkins {
      NoEarlierChange(z, s, d);
    }
  }

  lemma StepKeepsChange(z: Zone, s: State, e: Event, j: int, d: int)
    requires ValidZone(z) && ChangeKept(z, s, j, d)
    ensures ChangeKept(z, Next(z, s, e), j, d)
  {
    if e.SetPlan? && s.history != [] && j == |s.history| && InWindow(z, d, e.at) {
      var w := SnapshotMatchesNextDispatch(z, s.history[0].at, e.at);
      OneWindow(z, d, w, e.at);
    }
  }

  lemma StepKeepsInv(z: Zone, s: State, e: Event)
    requires ValidZone(z) && Inv(z, s) && e.at >= s.clock
    ensures Inv(z, Next(z, s, e))
  {
    forall d ensures CheckinOk(z, Next(z, s, e), d) {
      if d in s.checkins {
        StepKeepsOldCheckin(z, s, e, d);
      } else if e.SetPlan? {
        SetPlanMakesCheckin(z, s, e, d);
      } else {
        DispatchMakesCheckin(z, s, e, d);
      }
    }
    forall j, d ensures ChangeKept(z, Next(z, s, e), j, d) {
      StepKeepsChange(z, s, e, j, d);
    }
  }

  /**
   One dispatch: the only check-in it can make is that of the due day, and it makes it exactly when the day has none
   and the list is not empty, with the list as it is now.
  */
  lemma DispatchMakesTheDueCheckin(z: Zone, s: State, at: int, d: int)
    requires ValidZone(z) && s.history != []
    ensures var t, items := Next(z, s, Dispatch(at)), s.history[|s.history| - 1].items;
      && t.history == s.history
      && (d in t.checkins && d !in s.checkins <==>
            && d !in s.checkins && items != []
            && z.eight(d + 1) <= at < z.midnight(d + 2) && d >= z.day(s.history[0].at))
      && (d in t.checkins && d !in s.checkins ==> t.checkins[d] == items)
      && (d in s.checkins ==> d in t.checkins && t.checkins[d] == s.checkins[d])
  {
    DueFromEightToMidnight(z, s.history[0].at, at, d);
  }

  ghost predicate Trace(z: Zone, states: seq<State>, events: seq<Event>) {
    && |states| == |events| + 1
    && forall i :: 0 <= i < |events| ==> events[i].at >= states[i].clock && states[i + 1] == Next(z, states[i], events[i])
  }

  ghost predicate Start(s: State) {
    s.history == [] && s.checkins == map[]
  }

  lemma {:induction false} TraceKeepsInv(z: Zone, states: seq<State>, events: seq<Event>, i: nat)
    requires ValidZone(z) && Trace(z, states, events) && Start(states[0]) && i <= |events|
    ensures Inv(z, states[i])
  {
    if i > 0 {
      TraceKeepsInv(z, states, events, i - 1);
      StepKeepsInv(z, states[i - 1], events[i - 1]);
    }
  }

  // ----- What a check-in carries -----

  /** The first setting after the creation that is not earlier than the window of d. */
  ghost function FirstFrom(z: Zone, history: seq<Change>, d: int, j: nat): (k: nat)
    requires 1 <= j <= |history|
    ensures j <= k <= |history|
    decreases |history| - j
  {
    if j == |history| || history[j].at >= z.eight(d) then j else FirstFrom(z, history, d, j + 1)
  }

  /** The list that governs day d: the one in force before the first change of its window or of a later one. */
  ghost function Governing(z: Zone, history: seq<Change>, d: int): List
    requires history != []
  {
    history[FirstFrom(z, history, d, 1) - 1].items
  }

  lemma {:induction false} FirstFromIs(z: Zone, history: seq<Change>, d: int, j: nat, k: nat)
    requires 1 <= j <= k <= |history|
    requires forall i :: j <= i < k ==> history[i].at < z.eight(d)
    requires k < |history| ==> history[k].at >= z.eight(d)
    ensures FirstFrom(z, history, d, j) == k
    decreases k - j
  {
    if j < k {
      FirstFromIs(z, history, d, j + 1, k);
    }
  }

  /** The dispatcher made this check-in only after the plan had been changed in a later window. */
  ghost predicate Overtaken(z: Zone, s: State, d: int) {
    && d in s.origins && s.origins[d].ByDispatch?
    && exists j :: 1 <= j < s.origins[d].before && j < |s.history| && s.history[j].at >= z.eight(d + 1)
  }

  lemma {:induction false} FirstFromAtMost(z: Zone, history: seq<Change>, d: int, j: nat, k: nat)
    requires 1 <= j <= k < |history| && history[k].at >= z.eight(d)
    ensures FirstFrom(z, history, d, j) <= k
    decreases k - j
  {
    if j < k && history[j].at < z.eight(d) {
      FirstFromAtMost(z, history, d, j + 1, k);
    }
  }

  /** A check-in was made under the governing setting exactly when the dispatcher was not overtaken. */
  lemma GoverningUnlessOvertaken(z: Zone, s: State, d: int)
    requires ValidZone(z) && Inv(z, s) && d in s.checkins && d in s.origins && s.history != []
    ensures s.origins[d].before == FirstFrom(z, s.history, d, 1) <==> !Overtaken(z, s, d)
  {
    assert CheckinOk(z, s, d);
    var k := s.origins[d].before;
    assert z.eight(d) < z.midnight(d + 1) <= z.eight(d + 1);
    if Overtaken(z, s, d) {
      var j :| 1 <= j < k && j < |s.history| && s.history[j].at >= z.eight(d + 1);
      FirstFromAtMost(z, s.history, d, 1, j);
    } else {
      forall i | 1 <= i < k ensures s.history[i].at < z.eight(d) {
        if s.origins[d].ByChange? {
          assert s.history[i].at <= s.history[k].at;
        }
        assert !InWindow(z, d, s.history[i].at);
      }
      FirstFromIs(z, s.history, d, 1, k);
    }
  }

  /**
   In every reachable state a check-in carries the list of the setting that governs its day, if and only if it was
   not dispatched so late that the plan had already been changed in a later window; then it carries a newer one.
   No check-in is older than the plan.
  */
  lemma SnapshotTheorem(z: Zone, states: seq<State>, events: seq<Event>, i: nat, d: int)
    requires ValidZone(z) && Trace(z, states, events) && Start(states[0]) && i <= |events|
    requires d in states[i].checkins
    ensures var s := states[i];
      && s.history != [] && d >= z.day(s.history[0].at)
      && d in s.origins && 1 <= s.origins[d].before <= |s.history|
      && s.checkins[d] == s.history[s.origins[d].before - 1].items
      && (s.origins[d].before == FirstFrom(z, s.history, d, 1) <==> !Overtaken(z, s, d))
      && (!Overtaken(z, s, d) ==> s.checkins[d] == Governing(z, s.history, d))
  {
    TraceKeepsInv(z, states, events, i);
    assert CheckinOk(z, states[i], d);
    GoverningUnlessOvertaken(z, states[i], d);
  }

  /** A check-in, once made, carries the same list in every continuation. */
  lemma {:induction false} SnapshotsStay(z: Zone, states: seq<State>, events: seq<Event>, i: nat, j: nat, d: int)
    requires Trace(z, states, events) && i <= j <= |events| && d in states[i].checkins
    ensures d in states[j].checkins && states[j].checkins[d] == states[i].checkins[d]
  {
    if i < j {
      SnapshotsStay(z, states, events, i, j - 1, d);
    }
  }

  /** A change inside the window of a day protects that day, however late the dispatcher runs. */
  lemma ChangeInWindowProtects(z: Zone, states: seq<State>, events: seq<Event>, i: nat, j: nat, d: int)
    requires ValidZone(z) && Trace(z, states, events) && Start(states[0]) && i <= |events|
    requires 1 <= j < |states[i].history| && InWindow(z, d, states[i].history[j].at)
    requires d >= z.day(states[i].history[0].at)
    ensures d in states[i].checkins && !Overtaken(z, states[i], d)
  {
    TraceKeepsInv(z, states, events, i);
    var s := states[i];
    assert ChangeKept(z, s, j, d);
    assert CheckinOk(z, s, d);
  }

  /** The exception is real: a worker that is down from 08:00 to 10:00 gives yesterday the list set at 09:00. */
  lemma LateDispatchTakesTheNewList(z: Zone, oldList: List, newList: List)
    requires ValidZone(z) && oldList != [] && newList != [] && oldList != newList
    ensures exists states: seq<State>, events: seq<Event>, d: int ::
      && Trace(z, states, events) && Start(states[0]) && d in states[|events|].checkins
      && states[|events|].history != []
      && states[|events|].checkins[d] == newList && Governing(z, states[|events|].history, d) == oldList
  {
    var nine := z.eight(1);
    var events := [SetPlan(z.eight(0), oldList), SetPlan(nine, newList), Dispatch(nine)];
    var s0 := State([], map[], map[], z.eight(0));
    var s1 := Next(z, s0, events[0]);
    assert z.eight(0) < z.midnight(0 + 1) <= z.eight(0 + 1);
    DayOfEight(z, 0);
    DayOfEight(z, 1);
    assert SnapshotDate(z, z.eight(0), nine) == Some(1);
    assert DueDate(z, z.eight(0), nine) == Some(0);
    var s2 := Next(z, s1, events[1]);
    var s3 := Next(z, s2, events[2]);
    assert s3.history == [Change(z.eight(0), oldList), Change(nine, newList)];
    FirstFromIs(z, s3.history, 0, 1, 1);
    var states := [s0, s1, s2, s3];
    assert Trace(z, states, events);
    assert states[|events|].checkins[0] == newList && Governing(z, states[|events|].history, 0) == oldList;
  }

  // ----- The two writers -----

  /** The plan row and the check-ins of one participant. The history is kept for the proof only. */
  class Routine {
    const zone: Zone
    var createdAt: Option<int>
    var plan: List
    var checkins: map<int, List>
    ghost var history: seq<Change>
    ghost var origins: map<int, Origin>
    ghost var clock: int
    ghost var states: seq<State>
    ghost var events: seq<Event>
    ghost var forward: bool   // the clock has never been turned back

    /** The plan row is the last setting, and while the clock goes forward everything is where the events so far lead. */
    ghost predicate Valid()
      reads this
    {
      && RowIsLastSetting()
      && |states| == |events| + 1 && states[|events|] == Value()
      && (forward ==> Trace(zone, states, events) && Start(states[0]))
    }

    ghost predicate RowIsLastSetting()
      reads this
    {
      && (createdAt.None? <==> history == [])
      && (history != [] ==> createdAt == Some(history[0].at) && plan == history[|history| - 1].items)
    }

    /** So what is proved of runs holds of every check-in of the table. */
    lemma CheckinsAreReachable(d: int)
      requires Valid() && forward && ValidZone(zone) && d in checkins
      ensures history != [] && d >= zone.day(history[0].at)
      ensures !Overtaken(zone, Value(), d) ==> checkins[d] == Governing(zone, history, d)
    {
      SnapshotTheorem(zone, states, events, |events|, d);
    }

    /** Notes an event before the statements that carry it out. */
    ghost method Note(e: Event)
      requires Valid()
      modifies `states, `events, `forward
      ensures events == old(events) + [e] && forward == (old(forward) && e.at >= clock)
      ensures |states| == |events| + 1 && states[|events|] == Next(zone, old(Value()), e)
      ensures forward ==> Trace(zone, states, events) && Start(states[0])
    {
      forward := forward && e.at >= clock;
      states, events := states + [Next(zone, Value(), e)], events + [e];
    }

    ghost function Value(): State
      reads this
    {
      State(history, checkins, origins, clock)
    }

    constructor (zone: Zone, ghost clock: int)
      ensures Valid() && forward && events == [] && this.zone == zone && this.clock == clock
    {
      this.zone := zone;
      createdAt, plan, checkins := None, [], map[];
      history, origins, this.clock := [], map[], clock;
      states, events, forward := [State([], map[], map[], clock)], [], true;
    }

    /** INSERT ... ON CONFLICT DO NOTHING, then one item row per line of the plan. */
    method GetOrCreateCheckin(d: int, ghost origin: Origin)
      requires RowIsLastSetting() && history != []
      modifies `checkins, `origins
      ensures Value() == Insert(old(Value()), d, origin)
    {
      if d in checkins {
        return;
      }
      var items: List := [];
      for i := 0 to |plan|
        invariant items == plan[..i]
      {
        items := items + [plan[i]];
      }
      assert items == plan;
      checkins := checkins[d := items];
      origins := origins[d := origin];
    }

    /** Before the list is replaced, the day of the running window is written down with the old list. */
    method ConsumeRoutinePlan(now: int, items: List)
      requires Valid()
      modifies this
      ensures Valid() && events == old(events) + [SetPlan(now, items)] && forward == (old(forward) && now >= old(clock))
      ensures Value() == Next(zone, old(Value()), SetPlan(now, items))
    {
      Note(SetPlan(now, items));
      if createdAt.Some? {
        var date := SnapshotDate(zone, createdAt.value, now);
        if date.Some? {
          GetOrCreateCheckin(date.value, ByChange(|history|));
        }
      } else {
        createdAt := Some(now);
      }
      plan := items;
      history, clock := history + [Change(now, items)], now;
    }

    method DispatchDueCheckin(now: int)
      requires Valid()
      modifies this
      ensures Valid() && events == old(events) + [Dispatch(now)] && forward == (old(forward) && now >= old(clock))
      ensures Value() == Next(zone, old(Value()), Dispatch(now))
    {
      Note(Dispatch(now));
      clock := now;
      if createdAt.None? || |plan| == 0 {
        return;
      }
      var date := DueDate(zone, createdAt.value, now);
      if date.Some? {
        GetOrCreateCheckin(date.value, ByDispatch(now, |history|));
      }
    }
  }
}
