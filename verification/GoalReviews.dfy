/**
 The reviews of one seasonal goal set as a state machine: ticks of the worker at nondecreasing instants, answers
 of the participant at any moment, and crashes anywhere. Instants are seconds; the workspace zone gives every
 instant a local day and hour, the day never decreasing with the instant.
*/
module GoalReviews {
  import opened Prelude
  import opened Calendar

  const HOUR := 3600
  const REMINDER_DELAY := 24 * HOUR
  const DELETE_LIMIT := 48 * HOUR
  const DELETE_TARGET := DELETE_LIMIT - HOUR
  const SKIP_AFTER := REMINDER_DELAY + DELETE_TARGET

  datatype Zone = Zone(day: int -> int, hour: int -> int)

  ghost predicate Monotone(z: Zone) {
    forall t, u :: t <= u ==> z.day(t) <= z.day(u)
  }

  datatype Prompt = Initial(at: int) | Reminder(at: int)

  /** A row of seasonal_goal_weekly_reviews. `prompts` lists the deliveries persisted in it. */
  datatype Review = Review(
    promptId: Option<int>, requestedAt: int, reminderSentAt: Option<int>,
    respondedAt: Option<int>, skippedAt: Option<int>, prompts: seq<Prompt>)

  predicate OpenReview(r: Review) {
    r.respondedAt.None? && r.skippedAt.None?
  }

  datatype LifecycleAction = NoAction | Remind | Skip

  function NextAction(r: Review, now: int): LifecycleAction {
    if r.respondedAt.Some? || r.skippedAt.Some? || now < r.requestedAt + REMINDER_DELAY then NoAction
    else if !(now < r.requestedAt + SKIP_AFTER) then Skip
    else if r.reminderSentAt.None? then Remind
    else NoAction
  }

  /** Hour by hour: nothing before 24 hours or once the review is closed, a skip from 71 hours on, one reminder between. */
  lemma ActionFollowsTheClock(r: Review, now: int)
    ensures var open, elapsed := r.respondedAt.None? && r.skippedAt.None?, now - r.requestedAt;
      && (NextAction(r, now) == Skip <==> open && elapsed >= 71 * 3600)
      && (NextAction(r, now) == Remind <==> open && r.reminderSentAt.None? && 24 * 3600 <= elapsed < 71 * 3600)
  {
  }

  predicate DeleteAllowed(sentAt: int, now: int) {
    !(now < sentAt) && now - sentAt < DELETE_LIMIT
  }

  /** Which message of a skipped review is closed, and when it was sent. */
  function ClosedPromptSentAt(r: Review): int {
    if r.reminderSentAt.Some? then r.reminderSentAt.value else r.requestedAt
  }

  datatype Final = Final(promptId: Option<int>, completed: bool)

  /** What the worker is doing for this goal set. `seen` is the review row as it was read. */
  datatype Pc =
    | Idle
    | Deciding(now: int, target: Option<int>, seen: Option<Review>)
    | Prompting(now: int, week: int, reminder: bool)
    | Storing(now: int, week: int, reminder: bool, messageId: int)
    | Closing(now: int)
    | StoringFinal(now: int, messageId: int)

  datatype Sent = WeeklySent(week: int, reminder: bool, at: int) | FinalSent(at: int)

  /** `clock` is the instant of the latest tick, `walked` that of the latest weekly stage that ran to its end. */
  datatype State = State(
    reviews: map<int, Review>, final: Option<Final>, pc: Pc,
    clock: int, walked: Option<int>, sent: seq<Sent>)

  datatype Goal = Goal(start: int, end: int, zone: Zone)

  /** Whether the transaction took effect, and whether the worker was told so. */
  datatype StoreResult = Stored | NotStored | StoredUnreported

  datatype Action =
    | Look(now: int, target: Option<int>)
    | Decide(blocked: bool, reported: bool)
    | Send(messageId: Option<int>, goOn: bool)
    | Store(result: StoreResult)
    | LookFinal(now: int, blocked: bool)
    | SendFinal(messageId: Option<int>)
    | StoreFinal(applied: bool)
    | Respond(week: int, at: int)
    | CompleteFinal
    | Crash

  ghost predicate NoneOpen(s: State) {
    forall w <- s.reviews :: !OpenReview(s.reviews[w])
  }

  /** ORDER BY requested_at LIMIT 1 over the open reviews. */
  ghost predicate FirstOpen(s: State, week: int) {
    && week in s.reviews && OpenReview(s.reviews[week])
    && forall w <- s.reviews :: OpenReview(s.reviews[w]) ==> s.reviews[week].requestedAt <= s.reviews[w].requestedAt
  }

  ghost predicate Enabled(g: Goal, s: State, a: Action) {
    match a
    case Look(now, week) =>
      s.pc.Idle? && now >= s.clock && (if week.Some? then FirstOpen(s, week.value) else NoneOpen(s))
    case Decide(_, _) => s.pc.Deciding?
    case Send(_, _) => s.pc.Prompting?
    case Store(_) => s.pc.Storing?
    case LookFinal(now, _) => s.pc.Idle? && now >= s.clock
    case SendFinal(_) => s.pc.Closing?
    case StoreFinal(_) => s.pc.StoringFinal?
    case Respond(week, _) => week in s.reviews
    case CompleteFinal => s.final.Some?
    case Crash => true
  }

  function Walked(s: State, now: int): State {
    s.(pc := Idle, walked := Some(now))
  }

  /** SetGoalWeeklyReviewPrompt and SetGoalWeeklyReviewReminderPrompt with their WHERE clauses. */
  function Prompted(r: Review, reminder: bool, messageId: int, now: int): Review {
    if !OpenReview(r) then r
    else if reminder then
      if r.reminderSentAt.Some? then r
      else r.(promptId := Some(messageId), reminderSentAt := Some(now), prompts := r.prompts + [Reminder(now)])
    else
      if r.promptId.Some? then r
      else r.(promptId := Some(messageId), requestedAt := now, prompts := r.prompts + [Initial(now)])
  }

  /**
   One goal set of DispatchWeeklyReviews; `blocked` stands for a foreign pending input or a closed retry gate, and
   a skip that is not reported ends the walk with an error although it took effect.
  */
  ghost function AfterDecide(g: Goal, s: State, blocked: bool, reported: bool): State
    requires s.pc.Deciding?
  {
    var now := s.pc.now;
    match s.pc.target
    case Some(week) =>
      if s.pc.seen.None? || week !in s.reviews then Walked(s, now) else
      var seen := s.pc.seen.value;
      var action := NextAction(seen, now);
      if seen.promptId.None? && seen.reminderSentAt.None? && action != Skip then
        if blocked then Walked(s, now) else s.(pc := Prompting(now, week, false))
      else if action == Remind then
        if blocked then Walked(s, now) else s.(pc := Prompting(now, week, true))
      else if action == Skip && OpenReview(s.reviews[week]) then
        var s' := s.(reviews := s.reviews[week := s.reviews[week].(skippedAt := Some(now))]);
        if reported then Walked(s', now) else s'.(pc := Idle)
      else Walked(s, now)
    case None =>
      if !BeforeLocalDate(g.zone.day(now), g.end) then Walked(s, now)
      else
        match WeeklyReviewDue(g.start, g.zone.day(now), g.zone.hour(now))
        case None => Walked(s, now)
        case Some(week) =>
          if blocked then Walked(s, now)
          else if week !in s.reviews then
            s.(reviews := s.reviews[week := Review(None, now, None, None, None, [])], pc := Prompting(now, week, false))
          else Walked(s, now)
  }

  ghost function Next(g: Goal, s: State, a: Action): State
    requires Enabled(g, s, a)
  {
    match a
    case Look(now, week) =>
      s.(pc := Deciding(now, week, if week.Some? then Some(s.reviews[week.value]) else None), clock := now)
    case Decide(blocked, reported) => AfterDecide(g, s, blocked, reported)
    case Send(messageId, goOn) =>
      var s' := s.(sent := s.sent + [WeeklySent(s.pc.week, s.pc.reminder, s.pc.now)]);
      if messageId.Some? then s'.(pc := Storing(s.pc.now, s.pc.week, s.pc.reminder, messageId.value))
      else if goOn then Walked(s', s.pc.now)
      else s'.(pc := Idle)
    case Store(result) =>
      if result.NotStored? || s.pc.week !in s.reviews then s.(pc := Idle)
      else
        var row := Prompted(s.reviews[s.pc.week], s.pc.reminder, s.pc.messageId, s.pc.now);
        var s' := s.(reviews := s.reviews[s.pc.week := row]);
        if result.Stored? then Walked(s', s.pc.now) else s'.(pc := Idle)
    case LookFinal(now, blocked) =>
      if FinalReviewDue(g.end, g.zone.day(now)) && NoneOpen(s) && !blocked
         && (s.final.Some? ==> s.final.value.promptId.None? && !s.final.value.completed)
      then s.(pc := Closing(now), clock := now, final := Some(s.final.GetOr(Final(None, false))))
      else s.(clock := now)
    case SendFinal(messageId) =>
      var s' := s.(sent := s.sent + [FinalSent(s.pc.now)]);
      if messageId.Some? then s'.(pc := StoringFinal(s.pc.now, messageId.value)) else s'.(pc := Idle)
    case StoreFinal(applied) =>
      if applied && s.final.Some? then s.(final := Some(s.final.value.(promptId := Some(s.pc.messageId))), pc := Idle)
      else s.(pc := Idle)
    case Respond(week, at) =>
      if s.reviews[week].skippedAt.None? then s.(reviews := s.reviews[week := s.reviews[week].(respondedAt := Some(at))]) else s
    case CompleteFinal => s.(final := Some(s.final.value.(completed := true)))
    case Crash => s.(pc := Idle)
  }

  // ----- Invariant -----

  /** One review row: what was persisted, in which order, and how far apart. */
  predicate RowOk(r: Review, clock: int) {
    && (r.respondedAt.None? || r.skippedAt.None?)
    && (r.promptId.None? <==> r.prompts == [])
    && (match r.reminderSentAt
        case None => r.prompts == [] || r.prompts == [Initial(r.requestedAt)]
        case Some(at) => r.prompts == [Initial(r.requestedAt), Reminder(at)] && at >= r.requestedAt + REMINDER_DELAY && at <= clock)
    && (r.skippedAt.Some? ==> r.skippedAt.value >= r.requestedAt + SKIP_AFTER)
    && r.requestedAt <= clock
  }

  /** While the worker is at work on a review, only the participant's answer can change its row. */
  predicate AgreesWithSeen(r: Review, seen: Review) {
    seen.(respondedAt := r.respondedAt) == r && OpenReview(seen)
  }

  ghost predicate OthersClosed(s: State, week: int) {
    forall w <- s.reviews :: w != week ==> !OpenReview(s.reviews[w])
  }

  ghost predicate PcOk(g: Goal, s: State) {
    match s.pc
    case Idle => exists week :: OthersClosed(s, week)
    case Deciding(now, target, seen) =>
      && now == s.clock
      && (match target
          case None => NoneOpen(s)
          case Some(week) =>
            week in s.reviews && seen.Some? && AgreesWithSeen(s.reviews[week], seen.value) && OthersClosed(s, week))
    case Prompting(now, week, reminder) => now == s.clock && BeingPrompted(s, week, reminder)
    case Storing(now, week, reminder, _) => now == s.clock && BeingPrompted(s, week, reminder)
    case Closing(now) => now == s.clock && NoneOpen(s) && FinalReviewDue(g.end, g.zone.day(now))
    case StoringFinal(now, _) => NoneOpen(s)
  }

  ghost predicate BeingPrompted(s: State, week: int, reminder: bool) {
    && week in s.reviews && OthersClosed(s, week)
    && s.reviews[week].skippedAt.None? && s.reviews[week].reminderSentAt.None?
    && (reminder <==> s.reviews[week].promptId.Some?)
    && (reminder ==> s.clock >= s.reviews[week].requestedAt + REMINDER_DELAY)
    && s.clock < s.reviews[week].requestedAt + SKIP_AFTER
  }

  predicate FinalSeen(s: State) {
    exists e <- s.sent :: e.FinalSent?
  }

  /** After a final prompt no review is open, none will be opened, and no weekly prompt is under way. */
  ghost predicate FinalOk(g: Goal, s: State) {
    FinalSeen(s) ==>
      && NoneOpen(s) && FinalReviewDue(g.end, g.zone.day(s.clock))
      && !s.pc.Prompting? && !s.pc.Storing? && (s.pc.Deciding? ==> s.pc.target.None?)
  }

  /** The latest completed walk found every open review short of its skip time. */
  ghost predicate WalkOk(s: State) {
    s.walked.Some? ==>
      && s.walked.value <= s.clock
      && forall w <- s.reviews :: OpenReview(s.reviews[w]) ==> s.walked.value < s.reviews[w].requestedAt + SKIP_AFTER
  }

  /** Weekly prompts come first, final prompts after them. */
  predicate WeeklyBeforeFinal(sent: seq<Sent>) {
    forall i, j :: 0 <= i < j < |sent| && sent[i].FinalSent? ==> sent[j].FinalSent?
  }

  ghost predicate Inv(g: Goal, s: State) {
    && (forall w <- s.reviews :: RowOk(s.reviews[w], s.clock))
    && PcOk(g, s) && FinalOk(g, s) && WalkOk(s) && WeeklyBeforeFinal(s.sent)
  }

  ghost predicate Start(s: State) {
    s.reviews == map[] && s.final.None? && s.pc.Idle? && s.walked.None? && s.sent == []
  }

  lemma StartIsOk(g: Goal, s: State)
    requires Start(s)
    ensures Inv(g, s)
  {
    assert OthersClosed(s, 0);
  }

  lemma SkipKeepsInv(g: Goal, s: State, a: Action)
    requires Inv(g, s) && a.Decide? && Enabled(g, s, a) && s.pc.target.Some?
    requires NextAction(s.pc.seen.value, s.pc.now).Skip?
    ensures Inv(g, Next(g, s, a))
  {
    assert OthersClosed(Next(g, s, a), s.pc.target.value);
  }

  lemma AdvanceKeepsInv(g: Goal, s: State, a: Action)
    requires Inv(g, s) && a.Decide? && Enabled(g, s, a) && s.pc.target.Some?
    requires !NextAction(s.pc.seen.value, s.pc.now).Skip?
    ensures Inv(g, Next(g, s, a))
  {
    assert Next(g, s, a).reviews == s.reviews;
    assert OthersClosed(Next(g, s, a), s.pc.target.value);
  }

  lemma CreateKeepsInv(g: Goal, s: State, a: Action)
    requires Inv(g, s) && a.Decide? && Enabled(g, s, a) && s.pc.target.None?
    ensures Inv(g, Next(g, s, a))
  {
    var s' := Next(g, s, a);
    assert OthersClosed(s', if s'.pc.Prompting? then s'.pc.week else 0);
  }

  lemma SendKeepsInv(g: Goal, s: State, a: Action)
    requires Inv(g, s) && a.Send? && Enabled(g, s, a)
    ensures Inv(g, Next(g, s, a))
  {
    var s' := Next(g, s, a);
    assert OthersClosed(s', s.pc.week);
    assert !FinalSeen(s);
  }

  lemma PromptedIsOk(r: Review, reminder: bool, messageId: int, now: int)
    requires RowOk(r, now) && r.skippedAt.None? && r.reminderSentAt.None? && (reminder <==> r.promptId.Some?)
    requires reminder ==> now >= r.requestedAt + REMINDER_DELAY
    requires now < r.requestedAt + SKIP_AFTER
    ensures var r' := Prompted(r, reminder, messageId, now);
      RowOk(r', now) && now < r'.requestedAt + SKIP_AFTER && (OpenReview(r') ==> OpenReview(r))
  {
  }

  lemma StoreKeepsInv(g: Goal, s: State, a: Action)
    requires Inv(g, s) && a.Store? && Enabled(g, s, a)
    ensures Inv(g, Next(g, s, a))
  {
    PromptedIsOk(s.reviews[s.pc.week], s.pc.reminder, s.pc.messageId, s.clock);
    assert OthersClosed(Next(g, s, a), s.pc.week);
    assert !FinalSeen(s);
  }

  lemma FinalKeepsInv(g: Goal, s: State, a: Action)
    requires Inv(g, s) && Monotone(g.zone) && (a.LookFinal? || a.SendFinal? || a.StoreFinal?) && Enabled(g, s, a)
    ensures Inv(g, Next(g, s, a))
  {
    if a.LookFinal? {
      assert g.zone.day(s.clock) <= g.zone.day(a.now);
      var week :| OthersClosed(s, week);
      assert OthersClosed(Next(g, s, a), week);
    } else {
      assert OthersClosed(Next(g, s, a), 0);
    }
  }

  lemma OutsideKeepsInv(g: Goal, s: State, a: Action)
    requires Inv(g, s) && (a.CompleteFinal? || a.Crash?) && Enabled(g, s, a)
    ensures Inv(g, Next(g, s, a))
  {
    StillClosed(g, s, Next(g, s, a));
  }

  /** Whichever review the worker is at, the others are closed; reviews only ever close by outside steps. */
  lemma StillClosed(g: Goal, s: State, s': State)
    requires Inv(g, s) && s'.reviews.Keys == s.reviews.Keys
    requires forall w <- s.reviews :: OpenReview(s'.reviews[w]) ==> OpenReview(s.reviews[w])
    ensures exists week :: OthersClosed(s', week)
    ensures s.pc.Deciding? ==> OthersClosed(s', s.pc.target.GetOr(0))
    ensures s.pc.Prompting? || s.pc.Storing? ==> OthersClosed(s', s.pc.week)
  {
    match s.pc
    case Idle =>
      var week :| OthersClosed(s, week);
      assert OthersClosed(s', week);
    case Deciding(_, target, _) => assert OthersClosed(s', target.GetOr(0));
    case Prompting(_, week, _) => assert OthersClosed(s', week);
    case Storing(_, week, _, _) => assert OthersClosed(s', week);
    case Closing(_) => assert OthersClosed(s', 0);
    case StoringFinal(_, _) => assert OthersClosed(s', 0);
  }

  lemma RespondKeepsInv(g: Goal, s: State, a: Action)
    requires Inv(g, s) && a.Respond? && Enabled(g, s, a)
    ensures Inv(g, Next(g, s, a))
  {
    StillClosed(g, s, Next(g, s, a));
  }

  lemma StepKeepsInv(g: Goal, s: State, a: Action)
    requires Inv(g, s) && Monotone(g.zone) && Enabled(g, s, a)
    ensures Inv(g, Next(g, s, a))
  {
    if a.Decide? {
      if s.pc.target.None? {
        CreateKeepsInv(g, s, a);
      } else if NextAction(s.pc.seen.value, s.pc.now).Skip? {
        SkipKeepsInv(g, s, a);
      } else {
        AdvanceKeepsInv(g, s, a);
      }
    } else if a.Send? {
      SendKeepsInv(g, s, a);
    } else if a.Store? {
      StoreKeepsInv(g, s, a);
    } else if a.LookFinal? || a.SendFinal? || a.StoreFinal? {
      FinalKeepsInv(g, s, a);
    } else if a.Respond? {
      RespondKeepsInv(g, s, a);
    } else if a.CompleteFinal? || a.Crash? {
      OutsideKeepsInv(g, s, a);
    }
  }

  // ----- Runs -----

  ghost predicate Trace(g: Goal, states: seq<State>, actions: seq<Action>) {
    && |states| == |actions| + 1
    && forall i :: 0 <= i < |actions| ==> Enabled(g, states[i], actions[i]) && states[i + 1] == Next(g, states[i], actions[i])
  }

  lemma {:induction false} TraceKeepsInv(g: Goal, states: seq<State>, actions: seq<Action>, i: nat)
    requires Monotone(g.zone) && Trace(g, states, actions) && Start(states[0]) && i <= |actions|
    ensures Inv(g, states[i])
  {
    if i == 0 {
      StartIsOk(g, states[0]);
    } else {
      TraceKeepsInv(g, states, actions, i - 1);
      StepKeepsInv(g, states[i - 1], actions[i - 1]);
    }
  }

  /** At every moment at most one weekly review of a goal set is open. */
  lemma AtMostOneOpen(g: Goal, states: seq<State>, actions: seq<Action>, i: nat, v: int, w: int)
    requires Monotone(g.zone) && Trace(g, states, actions) && Start(states[0]) && i <= |actions|
    requires v in states[i].reviews && w in states[i].reviews
    requires OpenReview(states[i].reviews[v]) && OpenReview(states[i].reviews[w])
    ensures v == w
  {
    TraceKeepsInv(g, states, actions, i);
  }

  /** The final prompt is sent only when no weekly review is open and the period has ended on the local calendar. */
  lemma FinalWaitsForWeekly(g: Goal, states: seq<State>, actions: seq<Action>, i: nat)
    requires Monotone(g.zone) && Trace(g, states, actions) && Start(states[0]) && i < |actions|
    requires actions[i].SendFinal?
    ensures NoneOpen(states[i]) && !BeforeLocalDate(g.zone.day(states[i].pc.now), g.end)
  {
    TraceKeepsInv(g, states, actions, i);
  }

  /** Once a final prompt has been sent, no weekly prompt is sent any more. */
  lemma NoWeeklyPromptAfterFinal(g: Goal, states: seq<State>, actions: seq<Action>)
    requires Monotone(g.zone) && Trace(g, states, actions) && Start(states[0])
    ensures WeeklyBeforeFinal(states[|actions|].sent)
  {
    TraceKeepsInv(g, states, actions, |actions|);
  }

  /**
   The life of one review: one initial and then at most one reminder is persisted, 24 hours apart or more; the
   skip comes at least 71 hours after the first delivery; an answered review is never skipped, nor the reverse.
  */
  lemma ReviewLife(g: Goal, states: seq<State>, actions: seq<Action>, i: nat, week: int)
    requires Monotone(g.zone) && Trace(g, states, actions) && Start(states[0]) && i <= |actions|
    requires week in states[i].reviews
    ensures var r := states[i].reviews[week];
      && |r.prompts| <= 2
      && (|r.prompts| >= 1 ==> r.prompts[0] == Initial(r.requestedAt))
      && (|r.prompts| == 2 ==> r.prompts[1].Reminder? && r.prompts[1].at >= r.prompts[0].at + 24 * HOUR)
      && (r.skippedAt.Some? && r.prompts != [] ==> r.skippedAt.value >= r.prompts[0].at + 71 * HOUR)
      && (r.respondedAt.None? || r.skippedAt.None?)
  {
    TraceKeepsInv(g, states, actions, i);
  }

  // ----- Which weeks are reviewed -----

  /** An instant at which the review of a week may be opened: after 20:00 on a review Sunday of the period. */
  ghost predicate OpensWeek(g: Goal, now: int, week: int) {
    && ReviewDay(g.start, g.zone.day(now)) && g.zone.hour(now) >= 20
    && g.zone.day(now) < g.end && week == g.zone.day(now) - 6
  }

  lemma StepOpensWeek(g: Goal, s: State, a: Action, week: int)
    requires Inv(g, s) && Enabled(g, s, a)
    ensures week in Next(g, s, a).reviews && week !in s.reviews ==> s.pc.Deciding? && OpensWeek(g, s.pc.now, week)
  {
  }

  /** A review comes into being only on a review Sunday of the period after 20:00, for the week that ends that day. */
  lemma ReviewsOpenOnReviewDays(g: Goal, states: seq<State>, actions: seq<Action>, i: nat, week: int)
    requires Monotone(g.zone) && Trace(g, states, actions) && Start(states[0]) && i < |actions|
    requires week !in states[i].reviews && week in states[i + 1].reviews
    ensures states[i].pc.Deciding? && OpensWeek(g, states[i].pc.now, week)
  {
    TraceKeepsInv(g, states, actions, i);
    StepOpensWeek(g, states[i], actions[i], week);
  }

  /** And it does come into being there, unless something blocks it or another review is open. */
  lemma ReviewDayOpensReview(g: Goal, s: State, reported: bool, week: int)
    requires Inv(g, s) && s.pc.Deciding? && s.pc.target.None? && OpensWeek(g, s.pc.now, week) && week !in s.reviews
    ensures var t := Next(g, s, Decide(false, reported));
      && t.reviews == s.reviews[week := Review(None, s.pc.now, None, None, None, [])]
      && t.pc == Prompting(s.pc.now, week, false)
  {
  }

  /** The weeks that end on a review Sunday of the period. */
  ghost function ReviewWeeks(g: Goal): set<int> {
    WeeksOf(ReviewDays(g.start, g.start, g.end))
  }

  lemma OpenedWeekIsReviewWeek(g: Goal, now: int, week: int)
    requires OpensWeek(g, now, week)
    ensures week in ReviewWeeks(g)
  {
    ReviewsAreFortnightly(g.start, g.zone.day(now));
    assert g.zone.day(now) in ReviewDays(g.start, g.start, g.end);
  }

  lemma WeeksAreReviewWeeks(g: Goal, states: seq<State>, actions: seq<Action>, i: nat)
    requires Monotone(g.zone) && Trace(g, states, actions) && Start(states[0]) && i <= |actions|
    ensures states[i].reviews.Keys <= ReviewWeeks(g)
  {
    for n := 0 to i
      invariant states[n].reviews.Keys <= ReviewWeeks(g)
    {
      forall week <- states[n + 1].reviews.Keys ensures week in ReviewWeeks(g) {
        if week !in states[n].reviews {
          ReviewsOpenOnReviewDays(g, states, actions, n, week);
          OpenedWeekIsReviewWeek(g, states[n].pc.now, week);
        }
      }
    }
  }

  lemma Member<T>(s: set<T>) returns (x: T)
    requires s != {}
    ensures x in s
  {
    x :| x in s;
  }

  lemma SubsetIsSmaller(a: set<int>, b: set<int>)
    requires a <= b
    ensures |a| <= |b|
  {
    assert b == a + (b - a);
  }

  function WeeksOf(days: set<int>): set<int> {
    set day | day in days :: day - 6
  }

  lemma {:induction false} WeeksOfCount(days: set<int>)
    ensures |WeeksOf(days)| == |days|
  {
    if days != {} {
      var x := Member(days);
      WeeksOfCount(days - {x});
      forall week ensures week in WeeksOf(days) <==> week in WeeksOf(days - {x}) || week == x - 6 {
        assert week in WeeksOf(days) <==> week + 6 in days;
        assert week in WeeksOf(days - {x}) <==> week + 6 in days - {x};
      }
      assert WeeksOf(days) == WeeksOf(days - {x}) + {x - 6};
    } else {
      assert WeeksOf(days) == {};
    }
  }

  /** A season has at most six weekly reviews, each for the week before one of its six review Sundays. */
  lemma AtMostSixReviews(g: Goal, today: Date, states: seq<State>, actions: seq<Action>, i: nat)
    requires Monotone(g.zone) && Trace(g, states, actions) && Start(states[0]) && i <= |actions|
    requires Valid(today)
    requires var p := CurrentGoalPeriod(today); g.start == Number(p.startsOn) && g.end == Number(p.endsOn)
    ensures |states[i].reviews.Keys| <= 6
    ensures forall week <- states[i].reviews.Keys :: week + 6 in ReviewDays(g.start, g.start, g.end)
  {
    WeeksAreReviewWeeks(g, states, actions, i);
    SixReviewsPerSeason(today);
    WeeksOfCount(ReviewDays(g.start, g.start, g.end));
    SubsetIsSmaller(states[i].reviews.Keys, ReviewWeeks(g));
  }

  // ----- What a tick does with an open review, and when the final review starts -----

  /**
   By the clock: an open review without a prompt is prompted until 71 hours after its request; a prompted one gets
   its one reminder from 24 hours on; after 71 hours either is skipped. Otherwise nothing happens.
  */
  lemma OpenReviewFollowsTheClock(g: Goal, s: State)
    requires Inv(g, s) && s.pc.Deciding? && s.pc.target.Some?
    ensures var week, now, t := s.pc.target.value, s.pc.now, Next(g, s, Decide(false, true));
      && week in s.reviews && s.pc.seen.Some?
      && var seen, elapsed := s.pc.seen.value, now - s.pc.seen.value.requestedAt;
      && (t.pc == Prompting(now, week, false) <==> seen.promptId.None? && elapsed < 71 * 3600)
      && (t.pc == Prompting(now, week, true) <==>
            seen.promptId.Some? && seen.reminderSentAt.None? && 24 * 3600 <= elapsed < 71 * 3600)
      && t.reviews == (if OpenReview(s.reviews[week]) && elapsed >= 71 * 3600
                       then s.reviews[week := s.reviews[week].(skippedAt := Some(now))] else s.reviews)
      && (t.pc.Prompting? || t.pc.Idle?)
  {
  }

  /** The final review is prompted exactly when the period is over, no review is open and none was prompted before. */
  lemma FinalStartsWhenDue(g: Goal, s: State, now: int)
    requires Inv(g, s) && Enabled(g, s, LookFinal(now, false))
    ensures var t := Next(g, s, LookFinal(now, false));
      && (t.pc == Closing(now) <==>
            && g.zone.day(now) >= g.end && NoneOpen(s)
            && (s.final.Some? ==> s.final.value.promptId.None? && !s.final.value.completed))
      && (t.pc == Closing(now) || t == s.(clock := now))
  {
  }

  /** A stored prompt is the message that was sent: its id, and the instant that starts or reminds. */
  lemma StoredPromptIsTheMessage(g: Goal, s: State, result: StoreResult)
    requires Inv(g, s) && s.pc.Storing? && !result.NotStored?
    ensures var week, t := s.pc.week, Next(g, s, Store(result));
      && week in s.reviews && week in t.reviews
      && (s.reviews[week].respondedAt.None? ==>
            && t.reviews[week].promptId == Some(s.pc.messageId)
            && (if s.pc.reminder then t.reviews[week].reminderSentAt == Some(s.pc.now)
                else t.reviews[week].requestedAt == s.pc.now))
      && (s.reviews[week].respondedAt.Some? ==> t.reviews == s.reviews)
  {
  }

  /** Nothing persisted about a review is taken back: prompts accumulate, the first delivery stays, a skip stays. */
  predicate ReviewEvolves(r: Review, r': Review) {
    && r.prompts <= r'.prompts
    && (r.prompts != [] ==> r'.requestedAt == r.requestedAt)
    && (r.skippedAt.Some? ==> r' == r)
    && (r.respondedAt.Some? ==> r'.respondedAt.Some? && r'.prompts == r.prompts)
  }

  lemma StoreEvolvesReview(g: Goal, s: State, a: Action, week: int)
    requires Inv(g, s) && Enabled(g, s, a) && a.Store? && week in s.reviews
    ensures week in Next(g, s, a).reviews && ReviewEvolves(s.reviews[week], Next(g, s, a).reviews[week])
  {
  }

  lemma StepEvolvesReview(g: Goal, s: State, a: Action, week: int)
    requires Inv(g, s) && Enabled(g, s, a) && week in s.reviews
    ensures week in Next(g, s, a).reviews && ReviewEvolves(s.reviews[week], Next(g, s, a).reviews[week])
  {
    if a.Store? {
      StoreEvolvesReview(g, s, a, week);
    }
  }

  lemma {:induction false} ReviewsEvolve(g: Goal, states: seq<State>, actions: seq<Action>, i: nat, j: nat, week: int)
    requires Monotone(g.zone) && Trace(g, states, actions) && Start(states[0]) && i <= j <= |actions|
    requires week in states[i].reviews
    ensures week in states[j].reviews && ReviewEvolves(states[i].reviews[week], states[j].reviews[week])
  {
    if i < j {
      ReviewsEvolve(g, states, actions, i, j - 1, week);
      TraceKeepsInv(g, states, actions, j - 1);
      StepEvolvesReview(g, states[j - 1], actions[j - 1], week);
    }
  }

  /**
   When ticks come less than an hour after the last completed walk, a reminded review that is skipped still has
   its message inside Telegram's deletion window; a review that never got its reminder is always past it.
  */
  lemma SkipMeetsDeleteWindow(g: Goal, states: seq<State>, actions: seq<Action>, i: nat)
    requires Monotone(g.zone) && Trace(g, states, actions) && Start(states[0]) && i < |actions|
    requires actions[i].Decide? && states[i].pc.target.Some? && states[i].pc.seen.Some?
    requires NextAction(states[i].pc.seen.value, states[i].pc.now) == Skip
    requires states[i].walked.Some? && states[i].pc.now < states[i].walked.value + HOUR
    requires states[i].pc.target.value in states[i].reviews && OpenReview(states[i].reviews[states[i].pc.target.value])
    ensures forall sentAt: int, now: int :: DeleteAllowed(sentAt, now) <==> 0 <= now - sentAt < 48 * 3600
    ensures var seen := states[i].pc.seen.value;
            && (DeleteAllowed(ClosedPromptSentAt(seen), states[i].pc.now) <==> seen.reminderSentAt.Some?)
            && (seen.reminderSentAt.Some? <==> 0 <= states[i].pc.now - ClosedPromptSentAt(seen) < 48 * 3600)
  {
    TraceKeepsInv(g, states, actions, i);
  }

  // ----- The dispatchers, statement by statement -----

  class GoalSet {
    const goal: Goal
    var reviews: map<int, Review>
    var final: Option<Final>
    ghost var state: State
    ghost var states: seq<State>
    ghost var actions: seq<Action>

    constructor (goal: Goal, ghost clock: int)
      requires Monotone(goal.zone)
      ensures Tracks() && Start(state) && state.clock == clock && this.goal == goal
    {
      this.goal := goal;
      reviews, final := map[], None;
      var s := State(map[], None, Idle, clock, None, []);
      state, states, actions := s, [s], [];
      new;
      StartIsOk(goal, s);
    }

    ghost predicate Tracks()
      reads this
    {
      && Monotone(goal.zone)
      && Trace(goal, states, actions) && Start(states[0]) && states[|actions|] == state
      && state.reviews == reviews && state.final == final
      && Inv(goal, state)
    }

    ghost method Perform(a: Action)
      requires Monotone(goal.zone) && Trace(goal, states, actions) && Start(states[0]) && states[|actions|] == state
      requires Inv(goal, state) && Enabled(goal, state, a)
      modifies `state, `states, `actions
      ensures Trace(goal, states, actions) && states[0] == old(states[0]) && states[|actions|] == state
      ensures state == Next(goal, old(state), a) && Inv(goal, state)
      ensures old(states) <= states
    {
      StepKeepsInv(goal, state, a);
      state := Next(goal, state, a);
      states, actions := states + [state], actions + [a];
    }

    /** The participant may answer any review between two statements of the worker. */
    method Participant()
      requires Tracks()
      modifies this
      ensures Tracks() && old(states) <= states
      ensures state.pc == old(state.pc) && state.clock == old(state.clock) && state.sent == old(state.sent)
      ensures state.walked == old(state.walked)
      ensures final == old(final) && reviews.Keys == old(reviews.Keys)
    {
      var answers: bool := *;
      var at: int := *;
      var weeks: set<int> := reviews.Keys;
      if answers && weeks != {} {
        var week := Pick(weeks);
        if reviews[week].skippedAt.None? {
          reviews := reviews[week := reviews[week].(respondedAt := Some(at))];
        }
        Perform(Respond(week, at));
      }
    }

    /**
     One goal set of the weekly stage. A review is opened exactly when none is open, nothing blocks it, and the
     instant is after 20:00 on a review Sunday of the period; it is the review of the week that ends that day.
    */
    method DispatchWeeklyReview(now: int) returns (ok: bool, ghost blocked: bool)
      requires Tracks() && state.pc.Idle? && now >= state.clock
      modifies this
      ensures Tracks() && old(states) <= states && state.pc.Idle? && state.clock == now
      ensures ok ==> state.walked == Some(now)
      ensures !ok ==> state.walked == old(state).walked
      ensures old(reviews.Keys) <= reviews.Keys
      ensures forall week :: week !in old(reviews) ==>
        (week in reviews <==> OpensWeek(goal, now, week) && !blocked && NoneOpen(old(state)))
    {
      var open: set<int> := set w | w in reviews && OpenReview(reviews[w]);
      if open != {} {
        var week := Pick(open);
        var seen := reviews[week];
        Perform(Look(now, Some(week)));
        Participant();
        ok, blocked := AdvanceWeeklyReview(week, seen, now);
        assert !NoneOpen(old(state));
      } else {
        assert forall w <- reviews :: w !in open;
        Perform(Look(now, None));
        Participant();
        ok, blocked := CreateWeeklyReview(now);
      }
    }

    /** By the clock: prompt until 71 hours after the request, remind once from 24 hours on, skip after 71 hours. */
    method AdvanceWeeklyReview(week: int, seen: Review, now: int) returns (ok: bool, ghost blocked: bool)
      requires Tracks() && state.pc == Deciding(now, Some(week), Some(seen))
      modifies this
      ensures Tracks() && old(states) <= states && state.pc.Idle? && state.clock == now
      ensures ok ==> state.walked == Some(now)
      ensures !ok ==> state.walked == old(state).walked
      ensures reviews.Keys == old(reviews.Keys) && week in reviews
      ensures var elapsed := now - seen.requestedAt;
        state.sent == old(state.sent) + (
          if blocked then []
          else if seen.promptId.None? && elapsed < 71 * 3600 then [WeeklySent(week, false, now)]
          else if seen.promptId.Some? && seen.reminderSentAt.None? && 24 * 3600 <= elapsed < 71 * 3600
          then [WeeklySent(week, true, now)] else [])
      ensures now - seen.requestedAt >= 71 * 3600 ==>
        reviews == if OpenReview(old(reviews)[week]) then old(reviews)[week := old(reviews)[week].(skippedAt := Some(now))]
                   else old(reviews)
    {
      var action := NextAction(seen, now);
      blocked := false;
      if seen.promptId.None? && seen.reminderSentAt.None? && action != Skip {
        ok, blocked := PromptUnlessBlocked(week, now, false);
        return;
      }
      match action {
        case Remind =>
          ok, blocked := PromptUnlessBlocked(week, now, true);
        case Skip =>
          if OpenReview(reviews[week]) {
            reviews := reviews[week := reviews[week].(skippedAt := Some(now))];
            ok := *;
          } else {
            ok := true;
          }
          Perform(Decide(false, ok));
        case NoAction =>
          Perform(Decide(false, true));
          ok := true;
      }
    }

    /** A pending input of the participant or a closed retry gate postpones the prompt. */
    method PromptUnlessBlocked(week: int, now: int, reminder: bool) returns (ok: bool, ghost blocked: bool)
      requires Tracks() && state.pc.Deciding? && state.pc.now == now
      requires Next(goal, state, Decide(false, true)) == state.(pc := Prompting(now, week, reminder))
      requires Next(goal, state, Decide(true, true)) == Walked(state, now)
      modifies this
      ensures Tracks() && old(states) <= states && state.pc.Idle? && state.clock == now
      ensures ok ==> state.walked == Some(now)
      ensures !ok ==> state.walked == old(state).walked
      ensures reviews.Keys == old(reviews.Keys)
      ensures state.sent == old(state.sent) + if blocked then [] else [WeeklySent(week, reminder, now)]
    {
      var pendingInput: bool := *;
      blocked := pendingInput;
      Perform(Decide(pendingInput, true));
      if pendingInput {
        return true, true;
      }
      ok := DeliverPrompt(week, now, reminder);
    }

    method CreateWeeklyReview(now: int) returns (ok: bool, ghost blocked: bool)
      requires Tracks() && state.pc.Deciding? && state.pc.now == now && state.pc.target.None?
      modifies this
      ensures Tracks() && old(states) <= states && state.pc.Idle? && state.clock == now
      ensures ok ==> state.walked == Some(now)
      ensures !ok ==> state.walked == old(state).walked
      ensures old(reviews.Keys) <= reviews.Keys
      ensures forall week :: week !in old(reviews) ==> (week in reviews <==> OpensWeek(goal, now, week) && !blocked)
    {
      var due := WeeklyReviewDue(goal.start, goal.zone.day(now), goal.zone.hour(now));
      var pendingInput: bool := *;
      blocked := pendingInput;
      if !BeforeLocalDate(goal.zone.day(now), goal.end) || due.None? || pendingInput || due.value in reviews {
        Perform(Decide(pendingInput, true));
        return true, pendingInput;
      }
      reviews := reviews[due.value := Review(None, now, None, None, None, [])];
      Perform(Decide(false, true));
      ok := DeliverPrompt(due.value, now, false);
    }

    /** Send, then persist under the guard of the row; a message that could not be persisted is deleted again. */
    method DeliverPrompt(week: int, now: int, reminder: bool) returns (ok: bool)
      requires Tracks() && state.pc == Prompting(now, week, reminder)
      modifies this
      ensures Tracks() && old(states) <= states && state.pc.Idle? && state.clock == now
      ensures ok ==> state.walked == Some(now)
      ensures !ok ==> state.walked == old(state).walked
      ensures state.sent == old(state.sent) + [WeeklySent(week, reminder, now)]
      ensures reviews.Keys == old(reviews.Keys)
    {
      var messageId: Option<int> := Any();
      var deferred: bool := *;
      Perform(Send(messageId, deferred));
      if messageId.None? {
        return deferred;
      }
      Participant();
      ok := StorePrompt(week, now, reminder, messageId.value);
    }

    /** The transaction of the prompt; an error may be reported although it was committed. */
    method StorePrompt(week: int, now: int, reminder: bool, messageId: int) returns (ok: bool)
      requires Tracks() && state.pc == Storing(now, week, reminder, messageId)
      modifies this
      ensures Tracks() && old(states) <= states && state.pc.Idle? && state.clock == now && state.sent == old(state.sent)
      ensures ok ==> state.walked == Some(now)
      ensures !ok ==> state.walked == old(state).walked
      ensures reviews.Keys == old(reviews.Keys)
      ensures reviews == old(reviews) ||
              reviews == old(reviews)[week := Prompted(old(reviews)[week], reminder, messageId, now)]
      ensures ok ==> reviews == old(reviews)[week := Prompted(old(reviews)[week], reminder, messageId, now)]
    {
      var result: StoreResult := *;
      if !result.NotStored? {
        reviews := reviews[week := Prompted(reviews[week], reminder, messageId, now)];
      }
      Perform(Store(result));
      ok := result.Stored?;
    }

    /** Sends exactly when the period is over, no review is open, nothing blocks it and none was prompted before. */
    method DispatchFinalReview(now: int) returns (ok: bool, ghost blocked: bool)
      requires Tracks() && state.pc.Idle? && now >= state.clock
      modifies this
      ensures Tracks() && old(states) <= states && state.pc.Idle? && state.clock == now
      ensures state.sent == old(state.sent) +
        if goal.zone.day(now) >= goal.end && NoneOpen(old(state)) && !blocked
           && (old(final).Some? ==> old(final).value.promptId.None? && !old(final).value.completed)
        then [FinalSent(now)] else []
    {
      var held: bool := *;
      blocked := held;
      var due := FinalReviewDue(goal.end, goal.zone.day(now));
      var noneOpen := forall w <- reviews :: !OpenReview(reviews[w]);
      var wanted := final.Some? ==> final.value.promptId.None? && !final.value.completed;
      if !due || !noneOpen || held || !wanted {
        Perform(LookFinal(now, held));
        return true, held;
      }
      final := Some(final.GetOr(Final(None, false)));
      Perform(LookFinal(now, false));
      ghost var messageId, result;
      ok, messageId, result := DeliverFinal(now);
    }

    method DeliverFinal(now: int) returns (ok: bool, ghost messageId: Option<int>, ghost result: StoreResult)
      requires Tracks() && state.pc == Closing(now) && final.Some?
      modifies this
      ensures Tracks() && old(states) <= states && state.pc.Idle? && state.clock == now
      ensures state.sent == old(state.sent) + [FinalSent(now)]
      ensures messageId.Some? ==> (ok <==> result.Stored?)
      ensures final == if messageId.Some? && !result.NotStored? then Some(old(final).value.(promptId := messageId)) else old(final)
    {
      var answer: Option<int> := Any();
      messageId, result := answer, NotStored;
      Perform(SendFinal(answer));
      if answer.None? {
        var deferred: bool := *;
        return deferred, answer, NotStored;
      }
      var stored: StoreResult := *;
      result := stored;
      if !stored.NotStored? {
        final := Some(final.value.(promptId := answer));
      }
      Perform(StoreFinal(!stored.NotStored?));
      ok := stored.Stored?;
    }
  }
}
