/**
 From at-least-once delivery of Telegram updates to exactly-once effects: the polling loop acknowledges a prefix of
 the update stream, a crash replays what was not acknowledged, and the final goal review absorbs the replays.
*/
module Updates {
  import opened Prelude
  import EntityRendering
  import MonthlyReports

  // ----- The final review of one goal set -----

  /** Text that survives trimming of blanks. */
  predicate Visible(s: string) {
    exists i :: 0 <= i < |s| && s[i] != ' '
  }

  type Html = s: string | Visible(s) witness (assert "x"[0] != ' '; "x")

  datatype Status = Done | Partial | Failed

  /** What an update does to the review: a status button, a non-blank message of the author, the finish button. */
  datatype Event = Choose(status: Status) | Part(message: int, html: Html) | Finish | Other

  /** `pending`: the author's next messages in the thread belong to this review. */
  datatype Review = Review(status: Option<Status>, summary: string, messages: seq<int>, completed: bool, pending: bool)

  const FRESH := Review(None, "", [], false, false)

  /** AppendGoalFinalReviewSummaryPart on an open review. */
  function AppendPart(r: Review, message: int, html: Html): Review {
    if message in r.messages then r
    else r.(summary := if r.summary == "" then html else r.summary + "\n\n" + html, messages := r.messages + [message])
  }

  predicate Collecting(r: Review) {
    r.pending && r.status.Some? && !r.completed
  }

  function Handle(r: Review, e: Event): Review {
    match e
    case Choose(status) => if r.pending || r.completed then r else r.(status := Some(status), pending := true)
    case Part(message, html) => if Collecting(r) then AppendPart(r, message, html) else r
    case Finish => if Collecting(r) && Visible(r.summary) then r.(completed := true, pending := false) else r
    case Other => r
  }

  /** The event of a message: a blank one is ignored, any other renders to visible text. */
  function MessageEvent(message: int, text: string, entities: seq<EntityRendering.Entity>): Event {
    if MonthlyReports.TrimSpace(text) == "" then Other
    else
      VisibleInput(text, entities);
      Part(message, EntityRendering.Written(EntityRendering.Tokens(text, EntityRendering.Spans(text, entities))))
  }

  lemma {:induction false} BlankReadsBlank(html: string)
    requires !Visible(html)
    ensures EntityRendering.Stripped(html, false) == html && EntityRendering.Unescape(html) == html
  {
    if html != "" {
      assert html[0] == ' ';
      forall i | 0 <= i < |html[1..]| ensures html[1..][i] == ' ' {
        assert html[i + 1] == ' ';
      }
      BlankReadsBlank(html[1..]);
      assert [html[0]] + html[1..] == html;
    }
  }

  lemma {:induction false} BlankTrims(s: string)
    requires !Visible(s)
    ensures MonthlyReports.TrimLeft(s) == ""
  {
    if s != "" {
      assert s[0] == ' ';
      forall i | 0 <= i < |s[1..]| ensures s[1..][i] == ' ' {
        assert s[i + 1] == ' ';
      }
      BlankTrims(s[1..]);
    }
  }

  lemma VisibleInput(text: string, entities: seq<EntityRendering.Entity>)
    requires MonthlyReports.TrimSpace(text) != ""
    ensures Visible(EntityRendering.Written(EntityRendering.Tokens(text, EntityRendering.Spans(text, entities))))
  {
    var html := EntityRendering.Written(EntityRendering.Tokens(text, EntityRendering.Spans(text, entities)));
    EntityRendering.RenderingPreservesText(text, entities);
    if !Visible(html) {
      BlankReadsBlank(html);
      BlankTrims(text);
    }
  }

  function JoinParts(parts: seq<string>): string {
    if parts == [] then ""
    else if |parts| == 1 then parts[0]
    else JoinParts(parts[..|parts| - 1]) + "\n\n" + parts[|parts| - 1]
  }

  function After(events: seq<Event>): Review {
    if events == [] then FRESH else Handle(After(events[..|events| - 1]), events[|events| - 1])
  }

  /** The parts accepted along a history, each message once, in order of acceptance. */
  function Accepted(events: seq<Event>): seq<(int, Html)> {
    if events == [] then []
    else
      var rest, last := Accepted(events[..|events| - 1]), events[|events| - 1];
      if last.Part? && Collecting(After(events[..|events| - 1])) && (forall p <- rest :: p.0 != last.message)
      then rest + [(last.message, last.html)] else rest
  }

  ghost function Messages(parts: seq<(int, Html)>): seq<int> {
    seq(|parts|, i requires 0 <= i < |parts| => parts[i].0)
  }

  ghost function Texts(parts: seq<(int, Html)>): seq<string> {
    seq(|parts|, i requires 0 <= i < |parts| => parts[i].1)
  }

  ghost predicate Distinct(parts: seq<(int, Html)>) {
    forall i, j :: 0 <= i < j < |parts| ==> parts[i].0 != parts[j].0
  }

  lemma JoinOneMore(parts: seq<(int, Html)>, message: int, html: Html)
    ensures JoinParts(Texts(parts + [(message, html)])) ==
            if parts == [] then html else JoinParts(Texts(parts)) + "\n\n" + html
    ensures Messages(parts + [(message, html)]) == Messages(parts) + [message]
  {
    var texts := Texts(parts + [(message, html)]);
    assert texts[..|texts| - 1] == Texts(parts);
  }

  lemma {:induction false} JoinIsEmpty(parts: seq<(int, Html)>)
    ensures JoinParts(Texts(parts)) == "" <==> parts == []
    ensures parts != [] ==> Visible(JoinParts(Texts(parts)))
  {
    if parts != [] {
      var n := |parts| - 1;
      assert parts == parts[..n] + [(parts[n].0, parts[n].1)];
      JoinOneMore(parts[..n], parts[n].0, parts[n].1);
      var html: string := parts[n].1;
      var i :| 0 <= i < |html| && html[i] != ' ';
      if n > 0 {
        var front := JoinParts(Texts(parts[..n])) + "\n\n";
        assert (front + html)[|front| + i] == html[i];
      }
    }
  }

  ghost predicate IsJoin(events: seq<Event>) {
    var r := After(events);
    && r.summary == JoinParts(Texts(Accepted(events)))
    && r.messages == Messages(Accepted(events))
    && Distinct(Accepted(events))
  }

  lemma KnownMessage(parts: seq<(int, Html)>, message: int)
    ensures message in Messages(parts) <==> exists p <- parts :: p.0 == message
  {
    var messages := Messages(parts);
    if message in messages {
      var i :| 0 <= i < |messages| && messages[i] == message;
      assert parts[i] in parts && parts[i].0 == message;
    }
    if p :| p in parts && p.0 == message {
      var i :| 0 <= i < |parts| && parts[i] == p;
      assert messages[i] == message;
    }
  }

  /** Appending a part to the review is appending it to the list of parts. */
  lemma AppendJoins(r: Review, parts: seq<(int, Html)>, message: int, html: Html)
    requires r.summary == JoinParts(Texts(parts)) && r.messages == Messages(parts) && message !in r.messages
    ensures var q := AppendPart(r, message, html);
      q.summary == JoinParts(Texts(parts + [(message, html)])) && q.messages == Messages(parts + [(message, html)])
  {
    JoinOneMore(parts, message, html);
    JoinIsEmpty(parts);
  }

  lemma OneMoreEvent(events: seq<Event>, e: Event)
    requires IsJoin(events)
    ensures IsJoin(events + [e])
  {
    assert (events + [e])[..|events|] == events;
    if e.Part? && Collecting(After(events)) {
      KnownMessage(Accepted(events), e.message);
      if e.message !in After(events).messages {
        AppendJoins(After(events), Accepted(events), e.message, e.html);
      }
    }
  }

  /**
   Whatever the history, replays included, the summary is the in-order join of the distinct accepted parts, and
   the message list is theirs.
  */
  lemma SummaryIsJoin(events: seq<Event>)
    ensures var r := After(events);
      && r.summary == JoinParts(Texts(Accepted(events)))
      && r.messages == Messages(Accepted(events))
      && Distinct(Accepted(events))
  {
    for i := 0 to |events|
      invariant IsJoin(events[..i])
    {
      OneMoreEvent(events[..i], events[i]);
      assert events[..i + 1] == events[..i] + [events[i]];
    }
    assert events[..|events|] == events;
  }

  /** The finish button works exactly when a part has been accepted; then the review never changes again. */
  lemma FinishNeedsAPart(events: seq<Event>)
    requires After(events).pending
    ensures After(events + [Finish]).completed <==> Accepted(events) != []
  {
    assert (events + [Finish])[..|events|] == events;
    SummaryIsJoin(events);
    JoinIsEmpty(Accepted(events));
    Phases(events);
  }

  lemma {:induction false} Phases(events: seq<Event>)
    ensures var r := After(events);
      && (r.pending ==> r.status.Some? && !r.completed)
      && ((forall e <- events :: !e.Choose?) ==> r == FRESH)
      && ((exists e <- events :: e.Choose?) ==> r.pending || r.completed)
      && (r.messages != [] ==> r.pending || r.completed)
  {
    if events != [] {
      var front, last := events[..|events| - 1], events[|events| - 1];
      Phases(front);
      assert events == front + [last];
      if e :| e in events && e.Choose? && e != last {
        assert e in front;
      }
    }
  }

  /** The status chosen first in a history, if any. */
  ghost function FirstChoice(events: seq<Event>): Option<Status>
    decreases |events|
  {
    if events == [] then None
    else if events[0].Choose? then Some(events[0].status)
    else FirstChoice(events[1..])
  }

  lemma {:induction false} FirstChoiceAppend(events: seq<Event>, e: Event)
    ensures FirstChoice(events + [e]) ==
            if FirstChoice(events).Some? then FirstChoice(events) else if e.Choose? then Some(e.status) else None
    ensures FirstChoice(events).Some? <==> exists c <- events :: c.Choose?
    decreases |events|
  {
    if events == [] {
      assert [e][1..] == [];
    } else {
      assert (events + [e])[1..] == events[1..] + [e];
      FirstChoiceAppend(events[1..], e);
      assert events == [events[0]] + events[1..];
    }
  }

  /** The status of the review is the first one chosen, whatever is pressed or replayed later. */
  lemma {:induction false} FirstChoiceStands(events: seq<Event>)
    ensures After(events).status == FirstChoice(events)
  {
    if events != [] {
      var front, last := events[..|events| - 1], events[|events| - 1];
      assert events == front + [last];
      FirstChoiceStands(front);
      FirstChoiceAppend(front, last);
      Phases(front);
    }
  }

  lemma {:induction false} CompletedIsFrozen(events: seq<Event>, later: seq<Event>)
    requires After(events).completed
    ensures After(events + later) == After(events)
  {
    if later == [] {
      assert events + later == events;
    } else {
      var front := later[..|later| - 1];
      assert (events + later)[..|events + later| - 1] == events + front;
      CompletedIsFrozen(events, front);
      Phases(events + front);
    }
  }

  lemma {:induction false} MessagesStay(events: seq<Event>, later: seq<Event>)
    ensures After(events).messages <= After(events + later).messages
    ensures After(events).pending ==> After(events + later).pending || After(events + later).completed
  {
    if later == [] {
      assert events + later == events;
    } else {
      var front := later[..|later| - 1];
      assert (events + later)[..|events + later| - 1] == events + front;
      MessagesStay(events, front);
    }
  }

  // ----- Which histories absorb replays -----

  /**
   Once a status is chosen at all, no part came before it, and the finish button was not pressed before the first
   part. What was refused the first time is then refused in every replay.
  */
  ghost predicate Orderly(events: seq<Event>) {
    (exists e <- events :: e.Choose?) ==>
      && (forall i :: 0 <= i < |events| && events[i].Part? ==> exists k :: 0 <= k < i && events[k].Choose?)
      && (forall i, j :: 0 <= i < j < |events| && events[i].Finish? && events[j].Part? ==>
            exists k :: 0 <= k < i && events[k].Part?)
  }

  lemma SplitAt(events: seq<Event>, i: nat)
    requires i < |events|
    ensures events == events[..i] + [events[i]] + events[i + 1..]
  {
  }

  lemma AfterOne(before: seq<Event>, e: Event)
    ensures After(before + [e]) == Handle(After(before), e)
  {
    assert (before + [e])[..|before|] == before;
  }

  lemma MemberStays(before: seq<Event>, later: seq<Event>, message: int)
    requires After(before).completed || message in After(before).messages
    ensures After(before + later).completed || message in After(before + later).messages
  {
    if After(before).completed {
      CompletedIsFrozen(before, later);
    } else {
      MessagesStay(before, later);
      var i :| 0 <= i < |After(before).messages| && After(before).messages[i] == message;
      assert After(before + later).messages[i] == message;
    }
  }

  /** A part that follows a chosen status is in the review, unless that is already complete. */
  lemma PartIsKept(events: seq<Event>, k: nat, i: nat)
    requires k < i < |events| && events[k].Choose? && events[i].Part?
    ensures After(events).completed || events[i].message in After(events).messages
  {
    var before := events[..i];
    SplitAt(events, i);
    AfterOne(before, events[i]);
    assert before[k] in before;
    Phases(before);
    MemberStays(before + [events[i]], events[i + 1..], events[i].message);
  }

  lemma {:induction false} NoPartsNoMessages(events: seq<Event>)
    requires forall e <- events :: !e.Part?
    ensures After(events).messages == [] && After(events).summary == ""
  {
    if events != [] {
      NoPartsNoMessages(events[..|events| - 1]);
    }
  }

  lemma FinishCompletes(events: seq<Event>, c: nat, k: nat)
    requires c < k < |events| && events[c].Choose? && events[k].Part?
    ensures Handle(After(events), Finish).completed
  {
    PartIsKept(events, c, k);
    SummaryIsJoin(events);
    JoinIsEmpty(Accepted(events));
    assert events[c] in events;
    Phases(events);
  }

  lemma FinishIsDone(events: seq<Event>, c: nat, k: nat, i: nat)
    requires c < k < i < |events| && events[c].Choose? && events[k].Part? && events[i].Finish?
    ensures After(events).completed
  {
    var before := events[..i];
    SplitAt(events, i);
    AfterOne(before, events[i]);
    FinishCompletes(before, c, k);
    CompletedIsFrozen(before + [events[i]], events[i + 1..]);
  }

  lemma EarlyFinishHasNoParts(events: seq<Event>, i: nat)
    requires i < |events| && events[i].Finish? && (forall k :: 0 <= k < i ==> !events[k].Part?)
    requires forall j :: i < j < |events| && events[j].Part? ==> exists k :: 0 <= k < i && events[k].Part?
    ensures After(events).summary == ""
  {
    forall e | e in events ensures !e.Part? {
      var j :| 0 <= j < |events| && events[j] == e;
      assert j > i ==> !events[j].Part?;
    }
    NoPartsNoMessages(events);
  }

  /** Pressing finish again in an orderly history changes nothing: it worked the first time, or there is no part at all. */
  lemma FinishAgain(events: seq<Event>, i: nat)
    requires Orderly(events) && i < |events| && events[i].Finish? && exists e <- events :: e.Choose?
    ensures Handle(After(events), events[i]) == After(events)
  {
    if k :| 0 <= k < i && events[k].Part? {
      var c :| 0 <= c < k && events[c].Choose?;
      FinishIsDone(events, c, k, i);
    } else {
      EarlyFinishHasNoParts(events, i);
    }
  }

  /** Handling an event of an orderly history again changes nothing. */
  lemma ReplayChangesNothing(events: seq<Event>, i: nat)
    requires Orderly(events) && i < |events|
    ensures Handle(After(events), events[i]) == After(events)
  {
    Phases(events);
    if exists e <- events :: e.Choose? {
      if events[i].Finish? {
        FinishAgain(events, i);
      } else if events[i].Part? {
        var k :| 0 <= k < i && events[k].Choose?;
        PartIsKept(events, k, i);
      }
    }
  }

  lemma OrderlyPrefix(events: seq<Event>, n: nat)
    requires Orderly(events) && n <= |events|
    ensures Orderly(events[..n])
  {
    var front := events[..n];
    if exists e <- front :: e.Choose? {
      var c :| 0 <= c < n && front[c].Choose?;
      assert events[c] in events;
      forall i | 0 <= i < n && front[i].Part? ensures exists k :: 0 <= k < i && front[k].Choose? {
        var k :| 0 <= k < i && events[k].Choose?;
        assert front[k].Choose?;
      }
      forall i, j | 0 <= i < j < n && front[i].Finish? && front[j].Part? ensures exists k :: 0 <= k < i && front[k].Part? {
        assert events[i].Finish? && events[j].Part?;
        var k :| 0 <= k < i && events[k].Part?;
        assert front[k].Part?;
      }
    }
  }

  /** The non-blank messages of a history, each message once, in order. */
  function DistinctParts(events: seq<Event>): seq<(int, Html)> {
    if events == [] then []
    else
      var rest, last := DistinctParts(events[..|events| - 1]), events[|events| - 1];
      if last.Part? && (forall p <- rest :: p.0 != last.message) then rest + [(last.message, last.html)] else rest
  }

  lemma {:induction false} NoPartsNothing(events: seq<Event>)
    requires forall e <- events :: !e.Part?
    ensures DistinctParts(events) == [] == Accepted(events)
  {
    if events != [] {
      NoPartsNothing(events[..|events| - 1]);
    }
  }

  /** While an orderly history is being collected, what was accepted is every distinct message sent. */
  lemma {:induction false} OrderlyAcceptsAll(events: seq<Event>)
    requires Orderly(events) && After(events).pending
    ensures Accepted(events) == DistinctParts(events)
  {
    if events != [] {
      var front, last := events[..|events| - 1], events[|events| - 1];
      Phases(events);
      Phases(front);
      OrderlyPrefix(events, |front|);
      if After(front).pending {
        OrderlyAcceptsAll(front);
      } else {
        forall e | e in front ensures !e.Part? && !e.Choose? {
          assert last.Choose? && last in events;
          var i :| 0 <= i < |front| && front[i] == e;
          assert events[i] == e;
        }
        NoPartsNothing(front);
      }
    }
  }

  // ----- The polling loop -----

  datatype Update = Update(id: nat, event: Event)

  ghost predicate Ascending(stream: seq<Update>) {
    forall i, j :: 0 <= i < j < |stream| ==> stream[i].id < stream[j].id
  }

  function Events(stream: seq<Update>): seq<Event> {
    seq(|stream|, i requires 0 <= i < |stream| => stream[i].event)
  }

  /** A handler may fail after its transaction was committed. */
  datatype Outcome = Succeed | CommitThenFail | Rollback

  datatype Action = Poll(count: nat) | HandleNext(outcome: Outcome) | Crash

  /**
   `confirmed` is what the server has been told by the last poll; `offset` and `batch` live in the process.
   History: `first` is the position of the batch in the stream, `effects` every committed handler call,
   `reached` the updates whose effect was committed at least once, `succeeded` those whose handler returned well.
  */
  datatype Poller = Poller(
    confirmed: int, offset: int, batch: seq<Update>, review: Review,
    first: nat, effects: seq<Event>, reached: nat, succeeded: set<int>)

  /** The first update with an id not below the offset. */
  function FirstAt(stream: seq<Update>, offset: int): (n: nat)
    ensures n <= |stream|
    ensures forall i :: 0 <= i < n ==> stream[i].id < offset
    ensures n < |stream| ==> stream[n].id >= offset
  {
    if stream == [] then 0
    else
      var n := FirstAt(stream[..|stream| - 1], offset);
      if n == |stream| - 1 && stream[n].id < offset then |stream| else n
  }

  function Step(stream: seq<Update>, p: Poller, a: Action): Poller {
    match a
    case Poll(count) =>
      if p.batch != [] then p
      else
        var confirmed := Max(p.confirmed, p.offset);
        var first := FirstAt(stream, confirmed);
        p.(confirmed := confirmed, first := first, batch := stream[first..Min(first + count, |stream|)])
    case HandleNext(outcome) =>
      if p.batch == [] then p
      else if p.batch[0].id < p.offset then p.(batch := p.batch[1..], first := p.first + 1)
      else Call(p, outcome)
    case Crash => p.(offset := 0, batch := [])
  }

  function Commit(p: Poller): Poller
    requires p.batch != []
  {
    p.(review := Handle(p.review, p.batch[0].event), effects := p.effects + [p.batch[0].event],
       reached := Max(p.reached, p.first + 1))
  }

  function MoveOn(p: Poller): Poller
    requires p.batch != []
  {
    p.(offset := p.batch[0].id + 1, succeeded := p.succeeded + {p.batch[0].id}, batch := p.batch[1..], first := p.first + 1)
  }

  function Call(p: Poller, outcome: Outcome): Poller
    requires p.batch != []
  {
    match outcome
    case Succeed => MoveOn(Commit(p))
    case CommitThenFail => Commit(p).(batch := [])
    case Rollback => p.(batch := [])
  }

  const BOOT := Poller(0, 0, [], FRESH, 0, [], 0, {})

  function Run(stream: seq<Update>, actions: seq<Action>): Poller {
    if actions == [] then BOOT else Step(stream, Run(stream, actions[..|actions| - 1]), actions[|actions| - 1])
  }

  ghost predicate Prefix(stream: seq<Update>, p: Poller, n: nat) {
    n <= p.reached <= |stream| && forall i :: 0 <= i < n ==> stream[i].id in p.succeeded
  }

  ghost predicate Inv(stream: seq<Update>, p: Poller) {
    && p.first + |p.batch| <= |stream| && p.batch == stream[p.first..p.first + |p.batch|]
    && Prefix(stream, p, p.first)
    && Prefix(stream, p, FirstAt(stream, p.offset))
    && Prefix(stream, p, FirstAt(stream, p.confirmed))
    && (p.batch != [] ==> FirstAt(stream, p.confirmed) <= p.first)
    && p.review == After(p.effects)
  }

  lemma FirstAfter(stream: seq<Update>, i: nat)
    requires Ascending(stream) && i < |stream|
    ensures FirstAt(stream, stream[i].id + 1) == i + 1
  {
  }

  lemma NothingBelowZero(stream: seq<Update>)
    requires Ascending(stream)
    ensures FirstAt(stream, 0) == 0
  {
  }

  lemma SkipKeepsInv(stream: seq<Update>, p: Poller)
    requires Ascending(stream) && Inv(stream, p) && p.batch != [] && p.batch[0].id < p.offset
    ensures Inv(stream, p.(batch := p.batch[1..], first := p.first + 1))
  {
    assert p.batch[0] == stream[p.first];
  }

  lemma CommitKeepsInv(stream: seq<Update>, p: Poller)
    requires Inv(stream, p) && p.batch != []
    ensures Inv(stream, Commit(p))
  {
    assert (p.effects + [p.batch[0].event])[..|p.effects|] == p.effects;
  }

  /** The process moves on behind an update that was handled well. */
  lemma MoveOnKeepsInv(stream: seq<Update>, p: Poller)
    requires Ascending(stream) && Inv(stream, p) && p.batch != [] && p.reached > p.first
    ensures Inv(stream, MoveOn(p))
  {
    var q, i := MoveOn(p), p.first;
    assert p.batch[0] == stream[i];
    FirstAfter(stream, i);
    assert Prefix(stream, q, i + 1);
    assert q.batch == stream[i + 1..i + 1 + |q.batch|];
  }

  lemma SucceedKeepsInv(stream: seq<Update>, p: Poller)
    requires Ascending(stream) && Inv(stream, p) && p.batch != []
    ensures Inv(stream, Call(p, Succeed))
  {
    var committed := Commit(p);
    assert Inv(stream, committed) by {
      CommitKeepsInv(stream, p);
    }
    assert Inv(stream, MoveOn(committed)) by {
      MoveOnKeepsInv(stream, committed);
    }
  }

  lemma DropKeepsInv(stream: seq<Update>, p: Poller)
    requires Inv(stream, p)
    ensures Inv(stream, p.(batch := []))
  {
  }

  lemma CrashKeepsInv(stream: seq<Update>, p: Poller)
    requires Ascending(stream) && Inv(stream, p)
    ensures Inv(stream, p.(offset := 0, batch := []))
  {
    NothingBelowZero(stream);
  }

  lemma PollKeepsInv(stream: seq<Update>, p: Poller, count: nat)
    requires Ascending(stream) && Inv(stream, p)
    ensures Inv(stream, Step(stream, p, Poll(count)))
  {
  }

  lemma StepKeepsInv(stream: seq<Update>, p: Poller, a: Action)
    requires Ascending(stream) && Inv(stream, p)
    ensures Inv(stream, Step(stream, p, a))
  {
    match a
    case Poll(count) => PollKeepsInv(stream, p, count);
    case HandleNext(outcome) =>
      if p.batch != [] {
        if p.batch[0].id < p.offset {
          SkipKeepsInv(stream, p);
        } else if outcome.Succeed? {
          SucceedKeepsInv(stream, p);
        } else if outcome.CommitThenFail? {
          CommitKeepsInv(stream, p);
          DropKeepsInv(stream, Commit(p));
        } else {
          DropKeepsInv(stream, p);
        }
      }
    case Crash => CrashKeepsInv(stream, p);
  }

  lemma {:induction false} RunKeepsInv(stream: seq<Update>, actions: seq<Action>)
    requires Ascending(stream)
    ensures Inv(stream, Run(stream, actions))
  {
    if actions == [] {
      NothingBelowZero(stream);
    } else {
      RunKeepsInv(stream, actions[..|actions| - 1]);
      StepKeepsInv(stream, Run(stream, actions[..|actions| - 1]), actions[|actions| - 1]);
    }
  }

  /** The offset, and what the server drops, pass an update only after its handler succeeded. */
  lemma OffsetPassesHandledUpdates(stream: seq<Update>, actions: seq<Action>, i: nat)
    requires Ascending(stream) && i < |stream|
    requires var p := Run(stream, actions); stream[i].id < p.offset || stream[i].id < p.confirmed
    ensures stream[i].id in Run(stream, actions).succeeded
  {
    RunKeepsInv(stream, actions);
  }

  /** The update whose handler the next step calls. */
  function Called(p: Poller): Option<int> {
    if p.batch != [] && p.batch[0].id >= p.offset then Some(p.batch[0].id) else None
  }

  /** That is the update whose effect a succeeding step has; without one the step has none. */
  lemma CalledIsHandled(stream: seq<Update>, p: Poller)
    ensures var q := Step(stream, p, HandleNext(Succeed));
      if Called(p).Some? then
        && p.batch != [] && Called(p) == Some(p.batch[0].id)
        && q.effects == p.effects + [p.batch[0].event] && q.succeeded == p.succeeded + {p.batch[0].id}
      else q.effects == p.effects && q.succeeded == p.succeeded
  {
  }

  lemma OffsetGrows(stream: seq<Update>, p: Poller, a: Action)
    ensures p.confirmed <= Step(stream, p, a).confirmed
    ensures a != Crash ==> p.offset <= Step(stream, p, a).offset
  {
  }

  lemma {:induction false} OffsetsGrow(stream: seq<Update>, before: seq<Action>, later: seq<Action>)
    ensures Run(stream, before).confirmed <= Run(stream, before + later).confirmed
    ensures Crash !in later ==> Run(stream, before).offset <= Run(stream, before + later).offset
  {
    if later == [] {
      assert before + later == before;
    } else {
      var front := later[..|later| - 1];
      assert (before + later)[..|before + later| - 1] == before + front;
      OffsetsGrow(stream, before, front);
      OffsetGrows(stream, Run(stream, before + front), later[|later| - 1]);
    }
  }

  /**
   A passed update is not handled again: nothing below the offset while the process lives, nothing the server has
   been told about ever.
  */
  lemma PassedUpdatesStayPassed(stream: seq<Update>, before: seq<Action>, later: seq<Action>)
    requires Ascending(stream) && Called(Run(stream, before + later)).Some?
    ensures Called(Run(stream, before + later)).value >= Run(stream, before).confirmed
    ensures Crash !in later ==> Called(Run(stream, before + later)).value >= Run(stream, before).offset
  {
    OffsetsGrow(stream, before, later);
    RunKeepsInv(stream, before + later);
    CalledIsUnconfirmed(stream, Run(stream, before + later));
  }

  lemma CalledIsUnconfirmed(stream: seq<Update>, p: Poller)
    requires Ascending(stream) && Inv(stream, p) && Called(p).Some?
    ensures Called(p).value >= p.confirmed && Called(p).value >= p.offset
  {
    assert p.batch[0] == stream[p.first];
  }

  // ----- Exactly once -----

  /** The review as if every update reached so far had been handled once, in order. */
  function InOrder(stream: seq<Update>, p: Poller): Review {
    After(Events(stream)[..Min(p.reached, |stream|)])
  }

  lemma InOrderGrows(stream: seq<Update>, n: nat)
    requires n < |stream|
    ensures After(Events(stream)[..n + 1]) == Handle(After(Events(stream)[..n]), stream[n].event)
  {
    assert Events(stream)[..n + 1][..n] == Events(stream)[..n];
  }

  lemma CommitInOrder(stream: seq<Update>, p: Poller)
    requires p.batch != [] && p.first == p.reached < |stream| && p.batch[0] == stream[p.first] && p.review == InOrder(stream, p)
    ensures Commit(p).review == InOrder(stream, Commit(p))
  {
    InOrderGrows(stream, p.first);
  }

  lemma CommitAgain(stream: seq<Update>, p: Poller)
    requires Orderly(Events(stream))
    requires p.batch != [] && p.first < p.reached <= |stream| && p.batch[0] == stream[p.first] && p.review == InOrder(stream, p)
    ensures Commit(p).review == InOrder(stream, Commit(p))
  {
    var events := Events(stream);
    OrderlyPrefix(events, p.reached);
    ReplayChangesNothing(events[..p.reached], p.first);
  }

  lemma StepKeepsInOrder(stream: seq<Update>, p: Poller, a: Action)
    requires Ascending(stream) && Orderly(Events(stream)) && Inv(stream, p) && p.review == InOrder(stream, p)
    ensures Step(stream, p, a).review == InOrder(stream, Step(stream, p, a))
  {
    if a.HandleNext? && p.batch != [] {
      assert p.batch[0] == stream[p.first];
      if p.first == p.reached {
        CommitInOrder(stream, p);
      } else {
        CommitAgain(stream, p);
      }
    }
  }

  /** In an orderly stream at-least-once handling has the effect of handling every update once, in order. */
  lemma {:induction false} ExactlyOnce(stream: seq<Update>, actions: seq<Action>)
    requires Ascending(stream) && Orderly(Events(stream))
    ensures Run(stream, actions).review == InOrder(stream, Run(stream, actions))
  {
    if actions != [] {
      var front := actions[..|actions| - 1];
      ExactlyOnce(stream, front);
      RunKeepsInv(stream, front);
      StepKeepsInOrder(stream, Run(stream, front), actions[|actions| - 1]);
    }
  }

  lemma RunAppend(stream: seq<Update>, actions: seq<Action>, a: Action)
    ensures Run(stream, actions + [a]) == Step(stream, Run(stream, actions), a)
  {
    assert (actions + [a])[..|actions|] == actions;
  }

  /** Everything handled so far was handled once. */
  ghost predicate InStep(stream: seq<Update>, p: Poller) {
    Inv(stream, p) && p.first == p.reached && p.review == InOrder(stream, p)
  }

  lemma CallInStep(stream: seq<Update>, p: Poller)
    requires Ascending(stream) && InStep(stream, p) && p.batch != []
    ensures var q := Step(stream, p, HandleNext(Succeed));
      && InStep(stream, q) && q.first == p.first + 1 && q.batch == p.batch[1..] && q.confirmed == p.confirmed
      && FirstAt(stream, q.offset) == q.first
  {
    SucceedKeepsInv(stream, p);
    var q := Call(p, Succeed);
    assert q.review == InOrder(stream, q) && q.first == q.reached by {
      CommitInOrder(stream, p);
    }
    assert FirstAt(stream, q.offset) == q.first by {
      FirstAfter(stream, p.first);
    }
  }

  /** An undisturbed stretch of n handler calls. */
  function CallMany(stream: seq<Update>, p: Poller, n: nat): Poller {
    if n == 0 then p else Step(stream, CallMany(stream, p, n - 1), HandleNext(Succeed))
  }

  /** After n calls from p: still in step, n updates further. */
  ghost predicate CalledInStep(stream: seq<Update>, p: Poller, n: nat)
    requires n <= |p.batch|
  {
    var q := CallMany(stream, p, n);
    && InStep(stream, q) && q.first == p.first + n && q.batch == p.batch[n..] && q.confirmed == p.confirmed
    && (if n == 0 then q == p else FirstAt(stream, q.offset) == q.first)
  }

  lemma OneMoreCall(stream: seq<Update>, p: Poller, n: nat)
    requires Ascending(stream) && n < |p.batch| && CalledInStep(stream, p, n)
    ensures CalledInStep(stream, p, n + 1)
  {
    CallInStep(stream, CallMany(stream, p, n));
  }

  lemma CallManyInStep(stream: seq<Update>, p: Poller, n: nat)
    requires Ascending(stream) && InStep(stream, p) && n <= |p.batch|
    ensures CalledInStep(stream, p, n)
  {
    for i := 0 to n
      invariant CalledInStep(stream, p, i)
    {
      OneMoreCall(stream, p, i);
    }
  }

  /** All updates so far are handled, and the next poll starts behind them. */
  ghost predicate CaughtUp(stream: seq<Update>, p: Poller) {
    InStep(stream, p) && p.batch == [] && FirstAt(stream, Max(p.confirmed, p.offset)) == p.first
  }

  function PollAndCall(stream: seq<Update>, p: Poller, n: nat): Poller {
    CallMany(stream, Step(stream, p, Poll(n)), n)
  }

  lemma PolledInStep(stream: seq<Update>, p: Poller, n: nat)
    requires Ascending(stream) && CaughtUp(stream, p) && p.first + n <= |stream|
    ensures var q := Step(stream, p, Poll(n));
      InStep(stream, q) && q.first == p.first && |q.batch| == n && FirstAt(stream, q.confirmed) == p.first
      && q.confirmed == Max(p.confirmed, p.offset) && q.offset == p.offset
  {
    PollKeepsInv(stream, p, n);
  }

  lemma PollAndCallCatchesUp(stream: seq<Update>, p: Poller, n: nat)
    requires Ascending(stream) && CaughtUp(stream, p) && p.first + n <= |stream|
    ensures var q := PollAndCall(stream, p, n);
      CaughtUp(stream, q) && q.first == p.first + n && FirstAt(stream, q.confirmed) == p.first
  {
    PolledInStep(stream, p, n);
    CallManyInStep(stream, Step(stream, p, Poll(n)), n);
  }

  lemma {:induction false} CallManyRuns(stream: seq<Update>, actions: seq<Action>, n: nat) returns (longer: seq<Action>)
    ensures Run(stream, longer) == CallMany(stream, Run(stream, actions), n)
  {
    longer := actions;
    if n > 0 {
      longer := CallManyRuns(stream, actions, n - 1);
      RunAppend(stream, longer, HandleNext(Succeed));
      longer := longer + [HandleNext(Succeed)];
    }
  }

  lemma PollAndCallRuns(stream: seq<Update>, actions: seq<Action>, n: nat) returns (longer: seq<Action>)
    requires Ascending(stream) && CaughtUp(stream, Run(stream, actions)) && Run(stream, actions).first + n <= |stream|
    ensures var p, q := Run(stream, actions), Run(stream, longer);
      CaughtUp(stream, q) && q.first == p.first + n && FirstAt(stream, q.confirmed) == p.first
  {
    PollAndCallCatchesUp(stream, Run(stream, actions), n);
    RunAppend(stream, actions, Poll(n));
    longer := CallManyRuns(stream, actions + [Poll(n)], n);
  }

  /** The process dies, starts again, polls one update and handles it. */
  function CrashAndCall(stream: seq<Update>, p: Poller): Poller {
    Step(stream, Step(stream, Step(stream, p, Crash), Poll(1)), HandleNext(Succeed))
  }

  lemma CrashAndCallRuns(stream: seq<Update>, actions: seq<Action>) returns (longer: seq<Action>)
    ensures Run(stream, longer) == CrashAndCall(stream, Run(stream, actions))
  {
    RunAppend(stream, actions, Crash);
    RunAppend(stream, actions + [Crash], Poll(1));
    RunAppend(stream, actions + [Crash] + [Poll(1)], HandleNext(Succeed));
    longer := actions + [Crash] + [Poll(1)] + [HandleNext(Succeed)];
  }

  lemma BootIsCaughtUp(stream: seq<Update>)
    requires Ascending(stream)
    ensures CaughtUp(stream, Run(stream, [])) && Run(stream, []).first == 0
  {
    NothingBelowZero(stream);
    RunKeepsInv(stream, []);
  }

  /** Two undisturbed polls: up to update i, then up to update j. */
  lemma TwoPolls(stream: seq<Update>, i: nat, j: nat) returns (actions: seq<Action>)
    requires Ascending(stream) && i <= j < |stream|
    ensures var p := Run(stream, actions); CaughtUp(stream, p) && p.first == j + 1 && FirstAt(stream, p.confirmed) == i
  {
    BootIsCaughtUp(stream);
    actions := PollAndCallRuns(stream, [], i);
    actions := PollAndCallRuns(stream, actions, j + 1 - i);
  }

  /** Crashing after update j and replaying from update i, which the server still holds. */
  lemma ReplayRun(stream: seq<Update>, i: nat, j: nat) returns (actions: seq<Action>)
    requires Ascending(stream) && i <= j < |stream|
    ensures Run(stream, actions).reached == j + 1
    ensures Run(stream, actions).review == Handle(After(Events(stream)[..j + 1]), Events(stream)[i])
  {
    actions := TwoPolls(stream, i, j);
    ConfirmedIsNat(stream, actions);
    actions := CrashAndCallRuns(stream, actions);
  }

  lemma ConfirmedIsNat(stream: seq<Update>, actions: seq<Action>)
    ensures Run(stream, actions).confirmed >= 0
  {
    OffsetsGrow(stream, [], actions);
    assert [] + actions == actions;
  }

  lemma {:induction false} NoPartsNotCompleted(events: seq<Event>)
    requires forall e <- events :: !e.Part?
    ensures !After(events).completed
  {
    if events != [] {
      NoPartsNothing(events[..|events| - 1]);
      SummaryIsJoin(events[..|events| - 1]);
      NoPartsNotCompleted(events[..|events| - 1]);
    }
  }

  /** A part before the first chosen status is refused, and accepted when it is replayed after it. */
  lemma EarlyPartIsAcceptedLater(events: seq<Event>, i: nat, s: nat)
    requires i < s < |events| && events[i].Part? && events[s].Choose?
    requires forall k :: 0 <= k < s ==> !events[k].Choose?
    ensures Handle(After(events[..s + 1]), events[i]) != After(events[..s + 1])
  {
    assert events[..s + 1][..s] == events[..s];
    Phases(events[..s]);
  }

  /** Pressing finish before the first part is refused, and completes the review when it is replayed after it. */
  lemma EarlyFinishCompletesLater(events: seq<Event>, i: nat, s: nat, j: nat)
    requires i < j < |events| && s < j && events[i].Finish? && events[s].Choose? && events[j].Part?
    requires forall k :: 0 <= k < j ==> !events[k].Part?
    ensures Handle(After(events[..j + 1]), events[i]) != After(events[..j + 1])
  {
    var before := events[..j];
    assert events[..j + 1][..j] == before;
    assert before[s] in before;
    Phases(before);
    NoPartsNoMessages(before);
    NoPartsNotCompleted(before);
  }

  lemma FirstSuch(events: seq<Event>, n: nat, part: bool) returns (m: nat)
    requires n < |events| && if part then events[n].Part? else events[n].Choose?
    ensures m <= n && if part then events[m].Part? else events[m].Choose?
    ensures forall k :: 0 <= k < m ==> if part then !events[k].Part? else !events[k].Choose?
  {
    m := 0;
    while if part then !events[m].Part? else !events[m].Choose?
      invariant m <= n
      invariant forall k :: 0 <= k < m ==> if part then !events[k].Part? else !events[k].Choose?
      decreases n - m
    {
      m := m + 1;
    }
  }

  lemma DisorderIsReplayed(events: seq<Event>) returns (i: nat, j: nat)
    requires !Orderly(events)
    ensures i <= j < |events| && Handle(After(events[..j + 1]), events[i]) != After(events[..j + 1])
  {
    var c :| 0 <= c < |events| && events[c].Choose?;
    var s := FirstSuch(events, c, false);
    if early :| 0 <= early < s && events[early].Part? {
      EarlyPartIsAcceptedLater(events, early, s);
      return early, s;
    }
    forall i | 0 <= i < |events| && events[i].Part? ensures exists k :: 0 <= k < i && events[k].Choose? {
      assert s < i;
    }
    var f, p :| 0 <= f < p < |events| && events[f].Finish? && events[p].Part?
      && !(exists k :: 0 <= k < f && events[k].Part?);
    var first := FirstSuch(events, p, true);
    EarlyFinishCompletesLater(events, f, s, first);
    return f, first;
  }

  /**
   Handling at least once amounts to handling exactly once, on every run of polls, failures and crashes, if and
   only if the stream is orderly.
  */
  lemma ExactlyOnceIffOrderly(stream: seq<Update>)
    requires Ascending(stream)
    ensures (forall actions :: Run(stream, actions).review == InOrder(stream, Run(stream, actions))) <==> Orderly(Events(stream))
  {
    if Orderly(Events(stream)) {
      forall actions ensures Run(stream, actions).review == InOrder(stream, Run(stream, actions)) {
        ExactlyOnce(stream, actions);
      }
    } else {
      var i, j := DisorderIsReplayed(Events(stream));
      var actions := ReplayRun(stream, i, j);
      assert Run(stream, actions).review != InOrder(stream, Run(stream, actions));
    }
  }

  // ----- The loop as code -----

  /** The process and, on the server's side, the stream and what has been confirmed of it; `actions` is history. */
  class Api {
    const stream: seq<Update>
    var confirmed: int
    var review: Review
    ghost var actions: seq<Action>

    constructor (stream: seq<Update>)
      ensures this.stream == stream && actions == [] && Agrees()
    {
      this.stream := stream;
      confirmed, review, actions := 0, FRESH, [];
    }

    ghost function Machine(): Poller
      reads this
    {
      Run(stream, actions)
    }

    ghost predicate Agrees()
      reads this
    {
      review == Machine().review && confirmed == Machine().confirmed
    }

    /** The server drops what the offset confirms and answers with some of what is left, oldest first. */
    method PollUpdates(offset: int) returns (updates: seq<Update>)
      requires Agrees() && Machine().batch == [] && Machine().offset == offset
      modifies this
      ensures exists count :: actions == old(actions) + [Poll(count)]
      ensures Agrees() && Machine().batch == updates && Machine().offset == offset
    {
      var count := Any<nat>();
      confirmed := Max(confirmed, offset);
      var first := FirstAt(stream, confirmed);
      updates := stream[first..Min(first + count, |stream|)];
      RunAppend(stream, actions, Poll(count));
      actions := actions + [Poll(count)];
    }

    /** One turn of the main loop: poll, handle, and take over the offset whether or not a handler failed. */
    method Turn(offset: int) returns (nextOffset: int)
      requires Ascending(stream) && Agrees() && Machine().batch == [] && Machine().offset == offset
      modifies this
      ensures Agrees() && Machine().batch == [] && Machine().offset == nextOffset
      ensures old(actions) <= actions && Crash !in actions[|old(actions)|..]
    {
      var updates := PollUpdates(offset);
      ghost var polled := actions;
      var failed;
      nextOffset, failed := ProcessUpdates(offset, updates);
      assert actions == polled + actions[|polled|..];
      assert actions[|old(actions)|..] == polled[|old(actions)|..] + actions[|polled|..];
    }

    /** One handler call: its transaction commits or rolls back, and it may fail after the commit. */
    method HandleUpdate(u: Update) returns (ok: bool)
      requires Agrees() && Machine().batch != [] && Machine().batch[0] == u && u.id >= Machine().offset
      modifies this
      ensures exists outcome :: actions == old(actions) + [HandleNext(outcome)] && (ok <==> outcome == Succeed)
      ensures Agrees()
    {
      var outcome := Any<Outcome>();
      if !outcome.Rollback? {
        review := Handle(review, u.event);
      }
      RunAppend(stream, actions, HandleNext(outcome));
      actions := actions + [HandleNext(outcome)];
      ok := outcome.Succeed?;
    }

    /**
     Handles a batch from the offset on. Without an error every update of it is passed; with one the offset stops
     at the failed update, behind everything that succeeded.
    */
    method ProcessUpdates(offset: int, updates: seq<Update>) returns (nextOffset: int, failed: bool)
      requires Ascending(stream) && Agrees()
      requires Machine().batch == updates && Machine().offset == offset
      modifies this
      ensures old(actions) <= actions && Agrees() && Machine().batch == []
      ensures nextOffset == Machine().offset >= offset
      ensures forall a <- actions[|old(actions)|..] :: a.HandleNext?
      ensures !failed ==> forall u <- updates :: u.id < nextOffset
      ensures failed ==> exists u <- updates :: u.id >= nextOffset
    {
      nextOffset := offset;
      for i := 0 to |updates|
        invariant old(actions) <= actions && Agrees()
        invariant Machine().batch == updates[i..] && nextOffset == Machine().offset >= offset
        invariant forall a <- actions[|old(actions)|..] :: a.HandleNext?
        invariant forall j :: 0 <= j < i ==> updates[j].id < nextOffset
      {
        var update := updates[i];
        if update.id < nextOffset {
          RunAppend(stream, actions, HandleNext(Succeed));
          actions := actions + [HandleNext(Succeed)];
          continue;
        }
        ghost var before := actions;
        var ok := HandleUpdate(update);
        RunAppend(stream, before, actions[|before|]);
        if !ok {
          return nextOffset, true;
        }
        nextOffset := update.id + 1;
      }
      return nextOffset, false;
    }
  }
}
