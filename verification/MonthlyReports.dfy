/**
 Publication of one prepared report per workspace and month. Any number of publishers run at once, each may die
 between any two steps, and a row of monthly_reports is never retried automatically.
*/
module MonthlyReports {
  import opened Prelude
  import EntityRendering

  // ----- Canonical text -----

  /** The white space of Unicode, code point by code point. */
  const WHITE_SPACE: set<int> :=
      {0x9, 0xA, 0xB, 0xC, 0xD, 0x20, 0x85, 0xA0, 0x1680, 0x2000, 0x2001, 0x2002, 0x2003, 0x2004, 0x2005, 0x2006, 0x2007,
       0x2008, 0x2009, 0x200A, 0x2028, 0x2029, 0x202F, 0x205F, 0x3000}

  lemma SpacesAre(c: char)
    ensures IsSpace(c) <==> c as int in WHITE_SPACE
  {
  }

  predicate IsSpace(c: char) {
    c in {'\t', '\n', '\U{000B}', '\U{000C}', '\r', ' ', '\U{0085}', '\U{00A0}', '\U{1680}',
          '\U{2028}', '\U{2029}', '\U{202F}', '\U{205F}', '\U{3000}'}
    || '\U{2000}' <= c <= '\U{200A}'
  }

  function TrimLeft(s: string): string {
    if s != "" && IsSpace(s[0]) then TrimLeft(s[1..]) else s
  }

  function TrimRight(s: string): string {
    if s != "" && IsSpace(s[|s| - 1]) then TrimRight(s[..|s| - 1]) else s
  }

  function TrimSpace(s: string): string {
    TrimRight(TrimLeft(s))
  }

  function Utf16Length(s: string): nat {
    if s == "" then 0 else Utf16Length(s[..|s| - 1]) + (if s[|s| - 1] as int <= 0xFFFF then 1 else 2)
  }

  /** The limit counts the code units the text has on the wire. */
  lemma {:induction false} Utf16LengthCounts(s: string)
    ensures Utf16Length(s) == |EntityRendering.Utf16(s)|
  {
    if s != "" {
      Utf16LengthCounts(s[..|s| - 1]);
    }
  }

  const MAX_UNITS := 4096

  /** The bytes handed to the tool: valid UTF-8 or not. */
  datatype Input = Utf8(text: string) | InvalidUtf8

  /** Prepare refuses bytes that are not UTF-8, blank text and text over the limit; otherwise it trims. */
  function Canonical(input: Input): Option<string> {
    if input.InvalidUtf8? then None
    else
      var text := TrimSpace(input.text);
      if text == "" || Utf16Length(text) > MAX_UNITS then None else Some(text)
  }

  predicate AllSpace(s: string) {
    forall c <- s :: IsSpace(c)
  }

  predicate Tight(s: string) {
    s != "" && !IsSpace(s[0]) && !IsSpace(s[|s| - 1])
  }

  lemma {:induction false} TrimLeftDropsSpace(pad: string, s: string)
    requires AllSpace(pad) && s != "" && !IsSpace(s[0])
    ensures TrimLeft(pad + s) == s
  {
    if pad == "" {
      assert pad + s == s;
    } else {
      assert (pad + s)[1..] == pad[1..] + s;
      TrimLeftDropsSpace(pad[1..], s);
    }
  }

  lemma {:induction false} TrimRightDropsSpace(s: string, pad: string)
    requires AllSpace(pad) && s != "" && !IsSpace(s[|s| - 1])
    ensures TrimRight(s + pad) == s
  {
    if pad == "" {
      assert s + pad == s;
    } else {
      assert (s + pad)[..|s + pad| - 1] == s + pad[..|pad| - 1];
      TrimRightDropsSpace(s, pad[..|pad| - 1]);
    }
  }

  lemma {:induction false} TrimLeftSplits(s: string) returns (pad: string)
    ensures s == pad + TrimLeft(s) && AllSpace(pad)
    ensures TrimLeft(s) != "" ==> !IsSpace(TrimLeft(s)[0])
  {
    pad := "";
    if s != "" && IsSpace(s[0]) {
      pad := TrimLeftSplits(s[1..]);
      pad := [s[0]] + pad;
    }
  }

  lemma {:induction false} TrimRightSplits(s: string) returns (pad: string)
    ensures s == TrimRight(s) + pad && AllSpace(pad)
    ensures TrimRight(s) != "" ==> !IsSpace(TrimRight(s)[|TrimRight(s)| - 1])
  {
    pad := "";
    if s != "" && IsSpace(s[|s| - 1]) {
      pad := TrimRightSplits(s[..|s| - 1]);
      pad := pad + [s[|s| - 1]];
    }
  }

  /** The canonical text is the one tight core of the input: padding never matters and nothing inside is lost. */
  lemma CanonicalIsTheCore(input: Input, before: string, core: string, after: string)
    requires input == Utf8(before + core + after) && AllSpace(before) && AllSpace(after) && Tight(core)
    ensures Canonical(input) == if Utf16Length(core) > MAX_UNITS then None else Some(core)
  {
    assert before + core + after == before + (core + after);
    TrimLeftDropsSpace(before, core + after);
    TrimRightDropsSpace(core, after);
  }

  lemma TrimSpaceSplits(s: string) returns (before: string, after: string)
    ensures s == before + TrimSpace(s) + after && AllSpace(before) && AllSpace(after)
    ensures TrimSpace(s) != "" ==> Tight(TrimSpace(s))
  {
    before := TrimLeftSplits(s);
    after := TrimRightSplits(TrimLeft(s));
    if TrimSpace(s) != "" {
      assert TrimSpace(s)[0] == TrimLeft(s)[0];
    }
  }

  /** Every accepted input has such a core, so preparing a prepared text changes nothing. */
  lemma CanonicalIsStable(input: Input)
    requires Canonical(input).Some?
    ensures Tight(Canonical(input).value)
    ensures Canonical(Utf8(Canonical(input).value)) == Canonical(input)
    ensures exists before, after :: AllSpace(before) && AllSpace(after) && input.text == before + Canonical(input).value + after
  {
    var before, after := TrimSpaceSplits(input.text);
    var core := Canonical(input).value;
    assert "" + core + "" == core;
    CanonicalIsTheCore(Utf8(core), "", core, "");
  }

  // ----- The protocol -----

  datatype Key = Key(workspace: int, month: int)

  datatype Status = Publishing | Published | Uncertain

  datatype Report = Report(status: Status, text: string, hash: int, chat: int, thread: int, messageId: Option<int>)

  type Table = map<Key, Report>

  /** What Telegram answered to the one send request. */
  datatype Reply = SendFailed | Receipt(messageId: int, chat: int, thread: int, text: string)

  /** A publisher holding canonical text, its hash and the destination it read. */
  datatype Order = Order(key: Key, text: string, hash: int, chat: int, thread: int)

  datatype Pc =
    | Reserving(order: Order)               // saw no row, about to insert
    | Sending(order: Order)                 // its insert took effect
    | Saving(order: Order, reply: Reply)    // about to update the row
    | Reading(order: Order, sent: bool)     // saved, about to read the receipt back
    | Rereading(order: Order)               // its insert hit an existing row
    | Told(order: Order, receipt: Report)   // returned the receipt of a published report
    | Refused(order: Order)                 // returned an error
    | Dead(order: Order)

  datatype State = State(table: Table, publishers: map<int, Pc>, sends: multiset<Key>)

  datatype Action =
    | Begin(id: int, order: Order, statusRead: bool)
    | Insert(id: int, failed: bool)
    | Send(id: int, reply: Reply)
    | Save(id: int, failed: bool)
    | ReadBack(id: int, failed: bool)
    | Die(id: int)

  predicate Matches(order: Order, reply: Reply) {
    reply.Receipt? && reply.messageId > 0 && reply.chat == order.chat && reply.thread == order.thread && reply.text == order.text
  }

  /** The message id is kept whenever the message went to the right place, even if its text differs. */
  function KeptId(order: Order, reply: Reply): Option<int> {
    if reply.Receipt? && reply.messageId > 0 && reply.chat == order.chat && reply.thread == order.thread
    then Some(reply.messageId) else None
  }

  /** Validate and the first checks of Publish, on the row the status query saw. */
  function AfterStatus(table: Table, order: Order): Pc {
    if order.key !in table then Reserving(order)
    else
      var row := table[order.key];
      if row.hash == order.hash && row.status.Published? then Told(order, row) else Refused(order)
  }

  function Outcome(row: Report, order: Order, reply: Reply): Report {
    row.(status := if Matches(order, reply) then Published else Uncertain, messageId := KeptId(order, reply))
  }

  predicate Enabled(s: State, a: Action) {
    match a
    case Begin(id, order, _) => id !in s.publishers
    case Insert(id, _) => id in s.publishers && s.publishers[id].Reserving?
    case Send(id, _) => id in s.publishers && s.publishers[id].Sending?
    case Save(id, _) => id in s.publishers && s.publishers[id].Saving?
    case ReadBack(id, _) => id in s.publishers && (s.publishers[id].Reading? || s.publishers[id].Rereading?)
    case Die(id) => id in s.publishers
  }

  function Next(s: State, a: Action): State
    requires Enabled(s, a)
  {
    match a
    case Begin(id, order, statusRead) =>
      s.(publishers := s.publishers[id := if statusRead then AfterStatus(s.table, order) else Refused(order)])
    case Insert(id, failed) =>
      var order := s.publishers[id].order;
      if failed then s.(publishers := s.publishers[id := Refused(order)])
      else if order.key in s.table then s.(publishers := s.publishers[id := Rereading(order)])
      else s.(table := s.table[order.key := Report(Publishing, order.text, order.hash, order.chat, order.thread, None)],
              publishers := s.publishers[id := Sending(order)])
    case Send(id, reply) =>
      var order := s.publishers[id].order;
      s.(publishers := s.publishers[id := Saving(order, reply)], sends := s.sends + multiset{order.key})
    case Save(id, failed) =>
      var order, reply := s.publishers[id].order, s.publishers[id].reply;
      if failed || order.key !in s.table || !s.table[order.key].status.Publishing?
      then s.(publishers := s.publishers[id := Refused(order)])
      else s.(table := s.table[order.key := Outcome(s.table[order.key], order, reply)],
              publishers := s.publishers[id := Reading(order, Matches(order, reply))])
    case ReadBack(id, failed) =>
      var order := s.publishers[id].order;
      var told :=
        if failed || order.key !in s.table then Refused(order)
        else if s.publishers[id].Reading? then (if s.publishers[id].sent then Told(order, s.table[order.key]) else Refused(order))
        else if s.table[order.key].status.Published? && s.table[order.key].hash == order.hash then Told(order, s.table[order.key])
        else Refused(order);
      s.(publishers := s.publishers[id := told])
    case Die(id) => s.(publishers := s.publishers[id := Dead(s.publishers[id].order)])
  }

  // ----- Runs -----

  ghost predicate Trace(states: seq<State>, actions: seq<Action>) {
    && |states| == |actions| + 1
    && forall i :: 0 <= i < |actions| ==> Enabled(states[i], actions[i]) && states[i + 1] == Next(states[i], actions[i])
  }

  ghost predicate Initial(s: State) {
    s == State(map[], map[], multiset{})
  }

  /** The publisher whose insert took effect, while it may still act on the row. */
  predicate Owns(pc: Pc) {
    pc.Sending? || pc.Saving? || pc.Reading?
  }

  predicate TellsTruth(table: Table, pc: Pc) {
    pc.Told? ==>
      && pc.order.key in table && table[pc.order.key] == pc.receipt
      && pc.receipt.status.Published? && pc.receipt.hash == pc.order.hash
      && pc.receipt.messageId.Some? && pc.receipt.messageId.value > 0
  }

  predicate Carries(row: Report, order: Order) {
    row.text == order.text && row.hash == order.hash && row.chat == order.chat && row.thread == order.thread
  }

  predicate OwnerAgrees(table: Table, sends: multiset<Key>, pc: Pc) {
    Owns(pc) ==>
      && pc.order.key in table && Carries(table[pc.order.key], pc.order)
      && (pc.Sending? ==> sends[pc.order.key] == 0)
      && (pc.Sending? || pc.Saving? ==> table[pc.order.key].status.Publishing?)
      && (pc.Reading? ==> table[pc.order.key].status == if pc.sent then Published else Uncertain)
  }

  ghost predicate KeyOk(s: State, key: Key) {
    && s.sends[key] <= (if key in s.table then 1 else 0)
    && (key in s.table && s.table[key].status.Published? ==> s.table[key].messageId.Some? && s.table[key].messageId.value > 0)
  }

  ghost predicate PublisherOk(s: State, id: int) {
    id in s.publishers ==> OwnerAgrees(s.table, s.sends, s.publishers[id]) && TellsTruth(s.table, s.publishers[id])
  }

  ghost predicate Alone(s: State, i: int, j: int) {
    && i in s.publishers && j in s.publishers
    && Owns(s.publishers[i]) && Owns(s.publishers[j]) && s.publishers[i].order.key == s.publishers[j].order.key
    ==> i == j
  }

  ghost predicate Inv(s: State) {
    && (forall key :: KeyOk(s, key))
    && (forall id :: PublisherOk(s, id))
    && (forall i, j :: Alone(s, i, j))
  }

  /** Rows are only added, keep their text, hash and destination, and leave `publishing` at most once. */
  predicate MovesForward(before: Table, after: Table) {
    forall key <- before ::
      && key in after
      && (before[key].status.Publishing? ==> after[key] == before[key].(status := after[key].status, messageId := after[key].messageId))
      && (!before[key].status.Publishing? ==> after[key] == before[key])
  }

  function Actor(a: Action): int {
    match a
    case Begin(id, _, _) => id
    case Insert(id, _) => id
    case Send(id, _) => id
    case Save(id, _) => id
    case ReadBack(id, _) => id
    case Die(id) => id
  }

  lemma StepKeepsKey(s: State, a: Action, key: Key)
    requires KeyOk(s, key) && PublisherOk(s, Actor(a)) && Enabled(s, a)
    ensures KeyOk(Next(s, a), key)
    ensures MovesForward(s.table, Next(s, a).table)
  {
  }

  lemma StepKeepsAlone(s: State, a: Action, i: int, j: int)
    requires Alone(s, i, j) && Enabled(s, a)
    requires PublisherOk(s, i) && PublisherOk(s, j)
    ensures Alone(Next(s, a), i, j)
  {
  }

  lemma StepKeepsPublisher(s: State, a: Action, id: int)
    requires PublisherOk(s, id) && Alone(s, id, Actor(a)) && Enabled(s, a)
    requires forall key :: KeyOk(s, key)
    ensures PublisherOk(Next(s, a), id)
  {
    if id in s.publishers {
      assert KeyOk(s, s.publishers[id].order.key);
    } else if a.Begin? {
      assert KeyOk(s, a.order.key);
    }
  }

  lemma StepKeepsInv(s: State, a: Action)
    requires Inv(s) && Enabled(s, a)
    ensures Inv(Next(s, a))
    ensures MovesForward(s.table, Next(s, a).table)
  {
    forall key ensures KeyOk(Next(s, a), key) && MovesForward(s.table, Next(s, a).table) {
      StepKeepsKey(s, a, key);
    }
    forall i, j ensures Alone(Next(s, a), i, j) {
      StepKeepsAlone(s, a, i, j);
    }
    forall id ensures PublisherOk(Next(s, a), id) {
      StepKeepsPublisher(s, a, id);
    }
    StepKeepsKey(s, a, Key(0, 0));
  }

  lemma {:induction false} TraceKeepsInv(states: seq<State>, actions: seq<Action>, i: nat)
    requires Trace(states, actions) && Initial(states[0]) && i <= |actions|
    ensures Inv(states[i])
  {
    if i > 0 {
      TraceKeepsInv(states, actions, i - 1);
      StepKeepsInv(states[i - 1], actions[i - 1]);
    }
  }

  /** At most one send request per workspace and month, over every interleaving and every pattern of deaths. */
  lemma SentAtMostOnce(states: seq<State>, actions: seq<Action>, key: Key)
    requires Trace(states, actions) && Initial(states[0])
    ensures states[|actions|].sends[key] <= 1
  {
    TraceKeepsInv(states, actions, |actions|);
    assert KeyOk(states[|actions|], key);
  }

  /** What was reserved is never rewritten, and a decided row never changes again. */
  lemma {:induction false} RowsMoveForward(states: seq<State>, actions: seq<Action>, i: nat, j: nat)
    requires Trace(states, actions) && Initial(states[0]) && i <= j <= |actions|
    ensures MovesForward(states[i].table, states[j].table)
  {
    if i < j {
      RowsMoveForward(states, actions, i, j - 1);
      TraceKeepsInv(states, actions, j - 1);
      StepKeepsInv(states[j - 1], actions[j - 1]);
    }
  }

  /**
   A publisher told that the month is published holds, now and at every later state, the row itself: its own
   content hash and a positive message id.
  */
  lemma ToldMeansPublished(states: seq<State>, actions: seq<Action>, i: nat, id: int)
    requires Trace(states, actions) && Initial(states[0]) && i <= |actions|
    requires id in states[i].publishers && states[i].publishers[id].Told?
    ensures var pc := states[i].publishers[id];
            && pc.order.key in states[|actions|].table
            && states[|actions|].table[pc.order.key] == pc.receipt
            && pc.receipt.status.Published? && pc.receipt.hash == pc.order.hash
            && pc.receipt.messageId.Some? && pc.receipt.messageId.value > 0
  {
    TraceKeepsInv(states, actions, i);
    assert PublisherOk(states[i], id);
    RowsMoveForward(states, actions, i, |actions|);
  }

  // ----- What the outcome says about the reply -----

  /** The row is decided by the reply: published for exactly what was reserved, and the id kept for the right place. */
  ghost predicate DecidedBy(row: Report, decided: Report, reply: Reply) {
    && (decided.status.Published? || decided.status.Uncertain?)
    && (decided.status.Published? <==> exists m: int :: m > 0 && reply == Receipt(m, row.chat, row.thread, row.text))
    && (forall m: int :: decided.messageId == Some(m) <==>
          m > 0 && exists text: string :: reply == Receipt(m, row.chat, row.thread, text))
    && decided == row.(status := decided.status, messageId := decided.messageId)
  }

  lemma OutcomeIsDecided(row: Report, order: Order, reply: Reply)
    requires Carries(row, order)
    ensures DecidedBy(row, Outcome(row, order, reply), reply)
  {
    if reply.Receipt? {
      assert reply == Receipt(reply.messageId, reply.chat, reply.thread, reply.text);
    }
  }

  /**
   Every update that takes effect decides the publisher's own row by the reply it got, whatever the others did; a
   failed one leaves the table alone.
  */
  lemma SaveDecidesTheRow(states: seq<State>, actions: seq<Action>, i: nat)
    requires Trace(states, actions) && Initial(states[0]) && i < |actions| && actions[i].Save?
    ensures var s, t := states[i], states[i + 1];
      var saving := s.publishers[actions[i].id];
      var key := saving.order.key;
      && key in s.table && s.table[key].status.Publishing? && Carries(s.table[key], saving.order)
      && (if actions[i].failed then t.table == s.table
          else key in t.table && t.table == s.table[key := t.table[key]] && DecidedBy(s.table[key], t.table[key], saving.reply))
  {
    TraceKeepsInv(states, actions, i);
    var s := states[i];
    var saving := s.publishers[actions[i].id];
    assert PublisherOk(s, actions[i].id);
    OutcomeIsDecided(s.table[saving.order.key], saving.order, saving.reply);
  }

  // ----- One call of Publish among others -----

  /** What one call got back from Telegram, and whether saving and reading back the outcome succeeded. */
  datatype Delivery = Delivery(reply: Reply, saved: bool, readBack: bool)

  /**
   The shared database together with all publishers. `Others` lets any of the other publishers take any number of
   steps between two statements of the one that is being executed.
  */
  class Service {
    const hash: string -> int
    var world: State
    ghost var states: seq<State>
    ghost var actions: seq<Action>

    constructor (hash: string -> int)
      ensures Valid() && Initial(world) && this.hash == hash
    {
      this.hash := hash;
      var empty := State(map[], map[], multiset{});
      world, states, actions := empty, [empty], [];
    }

    ghost predicate Valid()
      reads this
    {
      Trace(states, actions) && Initial(states[0]) && states[|actions|] == world
    }

    ghost predicate Later(world0: State)
      reads this
    {
      MovesForward(world0.table, world.table)
    }

    method Perform(a: Action)
      requires Valid() && Enabled(world, a)
      modifies this
      ensures Valid() && world == Next(old(world), a) && Later(old(world))
    {
      TraceKeepsInv(states, actions, |actions|);
      StepKeepsInv(world, a);
      world := Next(world, a);
      states, actions := states + [world], actions + [a];
    }

    method Others(me: int)
      requires Valid()
      modifies this
      ensures Valid() && Later(old(world))
      ensures me in world.publishers <==> me in old(world).publishers
      ensures me in world.publishers ==> world.publishers[me] == old(world).publishers[me]
    {
      var times :| times >= 0;
      for i := 0 to times
        invariant Valid() && Later(old(world))
        invariant me in world.publishers <==> me in old(world).publishers
        invariant me in world.publishers ==> world.publishers[me] == old(world).publishers[me]
      {
        var a: Action := *;
        if Actor(a) != me && Enabled(world, a) {
          Perform(a);
        }
      }
    }

    /** The status query; `ok` is false when it fails. */
    method Status(key: Key) returns (ok: bool, row: Option<Report>)
      ensures ok ==> row == if key in world.table then Some(world.table[key]) else None
    {
      ok := *;
      row := if key in world.table then Some(world.table[key]) else None;
    }

    /**
     A receipt is returned only for a published row that carries the hash of the caller's own canonical text, and
     the call sends at most once, for a month nobody has sent before. After a send a receipt is returned exactly when
     the reply is that very text at that very place, and the outcome was saved and read back; without one, exactly
     when the month has been published with that content.
    */
    method Publish(me: int, key: Key, input: Input, chat: int, thread: int)
      returns (receipt: Option<Report>, sent: bool, ghost before: State, ghost delivery: Delivery, ghost seen: Option<Report>,
               ghost statusRead: bool)
      requires Valid() && me !in world.publishers
      modifies this
      ensures Valid() && Later(old(world))
      ensures receipt.Some? ==>
        && Canonical(input).Some?
        && key in world.table && world.table[key] == receipt.value
        && receipt.value.status.Published? && receipt.value.messageId.Some? && receipt.value.messageId.value > 0
        && receipt.value.hash == hash(Canonical(input).value)
      ensures sent ==> key !in old(world).table && before.sends[key] == 0
      ensures sent ==> key in world.table && Some(world.table[key].text) == Canonical(input)
      ensures world.sends[key] <= 1
      ensures sent ==> (receipt.Some? <==>
        && delivery.saved && delivery.readBack
        && exists m: int :: m > 0 && delivery.reply == Receipt(m, chat, thread, Canonical(input).value))
      ensures sent && receipt.Some? ==> receipt.value.messageId == Some(delivery.reply.messageId)
      ensures statusRead && key in old(world).table && Canonical(input).Some? ==> !sent && seen.Some?
      ensures !sent && seen.Some? && Canonical(input).Some? ==>
        (receipt.Some? <==> seen.value.status.Published? && seen.value.hash == hash(Canonical(input).value))
    {
      receipt, sent, before, delivery, seen, statusRead := None, false, world, Delivery(SendFailed, false, false), None, false;
      TraceKeepsInv(states, actions, |actions|);
      assert KeyOk(world, key);
      var text := Canonical(input);
      if text.None? {
        return;
      }
      var order := Order(key, text.value, hash(text.value), chat, thread);
      Others(me);
      var ok, row := Status(key);
      statusRead := ok;
      Perform(Begin(me, order, ok));
      if ok && row.None? {
        receipt, sent, before, delivery, seen := ReserveAndSend(me, order);
      } else if ok && row.value.hash == order.hash && row.value.status.Published? {
        receipt := row;
      }
      if ok && row.Some? {
        seen := row;
      }
      TraceKeepsInv(states, actions, |actions|);
      assert KeyOk(world, key) && PublisherOk(world, me);
    }

    /** From the insert on: only the publisher whose insert took effect reaches the send. */
    method ReserveAndSend(me: int, order: Order)
      returns (receipt: Option<Report>, sent: bool, ghost before: State, ghost delivery: Delivery, ghost seen: Option<Report>)
      requires Valid() && me in world.publishers && world.publishers[me] == Reserving(order)
      modifies this
      ensures Valid() && Later(old(world))
      ensures receipt.Some? ==> me in world.publishers && world.publishers[me] == Told(order, receipt.value)
      ensures sent ==> order.key !in old(world).table && before.sends[order.key] == 0
      ensures sent ==> order.key in world.table && world.table[order.key].text == order.text
      ensures sent ==> (receipt.Some? <==>
        && delivery.saved && delivery.readBack
        && exists m: int :: m > 0 && delivery.reply == Receipt(m, order.chat, order.thread, order.text))
      ensures sent && receipt.Some? ==> receipt.value.messageId == Some(delivery.reply.messageId)
      ensures !sent && seen.Some? ==> (receipt.Some? <==> seen.value.status.Published? && seen.value.hash == order.hash)
    {
      receipt, sent, before, delivery, seen := None, false, world, Delivery(SendFailed, false, false), None;
      var stop := Reserve(me, order);
      if stop {
        return;
      }
      if world.publishers[me].Sending? {
        sent := true;
        ghost var reply, saved;
        before, reply, saved := SendAndSave(me, order);
        delivery := Delivery(reply, saved, false);
      }
      ghost var readBack;
      receipt, readBack, seen := ReadReceipt(me, order);
      delivery := delivery.(readBack := readBack);
    }

    /** INSERT ... ON CONFLICT DO NOTHING. */
    method Reserve(me: int, order: Order) returns (failed: bool)
      requires Valid() && me in world.publishers && world.publishers[me] == Reserving(order)
      modifies this
      ensures Valid() && Later(old(world)) && me in world.publishers
      ensures failed || world.publishers[me] == Rereading(order) || world.publishers[me] == Sending(order)
      ensures !failed && world.publishers[me].Sending? ==>
        && order.key !in old(world).table
        && order.key in world.table && world.table[order.key].text == order.text
    {
      Others(me);
      failed := *;
      Perform(Insert(me, failed));
    }

    /**
     One request, then one conditional update, whatever the request returned. A save that takes effect decides the
     row by the reply: published exactly for the reserved text at the reserved place.
    */
    method SendAndSave(me: int, order: Order) returns (ghost before: State, ghost reply: Reply, ghost saved: bool)
      requires Valid() && me in world.publishers && world.publishers[me] == Sending(order)
      modifies this
      ensures Valid() && Later(old(world)) && me in world.publishers
      ensures before.sends[order.key] == 0
      ensures if saved then world.publishers[me].Reading? else world.publishers[me].Refused?
      ensures world.publishers[me].order == order
      ensures saved ==>
        && order.key in world.table
        && exists row: Report :: row.status.Publishing? && Carries(row, order) && DecidedBy(row, world.table[order.key], reply)
      ensures saved ==>
        (world.publishers[me].sent <==> exists m: int :: m > 0 && reply == Receipt(m, order.chat, order.thread, order.text))
    {
      Others(me);
      TraceKeepsInv(states, actions, |actions|);
      assert PublisherOk(world, me);
      before := world;
      var answer: Reply := *;
      reply := answer;
      Perform(Send(me, answer));
      Others(me);
      TraceKeepsInv(states, actions, |actions|);
      assert PublisherOk(world, me);
      var failed: bool := *;
      saved := !failed;
      OutcomeIsDecided(world.table[order.key], order, answer);
      Perform(Save(me, failed));
    }

    /** What was saved is read back; a publisher that reserved nothing reads the row of another. */
    method ReadReceipt(me: int, order: Order)
      returns (receipt: Option<Report>, ghost readBack: bool, ghost seen: Option<Report>)
      requires Valid() && me in world.publishers && world.publishers[me].order == order
      requires world.publishers[me].Reading? || world.publishers[me].Rereading? || world.publishers[me].Refused?
      modifies this
      ensures Valid() && Later(old(world)) && me in world.publishers
      ensures receipt.Some? ==> world.publishers[me] == Told(order, receipt.value)
      ensures receipt.Some? ==> order.key in world.table && world.table[order.key] == receipt.value
      ensures old(world).publishers[me].Refused? ==> receipt.None?
      ensures old(world).publishers[me].Reading? ==> (receipt.Some? <==> readBack && old(world).publishers[me].sent)
      ensures old(world).publishers[me].Rereading? && seen.Some? ==>
        (receipt.Some? <==> seen.value.status.Published? && seen.value.hash == order.hash)
    {
      receipt, seen := None, None;
      Others(me);
      TraceKeepsInv(states, actions, |actions|);
      assert PublisherOk(world, me);
      var failed: bool := *;
      readBack := !failed;
      if !world.publishers[me].Refused? {
        if readBack && order.key in world.table {
          seen := Some(world.table[order.key]);
        }
        Perform(ReadBack(me, failed));
        if world.publishers[me].Told? {
          receipt := Some(world.publishers[me].receipt);
        }
      }
    }
  }
}
