/**
 Callback data of the inline keyboards: the printers and the parser. A string is its bytes, one character each;
 ids are int64 and the item index is an int of 64 bits.
*/
module Callbacks {
  import opened Prelude

  datatype Status = Done | Partial | Failed

  datatype Callback =
    | SetupCheck
    | SetupStart
    | TodayAdd
    | RoutineConfigure
    | GoalsConfigure
    | TaskReport(task: int)
    | TaskStatus(task: int, status: Status)
    | AlertAck(alert: int)
    | RoutineItem(checkin: int, index: int, status: Status)
    | GoalFinalStatus(goalSet: int, status: Status)
    | GoalFinalComplete(goalSet: int)
    | NoticeDismiss(owner: int)

  datatype ParseError = TooLong | BadNumber | UnknownStatus | UnknownCallback

  datatype Result<+T> = Ok(value: T) | Err(error: ParseError)

  // ----- Numerals -----

  const MAX_INT64 := 0x7FFF_FFFF_FFFF_FFFF

  predicate IsInt64(n: int) {
    -MAX_INT64 - 1 <= n <= MAX_INT64
  }

  predicate IsDigit(c: char) {
    '0' <= c <= '9'
  }

  predicate AllDigits(s: string) {
    forall i :: 0 <= i < |s| ==> IsDigit(s[i])
  }

  function Value(digits: string): nat
    requires AllDigits(digits)
  {
    if digits == "" then 0 else 10 * Value(digits[..|digits| - 1]) + (digits[|digits| - 1] - '0') as int
  }

  function Digit(d: nat): (c: char)
    requires d < 10
    ensures IsDigit(c) && (c - '0') as int == d
  {
    '0' + d as char
  }

  function Decimal(n: nat): (s: string)
    ensures s != "" && AllDigits(s)
  {
    if n < 10 then [Digit(n)] else Decimal(n / 10) + [Digit(n % 10)]
  }

  /** The %d verb. */
  function Format(n: int): string {
    if n < 0 then "-" + Decimal(-n) else Decimal(n)
  }

  /** strconv.ParseInt in base 10 with 64 bits: an optional sign, then at least one digit, in range. */
  function ParseInt(s: string): Option<int> {
    var signed := s != "" && (s[0] == '-' || s[0] == '+');
    var digits := if signed then s[1..] else s;
    if digits == "" || !AllDigits(digits) then None
    else
      var size: int := Value(digits);
      var n := if s[0] == '-' then -size else size;
      if IsInt64(n) then Some(n) else None
  }

  lemma {:induction false} DecimalHasValue(n: nat)
    ensures Value(Decimal(n)) == n
  {
    if n < 10 {
      assert Decimal(n)[..0] == "";
    } else {
      DecimalHasValue(n / 10);
      assert Decimal(n)[..|Decimal(n)| - 1] == Decimal(n / 10);
    }
  }

  lemma DigitsParse(digits: string)
    requires digits != "" && AllDigits(digits)
    ensures ParseInt(digits) == if Value(digits) <= 0x7FFF_FFFF_FFFF_FFFF then Some(Value(digits)) else None
    ensures ParseInt("-" + digits) == if Value(digits) <= 0x8000_0000_0000_0000 then Some(-(Value(digits) as int)) else None
  {
    assert IsDigit(digits[0]);
    assert ("-" + digits)[1..] == digits;
  }

  lemma FormatParses(n: int)
    ensures ParseInt(Format(n)) == if -0x8000_0000_0000_0000 <= n <= 0x7FFF_FFFF_FFFF_FFFF then Some(n) else None
  {
    var size := if n < 0 then -n else n;
    DecimalHasValue(size);
    DigitsParse(Decimal(size));
  }

  lemma Int64Parses(n: int)
    requires IsInt64(n)
    ensures ParseInt(Format(n)) == Some(n)
  {
    FormatParses(n);
  }

  function Pow10(k: nat): nat {
    if k == 0 then 1 else 10 * Pow10(k - 1)
  }

  lemma {:induction false} DecimalLength(n: nat, k: nat)
    requires k >= 1 && n < Pow10(k)
    ensures |Decimal(n)| <= k
  {
    if n >= 10 {
      DecimalLength(n / 10, k - 1);
    }
  }

  lemma NineteenDigits()
    ensures MAX_INT64 + 1 < Pow10(19)
  {
    assert Pow10(4) == 10000;
    assert Pow10(8) == 100000000;
    assert Pow10(12) == 1000000000000;
    assert Pow10(16) == 10000000000000000;
  }

  lemma FormatLength(n: int)
    requires IsInt64(n)
    ensures |Format(n)| <= if n < 0 then 20 else 19
  {
    NineteenDigits();
    DecimalLength(if n < 0 then -n else n, 19);
  }

  /** No sign, and no leading zero before another digit. */
  predicate Canonical(s: string) {
    s != "" && AllDigits(s) && (|s| > 1 ==> s[0] != '0')
  }

  lemma {:induction false} DecimalIsCanonical(n: nat)
    ensures Canonical(Decimal(n)) && (Decimal(n)[0] == '0' ==> n == 0)
  {
    if n >= 10 {
      DecimalIsCanonical(n / 10);
    }
  }

  lemma {:induction false} CanonicalIsDecimal(s: string)
    requires Canonical(s)
    ensures Decimal(Value(s)) == s && (s[0] != '0' ==> Value(s) > 0)
  {
    var front, last := s[..|s| - 1], s[|s| - 1];
    assert s == front + [last];
    if |s| > 1 {
      CanonicalIsDecimal(front);
    } else {
      assert Value(front) == 0;
    }
  }

  lemma CanonicalNumerals(s: string, n: nat)
    requires ParseInt(s) == Some(n)
    ensures Canonical(s) <==> s == Format(n)
  {
    DecimalIsCanonical(n);
    if Canonical(s) {
      CanonicalIsDecimal(s);
    }
  }

  // ----- Splitting -----

  predicate NoColon(s: string) {
    forall i :: 0 <= i < |s| ==> s[i] != ':'
  }

  /** strings.Split with a colon. */
  function Split(s: string): (parts: seq<string>)
    ensures parts != []
  {
    if s == "" then [""]
    else
      var rest := Split(s[1..]);
      if s[0] == ':' then [""] + rest else [[s[0]] + rest[0]] + rest[1..]
  }

  function Join(parts: seq<string>): string
    requires parts != []
  {
    if |parts| == 1 then parts[0] else parts[0] + ":" + Join(parts[1..])
  }

  lemma {:induction false} JoinSplit(s: string)
    ensures Join(Split(s)) == s
  {
    if s != "" {
      var rest := Split(s[1..]);
      JoinSplit(s[1..]);
      if s[0] == ':' {
        assert ([""] + rest)[1..] == rest;
      } else {
        var parts := [[s[0]] + rest[0]] + rest[1..];
        assert parts[1..] == rest[1..];
      }
      assert s == [s[0]] + s[1..];
    }
  }

  lemma {:induction false} SplitPlain(s: string)
    requires NoColon(s)
    ensures Split(s) == [s]
  {
    if s != "" {
      SplitPlain(s[1..]);
      assert [s[0]] + s[1..] == s;
    }
  }

  lemma {:induction false} SplitFirst(head: string, rest: string)
    requires NoColon(head)
    ensures Split(head + ":" + rest) == [head] + Split(rest)
  {
    var s := head + ":" + rest;
    if head == "" {
      assert s[1..] == rest;
    } else {
      assert s[1..] == head[1..] + ":" + rest;
      SplitFirst(head[1..], rest);
      assert [head[0]] + head[1..] == head;
      assert ([head[1..]] + Split(rest))[1..] == Split(rest);
    }
  }

  lemma {:induction false} SplitJoin(parts: seq<string>)
    requires parts != [] && forall p <- parts :: NoColon(p)
    ensures Split(Join(parts)) == parts
  {
    if |parts| == 1 {
      SplitPlain(parts[0]);
    } else {
      SplitJoin(parts[1..]);
      SplitFirst(parts[0], Join(parts[1..]));
    }
  }

  // ----- Printing and parsing -----

  function StatusName(s: Status): (name: string)
    ensures NoColon(name)
  {
    match s
    case Done => "done"
    case Partial => "partial"
    case Failed => "failed"
  }

  function StatusOf(name: string): Option<Status> {
    if name == "done" then Some(Done)
    else if name == "partial" then Some(Partial)
    else if name == "failed" then Some(Failed)
    else None
  }

  /** The colon-separated parts of each button's data. */
  function PartsOf(cb: Callback): (parts: seq<string>)
    ensures parts != []
  {
    match cb
    case SetupCheck => ["setup", "check"]
    case SetupStart => ["setup", "start"]
    case TodayAdd => ["today", "add"]
    case RoutineConfigure => ["routine", "configure"]
    case GoalsConfigure => ["goals", "configure"]
    case TaskReport(task) => ["task", "report", Format(task)]
    case TaskStatus(task, status) => ["task", "status", Format(task), StatusName(status)]
    case AlertAck(alert) => ["alert", "ack", Format(alert)]
    case RoutineItem(checkin, index, status) => ["routine", "item", Format(checkin), Format(index), StatusName(status)]
    case GoalFinalStatus(goalSet, status) => ["goals", "final", Format(goalSet), StatusName(status)]
    case GoalFinalComplete(goalSet) => ["goals", "final", Format(goalSet), "complete"]
    case NoticeDismiss(owner) => ["notice", "dismiss", Format(owner)]
  }

  /** The callback data of each button. */
  function Print(cb: Callback): string {
    Join(PartsOf(cb))
  }

  function ParsePositiveID(s: string): Result<int> {
    var id := ParseInt(s);
    if id.None? || id.value <= 0 then Err(BadNumber) else Ok(id.value)
  }

  function ParseParts(parts: seq<string>): Result<Callback> {
    if |parts| == 3 && parts[0] == "task" && parts[1] == "report" then
      var id := ParsePositiveID(parts[2]);
      if id.Err? then Err(id.error) else Ok(TaskReport(id.value))
    else if |parts| == 4 && parts[0] == "task" && parts[1] == "status" then
      var id, status := ParsePositiveID(parts[2]), StatusOf(parts[3]);
      if id.Err? then Err(id.error)
      else if status.None? then Err(UnknownStatus)
      else Ok(TaskStatus(id.value, status.value))
    else if |parts| == 3 && parts[0] == "alert" && parts[1] == "ack" then
      var id := ParsePositiveID(parts[2]);
      if id.Err? then Err(id.error) else Ok(AlertAck(id.value))
    else if |parts| == 5 && parts[0] == "routine" && parts[1] == "item" then
      var id, index, status := ParsePositiveID(parts[2]), ParseInt(parts[3]), StatusOf(parts[4]);
      if id.Err? then Err(id.error)
      else if index.None? || index.value < 0 then Err(BadNumber)
      else if status.None? then Err(UnknownStatus)
      else Ok(RoutineItem(id.value, index.value, status.value))
    else if |parts| == 4 && parts[0] == "goals" && parts[1] == "final" then
      var id, status := ParsePositiveID(parts[2]), StatusOf(parts[3]);
      if id.Err? then Err(id.error)
      else if parts[3] == "complete" then Ok(GoalFinalComplete(id.value))
      else if status.None? then Err(UnknownStatus)
      else Ok(GoalFinalStatus(id.value, status.value))
    else if |parts| == 3 && parts[0] == "notice" && parts[1] == "dismiss" then
      var id := ParsePositiveID(parts[2]);
      if id.Err? then Err(id.error) else Ok(NoticeDismiss(id.value))
    else Err(UnknownCallback)
  }

  function ParseCallback(raw: string): Result<Callback> {
    if |raw| > 64 then Err(TooLong)
    else match raw
      case "setup:check" => Ok(SetupCheck)
      case "setup:start" => Ok(SetupStart)
      case "today:add" => Ok(TodayAdd)
      case "routine:configure" => Ok(RoutineConfigure)
      case "goals:configure" => Ok(GoalsConfigure)
      case _ => ParseParts(Split(raw))
  }

  // ----- The round trip -----

  /** Every number of the action is an int64. */
  predicate Representable(cb: Callback) {
    match cb
    case TaskReport(task) => IsInt64(task)
    case TaskStatus(task, _) => IsInt64(task)
    case AlertAck(alert) => IsInt64(alert)
    case RoutineItem(checkin, index, _) => IsInt64(checkin) && IsInt64(index)
    case GoalFinalStatus(goalSet, _) => IsInt64(goalSet)
    case GoalFinalComplete(goalSet) => IsInt64(goalSet)
    case NoticeDismiss(owner) => IsInt64(owner)
    case _ => true
  }

  /** The ids a database hands out are positive, and indexes count from zero. */
  predicate Meaningful(cb: Callback) {
    match cb
    case TaskReport(task) => task > 0
    case TaskStatus(task, _) => task > 0
    case AlertAck(alert) => alert > 0
    case RoutineItem(checkin, index, _) => checkin > 0 && index >= 0
    case GoalFinalStatus(goalSet, _) => goalSet > 0
    case GoalFinalComplete(goalSet) => goalSet > 0
    case NoticeDismiss(owner) => owner > 0
    case _ => true
  }

  predicate Fixed(cb: Callback) {
    cb.SetupCheck? || cb.SetupStart? || cb.TodayAdd? || cb.RoutineConfigure? || cb.GoalsConfigure?
  }

  lemma JoinTwo(a: string, b: string)
    ensures Join([a, b]) == a + ":" + b
  {
    assert [a, b][1..] == [b];
  }

  lemma JoinLength(parts: seq<string>)
    requires 2 <= |parts| <= 5
    ensures |parts| == 2 ==> |Join(parts)| == |parts[0]| + |parts[1]| + 1
    ensures |parts| == 3 ==> |Join(parts)| == |parts[0]| + |parts[1]| + |parts[2]| + 2
    ensures |parts| == 4 ==> |Join(parts)| == |parts[0]| + |parts[1]| + |parts[2]| + |parts[3]| + 3
    ensures |parts| == 5 ==> |Join(parts)| == |parts[0]| + |parts[1]| + |parts[2]| + |parts[3]| + |parts[4]| + 4
    decreases |parts|
  {
    if |parts| > 2 {
      JoinLength(parts[1..]);
    }
  }

  /** A printed callback fits the 64 bytes of callback data. */
  lemma PrintFits(cb: Callback)
    requires Representable(cb)
    ensures |Print(cb)| <= 64
  {
    JoinLength(PartsOf(cb));
    match cb
    case TaskReport(task) => FormatLength(task);
    case TaskStatus(task, _) => FormatLength(task);
    case AlertAck(alert) => FormatLength(alert);
    case RoutineItem(checkin, index, _) => FormatLength(checkin); FormatLength(index);
    case GoalFinalStatus(goalSet, _) => FormatLength(goalSet);
    case GoalFinalComplete(goalSet) => FormatLength(goalSet);
    case NoticeDismiss(owner) => FormatLength(owner);
    case _ =>
  }

  lemma PrintSplits(cb: Callback)
    ensures Split(Print(cb)) == PartsOf(cb)
  {
    NumeralsHaveNoColon(cb);
    SplitJoin(PartsOf(cb));
  }

  lemma FormatHasNoColon(n: int)
    ensures NoColon(Format(n))
  {
  }

  lemma NumeralsHaveNoColon(cb: Callback)
    ensures forall p <- PartsOf(cb) :: NoColon(p)
  {
    match cb
    case TaskReport(task) => FormatHasNoColon(task);
    case TaskStatus(task, _) => FormatHasNoColon(task);
    case AlertAck(alert) => FormatHasNoColon(alert);
    case RoutineItem(checkin, index, _) => FormatHasNoColon(checkin); FormatHasNoColon(index);
    case GoalFinalStatus(goalSet, _) => FormatHasNoColon(goalSet);
    case GoalFinalComplete(goalSet) => FormatHasNoColon(goalSet);
    case NoticeDismiss(owner) => FormatHasNoColon(owner);
    case _ =>
  }

  lemma FixedPrint()
    ensures Print(SetupCheck) == "setup:check"
    ensures Print(SetupStart) == "setup:start"
    ensures Print(TodayAdd) == "today:add"
    ensures Print(RoutineConfigure) == "routine:configure"
    ensures Print(GoalsConfigure) == "goals:configure"
  {
    JoinTwo("setup", "check");
    JoinTwo("setup", "start");
    JoinTwo("today", "add");
    JoinTwo("routine", "configure");
    JoinTwo("goals", "configure");
  }

  lemma NameParses(s: Status)
    ensures StatusOf(StatusName(s)) == Some(s) && StatusName(s) != "complete" && StatusOf("complete").None?
  {
    assert StatusName(s)[0] != "complete"[0] && "done"[0] != "complete"[0];
  }

  lemma TaskPartsParse(cb: Callback)
    requires Representable(cb) && (cb.TaskReport? || cb.TaskStatus?)
    ensures ParseParts(PartsOf(cb)) == if Meaningful(cb) then Ok(cb) else Err(BadNumber)
  {
    Int64Parses(cb.task);
    if cb.TaskStatus? {
      NameParses(cb.status);
    }
  }

  lemma RoutinePartsParse(cb: Callback)
    requires Representable(cb) && cb.RoutineItem?
    ensures ParseParts(PartsOf(cb)) == if Meaningful(cb) then Ok(cb) else Err(BadNumber)
  {
    Int64Parses(cb.checkin);
    Int64Parses(cb.index);
    NameParses(cb.status);
  }

  lemma GoalPartsParse(cb: Callback)
    requires Representable(cb) && (cb.GoalFinalStatus? || cb.GoalFinalComplete?)
    ensures ParseParts(PartsOf(cb)) == if Meaningful(cb) then Ok(cb) else Err(BadNumber)
  {
    Int64Parses(cb.goalSet);
    assert "goals"[0] != "task"[0];
    if cb.GoalFinalStatus? {
      NameParses(cb.status);
    }
  }

  lemma NoticePartsParse(cb: Callback)
    requires Representable(cb) && (cb.AlertAck? || cb.NoticeDismiss?)
    ensures ParseParts(PartsOf(cb)) == if Meaningful(cb) then Ok(cb) else Err(BadNumber)
  {
    Int64Parses(if cb.AlertAck? then cb.alert else cb.owner);
    assert "alert"[0] != "task"[0] && "notice"[0] != "task"[0] && "notice"[0] != "alert"[0];
  }

  lemma PartsParse(cb: Callback)
    requires Representable(cb) && !Fixed(cb)
    ensures ParseParts(PartsOf(cb)) == if Meaningful(cb) then Ok(cb) else Err(BadNumber)
  {
    if cb.TaskReport? || cb.TaskStatus? {
      TaskPartsParse(cb);
    } else if cb.RoutineItem? {
      RoutinePartsParse(cb);
    } else if cb.GoalFinalStatus? || cb.GoalFinalComplete? {
      GoalPartsParse(cb);
    } else {
      NoticePartsParse(cb);
    }
  }

  lemma OthersAreNotFixed(cb: Callback, fixed: Callback)
    requires !Fixed(cb) && Fixed(fixed)
    ensures Print(cb) != Print(fixed)
  {
    PrintSplits(cb);
    PrintSplits(fixed);
    assert |PartsOf(cb)| != |PartsOf(fixed)|;
  }

  /**
   For every action with int64 numbers the printed data is at most 64 bytes, and it parses back to exactly that
   action if and only if the ids are positive and the index is not negative.
  */
  lemma RoundTrip(cb: Callback)
    requires Representable(cb)
    ensures |Print(cb)| <= 64
    ensures ParseCallback(Print(cb)) == if Meaningful(cb) then Ok(cb) else Err(BadNumber)
  {
    PrintFits(cb);
    FixedPrint();
    if !Fixed(cb) {
      OthersAreNotFixed(cb, SetupCheck);
      OthersAreNotFixed(cb, SetupStart);
      OthersAreNotFixed(cb, TodayAdd);
      OthersAreNotFixed(cb, RoutineConfigure);
      OthersAreNotFixed(cb, GoalsConfigure);
      PrintSplits(cb);
      PartsParse(cb);
    }
  }

  /** Distinct actions never share their data. */
  lemma PrintIsInjective(a: Callback, b: Callback)
    requires Representable(a) && Meaningful(a) && Representable(b) && Meaningful(b)
    requires Print(a) == Print(b)
    ensures a == b
  {
    RoundTrip(a);
    RoundTrip(b);
  }

  // ----- What else the parser accepts -----

  predicate NumeralsCanonical(parts: seq<string>) {
    forall i :: 2 <= i < |parts| && ParseInt(parts[i]).Some? ==> Canonical(parts[i])
  }

  lemma NamesAreNoNumerals(name: string)
    requires StatusOf(name).Some? || name == "complete"
    ensures ParseInt(name).None? && (StatusOf(name).Some? ==> name == StatusName(StatusOf(name).value))
  {
    assert !IsDigit(name[0]);
  }

  lemma AcceptedThree(parts: seq<string>, cb: Callback)
    requires |parts| == 3 && ParseParts(parts) == Ok(cb)
    ensures Representable(cb) && Meaningful(cb) && !Fixed(cb)
    ensures parts == PartsOf(cb) <==> NumeralsCanonical(parts)
  {
    assert parts == [parts[0], parts[1], parts[2]];
    CanonicalNumerals(parts[2], ParseInt(parts[2]).value);
  }

  /** Four parts: two words, a numeral and a name. */
  lemma FourParts(parts: seq<string>, id: int)
    requires |parts| == 4 && ParseInt(parts[2]) == Some(id) && id > 0 && ParseInt(parts[3]).None?
    ensures NumeralsCanonical(parts) <==> parts == [parts[0], parts[1], Format(id), parts[3]]
  {
    assert parts == [parts[0], parts[1], parts[2], parts[3]];
    CanonicalNumerals(parts[2], id);
  }

  lemma AcceptedFour(parts: seq<string>, cb: Callback)
    requires |parts| == 4 && ParseParts(parts) == Ok(cb)
    ensures Representable(cb) && Meaningful(cb) && !Fixed(cb)
    ensures parts == PartsOf(cb) <==> NumeralsCanonical(parts)
  {
    NamesAreNoNumerals(parts[3]);
    FourParts(parts, ParseInt(parts[2]).value);
  }

  lemma AcceptedFive(parts: seq<string>, cb: Callback)
    requires |parts| == 5 && ParseParts(parts) == Ok(cb)
    ensures Representable(cb) && Meaningful(cb) && !Fixed(cb)
    ensures parts == PartsOf(cb) <==> NumeralsCanonical(parts)
  {
    assert parts == [parts[0], parts[1], parts[2], parts[3], parts[4]];
    NamesAreNoNumerals(parts[4]);
    CanonicalNumerals(parts[2], ParseInt(parts[2]).value);
    CanonicalNumerals(parts[3], ParseInt(parts[3]).value);
  }

  /**
   The parser accepts only meaningful actions; the data it accepts is the printed data of the action exactly
   when its numerals carry no sign and no leading zero.
  */
  lemma OnlyNumeralsVary(raw: string, cb: Callback)
    requires ParseCallback(raw) == Ok(cb)
    ensures Representable(cb) && Meaningful(cb)
    ensures raw == Print(cb) <==> Fixed(cb) || NumeralsCanonical(Split(raw))
  {
    FixedPrint();
    if ParseParts(Split(raw)) == Ok(cb) {
      var parts := Split(raw);
      if |parts| == 3 {
        AcceptedThree(parts, cb);
      } else if |parts| == 4 {
        AcceptedFour(parts, cb);
      } else {
        AcceptedFive(parts, cb);
      }
      JoinSplit(raw);
      PrintSplits(cb);
    }
  }

  /** Any spelling of a positive id names the same task. */
  lemma SpellingsAgree(numeral: string, id: int)
    requires ParseInt(numeral) == Some(id) && id > 0 && |numeral| <= 52
    ensures ParseCallback(Join(["task", "report", numeral])) == Ok(TaskReport(id))
  {
    var parts := ["task", "report", numeral];
    forall i | 0 <= i < |numeral| ensures numeral[i] != ':' {
      assert i > 0 ==> numeral[i] == numeral[1..][i - 1];
    }
    SplitJoin(parts);
    JoinLength(parts);
    FixedPrint();
    forall fixed: Callback | Fixed(fixed) ensures Join(parts) != Print(fixed) {
      PrintSplits(fixed);
    }
  }

  /** Accepted data is not unique: a sign or a leading zero names the same action. */
  lemma SignedIdIsAccepted()
    ensures ParseCallback(Join(["task", "report", "+7"])) == ParseCallback(Join(["task", "report", "07"])) == Ok(TaskReport(7))
  {
    assert "+7"[1..] == "7" && "7"[..0] == "" && "07"[..1] == "0" && "0"[..0] == "";
    assert Value("7") == 7 && Value("0") == 0;
    assert ParseInt("+7") == Some(7) && ParseInt("07") == Some(7);
    SpellingsAgree("+7", 7);
    SpellingsAgree("07", 7);
  }
}
