/**
 The gate around one worker delivery: which errors are turned into a retry row, and what the caller is told.
 Go errors form a tree: leaves are Telegram API errors or foreign errors, inner nodes wrap one error or join several.
*/
module DeliveryErrors {
  import opened Prelude
  import opened RetryLedger

  datatype ApiError = ApiError(statusCode: int, ambiguous: bool)

  datatype Err =
    | Api(error: ApiError)
    | Foreign
    | Wrap(inner: Err)
    | Join(parts: seq<Err>)

  /** Recursion of onlyTelegramErrors. */
  predicate OnlyTelegram(e: Err) {
    match e
    case Api(_) => true
    case Foreign => false
    case Wrap(inner) => OnlyTelegram(inner)
    case Join(parts) => forall p <- parts :: OnlyTelegram(p)
  }

  /** errors.As: the first API error in depth-first order. */
  function FirstApi(e: Err): Option<ApiError> {
    match e
    case Api(error) => Some(error)
    case Foreign => None
    case Wrap(inner) => FirstApi(inner)
    case Join(parts) => FirstApiOf(parts)
  }

  function FirstApiOf(parts: seq<Err>): Option<ApiError> {
    if parts == [] then None
    else match FirstApi(parts[0])
      case Some(a) => Some(a)
      case None => FirstApiOf(parts[1..])
  }

  /** The leaves of an error tree from left to right. */
  function Leaves(e: Err): seq<Err> {
    match e
    case Api(_) => [e]
    case Foreign => [e]
    case Wrap(inner) => Leaves(inner)
    case Join(parts) => LeavesOf(parts)
  }

  function LeavesOf(parts: seq<Err>): seq<Err> {
    if parts == [] then [] else Leaves(parts[0]) + LeavesOf(parts[1..])
  }

  /** Both recursions read the leaf sequence: no foreign leaf may occur, and the verdict is that of the first leaf. */
  lemma {:induction false} ClassificationReadsLeaves(e: Err)
    ensures OnlyTelegram(e) <==> forall l <- Leaves(e) :: l.Api?
    ensures OnlyTelegram(e) ==> FirstApi(e) == if Leaves(e) == [] then None else Some(Leaves(e)[0].error)
    decreases e, 0
  {
    match e
    case Api(_) =>
    case Foreign =>
    case Wrap(inner) => ClassificationReadsLeaves(inner);
    case Join(parts) =>
      PartsReadLeaves(parts);
  }

  lemma {:induction false} PartsReadLeaves(parts: seq<Err>)
    ensures (forall p <- parts :: OnlyTelegram(p)) <==> forall l <- LeavesOf(parts) :: l.Api?
    ensures (forall p <- parts :: OnlyTelegram(p)) ==>
              FirstApiOf(parts) == if LeavesOf(parts) == [] then None else Some(LeavesOf(parts)[0].error)
    decreases parts, 1
  {
    if parts != [] {
      ClassificationReadsLeaves(parts[0]);
      PartsReadLeaves(parts[1..]);
      assert parts == [parts[0]] + parts[1..];
    }
  }

  /** A cause is turned into a retry row exactly when it has leaves and all of them are API errors. */
  predicate Retryable(cause: Err) {
    OnlyTelegram(cause) && FirstApi(cause).Some?
  }

  predicate ServiceWide(statusCode: int) {
    statusCode == 401 || statusCode == 429 || statusCode >= 500 || statusCode == 0
  }

  /** A cancelled caller still records an ambiguous send, and nothing else. */
  predicate MustRecord(cause: Err, cancelled: bool) {
    Retryable(cause) && (!cancelled || FirstApi(cause).value.ambiguous)
  }

  method OnlyTelegramErrors(e: Err) returns (r: bool)
    ensures r <==> OnlyTelegram(e)
  {
    match e {
      case Join(parts) =>
        for i := 0 to |parts|
          invariant forall k :: 0 <= k < i ==> OnlyTelegram(parts[k])
        {
          var part := OnlyTelegramErrors(parts[i]);
          if !part {
            return false;
          }
        }
        return true;
      case Wrap(inner) => r := OnlyTelegramErrors(inner);
      case Api(_) => r := true;
      case Foreign => r := false;
    }
  }

  /**
   The ledger statement is issued exactly when the failure must be recorded; `wrote` tells whether it went
   through. Only a recorded, unambiguous, not service-wide failure lets the caller go on.
  */
  method Defer(ledger: Ledger, key: Key, now: int, cause: Err, cancelled: bool)
    returns (err: Option<Err>, tried: bool, wrote: bool)
    modifies ledger
    ensures tried <==> OnlyTelegram(cause) && FirstApi(cause).Some? && (cancelled ==> FirstApi(cause).value.ambiguous)
    ensures wrote ==> tried
    ensures ledger.rows == if wrote then Recorded(old(ledger.rows), key, now, FirstApi(cause).value.ambiguous)
                           else old(ledger.rows)
    ensures err.None? <==>
      wrote && !FirstApi(cause).value.ambiguous && FirstApi(cause).value.statusCode !in {0, 401, 429}
      && FirstApi(cause).value.statusCode < 500
  {
    tried, wrote := false, false;
    var only := OnlyTelegramErrors(cause);
    var api := FirstApi(cause);
    if !only || api.None? {
      return Some(cause), false, false;
    }
    if cancelled && !api.value.ambiguous {
      return Some(Join([cause, Foreign])), false, false;
    }
    tried := true;
    wrote := ledger.RecordDeliveryFailure(key, now, api.value.ambiguous);
    if !wrote {
      return Some(Join([cause, Foreign])), true, false;
    }
    if api.value.ambiguous || ServiceWide(api.value.statusCode) {
      return Some(Wrap(cause)), true, true;
    }
    return None, true, true;
  }

  /**
   Run on the ledger row of one key is one step of the gated life of that key with a single clock: the closure
   is called exactly when the gate is open, and then the row moves as the attempt says. `outcome` is how the
   closure would end, None standing for success.
  */
  method Run(ledger: Ledger, key: Key, now: int, outcome: Option<Err>, cancelled: bool)
    returns (err: Option<Err>, called: bool, ghost attempt: Attempt, ghost asked: bool)
    modifies ledger
    ensures called <==> asked && Ready(old(ledger.rows), key, now)
    ensures !asked ==> ledger.rows == old(ledger.rows) && err.Some?
    ensures asked && !called ==> err.None?
    ensures asked ==>
      && attempt.gate == attempt.now == now
      && forall failures ::
           Find(ledger.rows, key) == Advance(Trail(Find(old(ledger.rows), key), failures), attempt).entry
    ensures called ==>
      match outcome
      case None => !attempt.result.Failed?
      case Some(cause) =>
        && !attempt.result.Succeeded?
        && (attempt.result.Failed? ==> MustRecord(cause, cancelled) && attempt.result.suspend == FirstApi(cause).value.ambiguous)
        && (err.None? <==> (
              && attempt.result == Failed(false)
              && FirstApi(cause).value.statusCode !in {0, 401, 429} && FirstApi(cause).value.statusCode < 500))
    ensures called && outcome.None? ==> (err.None? <==> attempt.result.Succeeded?)
    ensures forall other :: other != key ==> Find(ledger.rows, other) == Find(old(ledger.rows), other)
  {
    called, asked := false, false;
    attempt := Attempt(now, now, Unrecorded);
    var ready, ok := ledger.DeliveryReady(key, now);
    if !ok {
      return Some(Foreign), false, attempt, false;
    }
    asked := true;
    if !ready {
      return None, false, attempt, true;
    }
    called := true;
    match outcome {
      case Some(cause) =>
        var tried, wrote;
        err, tried, wrote := Defer(ledger, key, now, cause, cancelled);
        if wrote {
          attempt := Attempt(now, now, Failed(FirstApi(cause).value.ambiguous));
        }
      case None =>
        ok := ledger.ClearDeliveryRetry(key);
        err := if ok then None else Some(Foreign);
        if ok {
          attempt := Attempt(now, now, Succeeded);
        }
    }
  }
}
