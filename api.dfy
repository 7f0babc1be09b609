/** The request helper and the auth helpers of src/lib/api.ts. The network
    is a function from the attempt number to what that attempt produced, and
    the sleeps are recorded as events instead of being waited for. */
module Api {
  import opened Common

  /** What one attempt produced: a response with `ok` and its JSON body, a
      non-ok response with its status and the `detail` of its JSON body (if
      any), or an exception (the network failed, or the body of an ok
      response was not JSON). */
  datatype Attempt = Ok(body: string) | HttpError(status: int, detail: Option<string>) | Thrown(message: string)

  /** `APIError(message, status)` or a plain `Error(message)`. */
  datatype Error = ApiError(message: string, status: int) | PlainError(message: string)

  datatype Outcome = Returned(body: string) | Threw(error: Error)

  /** The effects of the loop, in order. */
  datatype Event = Fetch(attempt: nat) | Sleep(ms: int)

  datatype Trace = Trace(outcome: Outcome, events: seq<Event>)

  /** The error caught for a failed attempt; an empty `detail` is falsy. */
  function ErrorOf(a: Attempt): (e: Error)
    requires !a.Ok?
    ensures a.HttpError? <==> e.ApiError?
    ensures a.HttpError? ==> e.status == a.status
  {
    match a
    case HttpError(status, detail) =>
      ApiError(if detail.Some? && detail.value != "" then detail.value
               else "Request failed with status " + IntToString(status), status)
    case Thrown(m) => PlainError(m)
  }

  /** `error instanceof APIError && 400 <= error.status < 500`. */
  predicate IsClientError(a: Attempt) {
    a.HttpError? && 400 <= a.status < 500
  }

  /** A failed attempt after which the loop goes on. */
  predicate Retryable(a: Attempt) {
    !a.Ok? && !IsClientError(a)
  }

  /** The loop from `attempt` on, having caught `lastError` so far. */
  function RunFrom(fetch: nat -> Attempt, retries: int, delay: int, attempt: nat, lastError: Option<Error>): (t: Trace)
    ensures attempt > retries ==> t == Trace(Threw(lastError.GetOr(PlainError("Request failed"))), [])
    decreases retries + 1 - attempt
  {
    if attempt > retries then Trace(Threw(lastError.GetOr(PlainError("Request failed"))), [])
    else
      var a := fetch(attempt);
      if a.Ok? then Trace(Returned(a.body), [Fetch(attempt)])
      else if IsClientError(a) then Trace(Threw(ErrorOf(a)), [Fetch(attempt)])
      else
        var rest := RunFrom(fetch, retries, delay, attempt + 1, Some(ErrorOf(a)));
        Trace(rest.outcome, [Fetch(attempt)] + (if attempt < retries then [Sleep(delay * (attempt + 1))] else []) + rest.events)
  }

  /** The whole request. */
  function Run(fetch: nat -> Attempt, retries: int, delay: int): (t: Trace)
    ensures retries < 0 ==> t == Trace(Threw(PlainError("Request failed")), [])
  {
    RunFrom(fetch, retries, delay, 0, None)
  }

  /** `apiRequest`: `retries` and `retryDelay` default to 2 and 1000 when
      not given. */
  method ApiRequest(fetch: nat -> Attempt, retriesOpt: Option<int>, retryDelayOpt: Option<int>)
    returns (outcome: Outcome, events: seq<Event>)
    ensures Trace(outcome, events) == Run(fetch, retriesOpt.GetOr(2), retryDelayOpt.GetOr(1000))
  {
    var retries := retriesOpt.GetOr(2);
    var retryDelay := retryDelayOpt.GetOr(1000);
    ghost var whole := Run(fetch, retries, retryDelay);
    var lastError: Option<Error> := None;
    events := [];
    var attempt: nat := 0;
    while attempt <= retries
      invariant whole == Prepend(events, RunFrom(fetch, retries, retryDelay, attempt, lastError))
      decreases retries + 1 - attempt
    {
      var a := fetch(attempt);
      if a.Ok? {
        RunFromStop(fetch, retries, retryDelay, attempt, lastError);
        return Returned(a.body), events + [Fetch(attempt)];
      }
      var error := ErrorOf(a);
      if IsClientError(a) {
        RunFromStop(fetch, retries, retryDelay, attempt, lastError);
        return Threw(error), events + [Fetch(attempt)];
      }
      var step := [Fetch(attempt)];
      if attempt < retries {
        step := step + [Sleep(retryDelay * (attempt + 1))];
        RunFromRetry(fetch, retries, retryDelay, attempt, lastError);
      } else {
        RunFromLast(fetch, retries, retryDelay, attempt, lastError);
      }
      PrependTwice(events, step, RunFrom(fetch, retries, retryDelay, attempt + 1, Some(error)));
      events := events + step;
      lastError := Some(error);
      attempt := attempt + 1;
    }
    assert RunFrom(fetch, retries, retryDelay, attempt, lastError).events == [];
    assert events + [] == events;
    outcome := Threw(lastError.GetOr(PlainError("Request failed")));
  }

  /** The events `ev` happen before the rest of the trace `t`. */
  function Prepend(ev: seq<Event>, t: Trace): (r: Trace)
    ensures r.outcome == t.outcome && |r.events| == |ev| + |t.events|
  {
    Trace(t.outcome, ev + t.events)
  }

  lemma PrependTwice(a: seq<Event>, b: seq<Event>, t: Trace)
    ensures Prepend(a, Prepend(b, t)) == Prepend(a + b, t)
  {
    assert a + (b + t.events) == (a + b) + t.events;
  }

  /** The events of attempts `from .. to-1`, each failed and followed by its
      sleep. */
  function FailedAttempts(from: nat, to: nat, delay: int): (r: seq<Event>)
    requires from <= to
    ensures |r| == 2 * (to - from)
    decreases (to as int) - (from as int)
  {
    if from == to then [] else [Fetch(from), Sleep(delay * (from + 1))] + FailedAttempts(from + 1, to, delay)
  }

  /** The shape of the failed part: attempt `from + j` at `2j`, its sleep of
      `delay * (from + j + 1)` right after. */
  lemma {:induction false} FailedAttemptsAt(from: nat, to: nat, delay: int, j: nat)
    requires from <= to && j < to - from
    ensures FailedAttempts(from, to, delay)[2 * j] == Fetch(from + j)
    ensures FailedAttempts(from, to, delay)[2 * j + 1] == Sleep(delay * (from + j + 1))
    decreases j
  {
    if j > 0 {
      FailedAttemptsAt(from + 1, to, delay, j - 1);
    }
  }

  /** An ok response or a 4xx error ends the loop at the attempt that got it. */
  lemma RunFromStop(fetch: nat -> Attempt, retries: int, delay: int, attempt: nat, lastError: Option<Error>)
    requires attempt <= retries && !Retryable(fetch(attempt))
    ensures RunFrom(fetch, retries, delay, attempt, lastError)
              == Trace(if fetch(attempt).Ok? then Returned(fetch(attempt).body) else Threw(ErrorOf(fetch(attempt))),
                       [Fetch(attempt)])
  {
  }

  /** A retryable failure at the last attempt is not followed by a sleep. */
  lemma RunFromLast(fetch: nat -> Attempt, retries: int, delay: int, attempt: nat, lastError: Option<Error>)
    requires attempt == retries && Retryable(fetch(attempt))
    ensures RunFrom(fetch, retries, delay, attempt, lastError)
              == Prepend([Fetch(attempt)], RunFrom(fetch, retries, delay, attempt + 1, Some(ErrorOf(fetch(attempt)))))
  {
  }

  /** One retryable failure before the last attempt: its fetch, its sleep,
      then the loop goes on with its error. */
  lemma RunFromRetry(fetch: nat -> Attempt, retries: int, delay: int, attempt: nat, lastError: Option<Error>)
    requires attempt < retries && Retryable(fetch(attempt))
    ensures RunFrom(fetch, retries, delay, attempt, lastError)
              == Prepend([Fetch(attempt), Sleep(delay * (attempt + 1))],
                         RunFrom(fetch, retries, delay, attempt + 1, Some(ErrorOf(fetch(attempt)))))
  {
  }

  /** Retryable failures from `attempt` up to `k` contribute their fetch and
      sleep each, and the loop resumes at `k` holding the error of `k - 1`. */
  lemma {:induction false} RunSkipsFailures(fetch: nat -> Attempt, retries: int, delay: int,
                                             attempt: nat, k: nat, lastError: Option<Error>)
    requires attempt < k <= retries
    requires forall j :: attempt <= j < k ==> Retryable(fetch(j))
    ensures Retryable(fetch(k - 1))
    ensures RunFrom(fetch, retries, delay, attempt, lastError)
              == Prepend(FailedAttempts(attempt, k, delay), RunFrom(fetch, retries, delay, k, Some(ErrorOf(fetch(k - 1)))))
    decreases k - attempt
  {
    assert Retryable(fetch(attempt));
    var step := [Fetch(attempt), Sleep(delay * (attempt + 1))];
    RunFromRetry(fetch, retries, delay, attempt, lastError);
    assert FailedAttempts(attempt, k, delay) == step + FailedAttempts(attempt + 1, k, delay);
    if attempt + 1 < k {
      RunSkipsFailures(fetch, retries, delay, attempt + 1, k, Some(ErrorOf(fetch(attempt))));
      PrependTwice(step, FailedAttempts(attempt + 1, k, delay),
                   RunFrom(fetch, retries, delay, k, Some(ErrorOf(fetch(k - 1)))));
    } else {
      assert step + [] == step;
    }
  }

  /** The first ok response is returned, after `k` retryable failures. */
  lemma ReturnsFirstOk(fetch: nat -> Attempt, retries: int, delay: int, k: nat)
    requires k <= retries && fetch(k).Ok?
    requires forall j :: 0 <= j < k ==> Retryable(fetch(j))
    ensures Run(fetch, retries, delay) == Trace(Returned(fetch(k).body), FailedAttempts(0, k, delay) + [Fetch(k)])
  {
    if k > 0 {
      RunSkipsFailures(fetch, retries, delay, 0, k, None);
    }
  }

  /** A 4xx error is thrown at once: no further attempt and no sleep. */
  lemma ClientErrorRethrown(fetch: nat -> Attempt, retries: int, delay: int, k: nat)
    requires k <= retries && IsClientError(fetch(k))
    requires forall j :: 0 <= j < k ==> Retryable(fetch(j))
    ensures Run(fetch, retries, delay) == Trace(Threw(ErrorOf(fetch(k))), FailedAttempts(0, k, delay) + [Fetch(k)])
    ensures Run(fetch, retries, delay).outcome.error.ApiError?
    ensures 400 <= Run(fetch, retries, delay).outcome.error.status < 500
  {
    if k > 0 {
      RunSkipsFailures(fetch, retries, delay, 0, k, None);
    }
  }

  /** When every attempt fails retryably, the error of the last one is
      thrown and there is no sleep after it. */
  lemma ExhaustedThrowsLast(fetch: nat -> Attempt, retries: int, delay: int)
    requires retries >= 0
    requires forall j :: 0 <= j <= retries ==> Retryable(fetch(j))
    ensures Retryable(fetch(retries))
    ensures Run(fetch, retries, delay) == Trace(Threw(ErrorOf(fetch(retries))), FailedAttempts(0, retries, delay) + [Fetch(retries)])
  {
    if retries > 0 {
      RunSkipsFailures(fetch, retries, delay, 0, retries, None);
    }
    assert RunFrom(fetch, retries, delay, retries + 1, Some(ErrorOf(fetch(retries)))).events == [];
  }

  /** With a negative retry count nothing is fetched and the generic error is
      thrown. */
  lemma NegativeRetriesFail(fetch: nat -> Attempt, retries: int, delay: int)
    requires retries < 0
    ensures Run(fetch, retries, delay) == Trace(Threw(PlainError("Request failed")), [])
  {
  }

  /** Every run has this shape for some stopping attempt `k <= retries`: its
      events are `k` failed attempts with their sleeps and then attempt `k`,
      so at most `retries + 1` fetches happen; three with the defaults. */
  lemma RunShape(fetch: nat -> Attempt, retries: int, delay: int)
    requires retries >= 0
    ensures exists k: nat :: k <= retries && (forall j :: 0 <= j < k ==> Retryable(fetch(j)))
              && Run(fetch, retries, delay).events == FailedAttempts(0, k, delay) + [Fetch(k)]
  {
    var k := FirstStop(fetch, retries, 0);
    if fetch(k).Ok? {
      ReturnsFirstOk(fetch, retries, delay, k);
    } else if IsClientError(fetch(k)) {
      ClientErrorRethrown(fetch, retries, delay, k);
    } else {
      ExhaustedThrowsLast(fetch, retries, delay);
    }
  }

  /** The first attempt from `k` on that is not retryable, or the last one. */
  lemma {:induction false} FirstStop(fetch: nat -> Attempt, retries: int, k: nat) returns (s: nat)
    requires k <= retries
    requires forall j :: 0 <= j < k ==> Retryable(fetch(j))
    ensures k <= s <= retries
    ensures forall j :: 0 <= j < s ==> Retryable(fetch(j))
    ensures s < retries ==> !Retryable(fetch(s))
    decreases retries - k
  {
    if k < retries && Retryable(fetch(k)) {
      s := FirstStop(fetch, retries, k + 1);
    } else {
      s := k;
    }
  }

  /** The number of fetches in a list of events. */
  function FetchCount(events: seq<Event>): (n: nat)
    ensures n <= |events|
    decreases |events|
  {
    if events == [] then 0 else FetchCount(events[..|events| - 1]) + (if events[|events| - 1].Fetch? then 1 else 0)
  }

  lemma FetchCountFailed(k: nat, delay: int)
    ensures FetchCount(FailedAttempts(0, k, delay) + [Fetch(k)]) == k + 1
  {
    FailedCount(k, delay);
    FetchCountSnoc(FailedAttempts(0, k, delay), Fetch(k));
  }

  /** `k` failed attempts hold `k` fetches. */
  lemma {:induction false} FailedCount(k: nat, delay: int)
    ensures FetchCount(FailedAttempts(0, k, delay)) == k
    decreases k
  {
    if k > 0 {
      FailedCount(k - 1, delay);
      FailedAttemptsSnoc(k - 1, delay);
      var p := FailedAttempts(0, k - 1, delay);
      SnocTwo(p, Fetch(k - 1), Sleep(delay * k));
      FetchCountSnoc(p, Fetch(k - 1));
      FetchCountSnoc(p + [Fetch(k - 1)], Sleep(delay * k));
    }
  }

  lemma FetchCountSnoc(events: seq<Event>, e: Event)
    ensures FetchCount(events + [e]) == FetchCount(events) + (if e.Fetch? then 1 else 0)
  {
    assert (events + [e])[..|events|] == events;
  }

  lemma SnocTwo(p: seq<Event>, a: Event, b: Event)
    ensures p + [a, b] == (p + [a]) + [b]
  {
  }

  lemma {:induction false} FailedAttemptsSnoc(k: nat, delay: int)
    ensures FailedAttempts(0, k + 1, delay) == FailedAttempts(0, k, delay) + [Fetch(k), Sleep(delay * (k + 1))]
  {
    var a := FailedAttempts(0, k + 1, delay);
    var b := FailedAttempts(0, k, delay) + [Fetch(k), Sleep(delay * (k + 1))];
    forall i | 0 <= i < |a| ensures a[i] == b[i] {
      FailedAttemptsAt(0, k + 1, delay, i / 2);
      if i < 2 * k {
        FailedAttemptsAt(0, k, delay, i / 2);
      }
    }
  }

  /** At most `retries + 1` attempts are made. */
  lemma AttemptsBounded(fetch: nat -> Attempt, retries: int, delay: int)
    requires retries >= 0
    ensures 1 <= FetchCount(Run(fetch, retries, delay).events) <= retries + 1
  {
    RunShape(fetch, retries, delay);
    var k: nat :| k <= retries && (forall j :: 0 <= j < k ==> Retryable(fetch(j)))
                 && Run(fetch, retries, delay).events == FailedAttempts(0, k, delay) + [Fetch(k)];
    FetchCountFailed(k, delay);
  }

  // ---------------------------------------------------------------------------
  // Auth helpers over `localStorage`

  /** The value passed to `setAuth`: `number | string`. */
  datatype UserIdValue = NumberId(n: int) | StringId(s: string)

  /** `userId.toString()` for an integer or a string. */
  function IdToString(u: UserIdValue): string {
    match u
    case NumberId(n) => IntToString(n)
    case StringId(s) => s
  }

  const UserIdKey := "user_id"
  const TokenKey := "token"

  class AuthStore {
    /** The items of `localStorage`. */
    var items: map<string, string>

    constructor(initial: map<string, string>)
      ensures items == initial
    {
      items := initial;
    }

    /** `getUserId()`: `null` when absent. */
    function GetUserId(): (r: Option<string>)
      reads this
      ensures r.Some? <==> UserIdKey in items
      ensures r.Some? ==> r.value == items[UserIdKey]
    {
      if UserIdKey in items then Some(items[UserIdKey]) else None
    }

    /** `getToken()`. */
    function GetToken(): (r: Option<string>)
      reads this
      ensures r.Some? <==> TokenKey in items
      ensures r.Some? ==> r.value == items[TokenKey]
    {
      if TokenKey in items then Some(items[TokenKey]) else None
    }

    /** `isAuthenticated()`: `!!getToken()`, false for a missing or empty token. */
    predicate IsAuthenticated()
      reads this
    {
      GetToken().Some? && GetToken().value != ""
    }

    /** `setAuth(userId, token)`. */
    method SetAuth(userId: UserIdValue, token: string)
      modifies this
      ensures items == old(items)[UserIdKey := IdToString(userId)][TokenKey := token]
      ensures GetUserId() == Some(IdToString(userId)) && GetToken() == Some(token)
      ensures IsAuthenticated() <==> token != ""
    {
      items := items[UserIdKey := IdToString(userId)];
      items := items[TokenKey := token];
    }

    /** `clearAuth()`: only the two keys go. */
    method ClearAuth()
      modifies this
      ensures items == old(items) - {UserIdKey, TokenKey}
      ensures GetUserId().None? && GetToken().None? && !IsAuthenticated()
    {
      items := items - {UserIdKey};
      items := items - {TokenKey};
    }
  }

  /** A numeric id stored by `setAuth` reads back through `parseInt`, for
      every id JavaScript represents exactly. */
  lemma StoredNumericIdParses(n: int)
    requires IsSafeInteger(n)
    ensures JsParseInt(IdToString(NumberId(n))) == Some(n)
  {
    ParseIntRoundTrip(n);
  }
}
