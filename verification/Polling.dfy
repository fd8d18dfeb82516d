/**
 The loops that wait for a task: the extension's poller with back-off, the command line's poller,
 and the upload retry. What the outside answers, and how long things take, is given by functions
 of the attempt number, so that one theorem covers every behaviour of the server and the clock.
 */
module Polling {
  import opened Wrappers

  datatype Status = Queued | Running | Retrying | Completed | Failed | Cancelled

  predicate Terminal(s: Status) {
    s in {Completed, Failed, Cancelled}
  }

  datatype TaskRecord = TaskRecord(id: string, status: Status, result: Option<string>, error: Option<string>)

  datatype Reply = Answer(status: Status, result: Option<string>, error: Option<string>)
                 | Unavailable
                 | Fault(message: string)

  /**
   `reply(n)` answers poll `n`; `lag(n)` is the time round `n` takes beyond its back-off;
   `cancelled(n)` is whether the user has cancelled when round `n` starts.
   */
  datatype Outside = Outside(reply: nat -> Reply, lag: nat -> nat, cancelled: nat -> bool)

  const CEILING: nat := 5000

  function Min(a: int, b: int): int {
    if a <= b then a else b
  }

  function Max(a: int, b: int): int {
    if a <= b then b else a
  }

  // ---------------------------------------------------------------- what a run must look like

  /** Time passes in every round: there is a wait between polls, or a poll takes time. */
  ghost predicate Moves(wait: nat, lag: nat -> nat) {
    wait > 0 || forall n :: lag(n) > 0
  }

  /** The least time a round takes. */
  ghost function Shortest(pollMs: nat): nat {
    Max(1, Min(pollMs, CEILING))
  }

  /** How many polls in a row went unanswered just before poll `n`. */
  ghost function Unanswered(w: Outside, n: nat): nat {
    if n == 0 || !w.reply(n - 1).Unavailable? then 0 else Unanswered(w, n - 1) + 1
  }

  ghost function Pow2(k: nat): nat {
    if k == 0 then 1 else 2 * Pow2(k - 1)
  }

  /** The wait before a poll depends only on how many polls in a row went unanswered before it. */
  ghost function BackOff(pollMs: nat, unanswered: nat): nat {
    if unanswered < 3 then pollMs else Min(CEILING, pollMs * Pow2(unanswered - 2))
  }

  ghost function Elapsed(w: Outside, pollMs: nat, n: nat): nat {
    if n == 0 then 0 else Elapsed(w, pollMs, n - 1) + BackOff(pollMs, Unanswered(w, n - 1)) + w.lag(n - 1)
  }

  /** The last answered status and error, and the last result any answer carried. */
  ghost function Current(w: Outside, initial: TaskRecord, n: nat): TaskRecord {
    if n == 0 then initial
    else
      var before := Current(w, initial, n - 1);
      match w.reply(n - 1)
      case Answer(status, result, error) => TaskRecord(before.id, status, if result.Some? then result else before.result, error)
      case _ => before
  }

  ghost function Stored(w: Outside, initial: TaskRecord, n: nat): seq<TaskRecord> {
    if n == 0 then []
    else Stored(w, initial, n - 1) + (if w.reply(n - 1).Answer? then [Current(w, initial, n)] else [])
  }

  ghost predicate StartsPoll(w: Outside, pollMs: nat, maxMs: int, initial: TaskRecord, n: nat) {
    && !Terminal(Current(w, initial, n).status)
    && !w.cancelled(n)
    && Elapsed(w, pollMs, n) <= maxMs
  }

  /** Every round before `n` polls and is answered or goes unanswered; round `n` is the last. */
  ghost predicate StopsAt(w: Outside, pollMs: nat, maxMs: int, initial: TaskRecord, n: nat) {
    && (forall m | 0 <= m < n :: StartsPoll(w, pollMs, maxMs, initial, m) && !w.reply(m).Fault?)
    && (StartsPoll(w, pollMs, maxMs, initial, n) ==> w.reply(n).Fault?)
  }

  ghost function Outcome(w: Outside, pollMs: nat, maxMs: int, initial: TaskRecord, n: nat): TaskRecord {
    var current := Current(w, initial, n);
    if StartsPoll(w, pollMs, maxMs, initial, n) && w.reply(n).Fault?
    then current.(status := Failed, error := Some(w.reply(n).message))
    else if !Terminal(current.status) && w.cancelled(n) then current.(status := Cancelled)
    else current
  }

  ghost function Polls(w: Outside, pollMs: nat, maxMs: int, initial: TaskRecord, n: nat): nat {
    if StartsPoll(w, pollMs, maxMs, initial, n) then n + 1 else n
  }

  // ---------------------------------------------------------------- the extension's poller

  class TaskTracker {
    var upserts: seq<TaskRecord>

    constructor ()
      ensures upserts == []
    {
      upserts := [];
    }

    method PollUntilTerminal(initial: TaskRecord, pollMs: nat, maxMs: int, w: Outside)
      returns (r: TaskRecord, ghost rounds: nat)
      requires Moves(pollMs, w.lag)
      modifies this
      ensures StopsAt(w, pollMs, maxMs, initial, rounds)
      ensures r == Outcome(w, pollMs, maxMs, initial, rounds)
      ensures upserts == old(upserts) + Stored(w, initial, rounds)
                         + (if StartsPoll(w, pollMs, maxMs, initial, rounds) then [r] else [])
    {
      FirstRound(w, pollMs, initial);
      hide BackOff, Min, Current, Stored, Elapsed, Unanswered;
      var backoffMs := pollMs;
      var consecutiveUnavailable := 0;
      var current := initial;
      var now: nat := 0;
      var n: nat := 0;
      while !Terminal(current.status)
        invariant current == Current(w, initial, n)
        invariant now == Elapsed(w, pollMs, n)
        invariant consecutiveUnavailable == Unanswered(w, n)
        invariant backoffMs == BackOff(pollMs, consecutiveUnavailable) && (pollMs > 0 ==> backoffMs > 0)
        invariant upserts == old(upserts) + Stored(w, initial, n)
        invariant forall m | 0 <= m < n :: StartsPoll(w, pollMs, maxMs, initial, m) && !w.reply(m).Fault?
        decreases maxMs - now
      {
        if w.cancelled(n) {
          return current.(status := Cancelled), n;
        }
        if now > maxMs {
          return current, n;
        }
        BackOffStep(pollMs, consecutiveUnavailable);
        NextRound(w, pollMs, initial, n);
        now := now + backoffMs + w.lag(n);
        match w.reply(n) {
          case Answer(status, result, error) =>
            consecutiveUnavailable := 0;
            backoffMs := pollMs;
            current := TaskRecord(current.id, status, if result.Some? then result else current.result, error);
            upserts := upserts + [current];
          case Unavailable =>
            consecutiveUnavailable := consecutiveUnavailable + 1;
            if consecutiveUnavailable >= 3 {
              backoffMs := Min(CEILING, backoffMs * 2);
            }
          case Fault(message) =>
            var failed := current.(status := Failed, error := Some(message));
            upserts := upserts + [failed];
            return failed, n;
        }
        n := n + 1;
      }
      return current, n;
    }
  }

  lemma {:induction false} Pow2Positive(k: nat)
    ensures Pow2(k) >= 1
  {
    if k > 0 { Pow2Positive(k - 1); }
  }

  lemma Doubled(a: nat, b: nat)
    ensures a * (2 * b) == (a * b) * 2
  {
  }

  /** Doubling below the ceiling, one poll at a time, is the power of two cut at the ceiling. */
  lemma BackOffStep(pollMs: nat, k: nat)
    ensures BackOff(pollMs, k + 1) == (if k + 1 >= 3 then Min(CEILING, BackOff(pollMs, k) * 2) else BackOff(pollMs, k))
    ensures pollMs > 0 ==> BackOff(pollMs, k + 1) > 0
  {
    if k >= 3 {
      Pow2Positive(k - 2);
      Doubled(pollMs, Pow2(k - 2));
      assert pollMs * Pow2(k - 1) == pollMs * Pow2(k - 2) * 2;
      assert pollMs > 0 ==> pollMs * Pow2(k - 2) >= 1;
    } else if k == 2 {
      assert Pow2(1) == 2 * Pow2(0);
    }
  }

  lemma FirstRound(w: Outside, pollMs: nat, initial: TaskRecord)
    ensures BackOff(pollMs, Unanswered(w, 0)) == pollMs && Elapsed(w, pollMs, 0) == 0 && Unanswered(w, 0) == 0
    ensures Current(w, initial, 0) == initial && Stored(w, initial, 0) == []
  {
  }

  lemma NextRound(w: Outside, pollMs: nat, initial: TaskRecord, n: nat)
    ensures Elapsed(w, pollMs, n + 1) == Elapsed(w, pollMs, n) + BackOff(pollMs, Unanswered(w, n)) + w.lag(n)
    ensures Unanswered(w, n + 1) == (if w.reply(n).Unavailable? then Unanswered(w, n) + 1 else 0)
    ensures BackOff(pollMs, 0) == pollMs
    ensures var before, after := Current(w, initial, n), Current(w, initial, n + 1);
            match w.reply(n)
            case Answer(status, result, error) =>
              && after == TaskRecord(before.id, status, if result.Some? then result else before.result, error)
              && Stored(w, initial, n + 1) == Stored(w, initial, n) + [after]
            case _ => after == before && Stored(w, initial, n + 1) == Stored(w, initial, n)
  {
  }

  lemma {:induction false} BackOffBetween(pollMs: nat, k: nat)
    ensures Min(pollMs, 5000) <= BackOff(pollMs, k) <= Max(pollMs, 5000)
  {
    if k >= 3 {
      BackOffBetween(pollMs, k - 1);
      BackOffStep(pollMs, k - 1);
    }
  }

  lemma {:induction false} ElapsedGrows(w: Outside, pollMs: nat, n: nat)
    requires Moves(pollMs, w.lag)
    ensures Elapsed(w, pollMs, n) >= n * Shortest(pollMs)
  {
    if n > 0 {
      ElapsedGrows(w, pollMs, n - 1);
      BackOffBetween(pollMs, Unanswered(w, n - 1));
      assert n * Shortest(pollMs) == (n - 1) * Shortest(pollMs) + Shortest(pollMs);
    }
  }

  lemma Multiplied(a: int, b: int, d: nat)
    ensures a >= b ==> a * d >= b * d
  {
  }

  lemma QuotientBound(n: nat, d: nat, limit: int)
    requires d > 0 && n * d <= limit
    ensures n <= limit / d
  {
    var q := limit / d;
    assert limit == q * d + limit % d;
    assert (q + 1) * d == q * d + d;
    Multiplied(n, q + 1, d);
  }

  /** No more than one poll for each shortest back-off in the maximum wait, and one; none when it is negative. */
  lemma PollsBounded(w: Outside, pollMs: nat, maxMs: int, initial: TaskRecord, n: nat)
    requires Moves(pollMs, w.lag)
    requires StopsAt(w, pollMs, maxMs, initial, n)
    ensures Polls(w, pollMs, maxMs, initial, n) <= (if maxMs < 0 then 0 else maxMs / Shortest(pollMs) + 1)
  {
    hide BackOff, Elapsed, Current, Unanswered;
    var polls := Polls(w, pollMs, maxMs, initial, n);
    if polls > 0 {
      assert StartsPoll(w, pollMs, maxMs, initial, polls - 1);
      ElapsedGrows(w, pollMs, polls - 1);
      hide StartsPoll, StopsAt, Min;
      QuotientBound(polls - 1, Shortest(pollMs), maxMs);
    }
  }

  /** What comes back is terminal, unless the time is up; and a run has one stopping round only. */
  lemma TerminalOrTimedOut(w: Outside, pollMs: nat, maxMs: int, initial: TaskRecord, n: nat)
    requires StopsAt(w, pollMs, maxMs, initial, n)
    ensures var r := Outcome(w, pollMs, maxMs, initial, n);
            r.status !in {Completed, Failed, Cancelled} ==> Elapsed(w, pollMs, n) > maxMs && !w.cancelled(n) && r == Current(w, initial, n)
    ensures forall m: nat | StopsAt(w, pollMs, maxMs, initial, m) :: m == n
  {
  }

  /** Every round before the last one found the task unfinished, not cancelled and in time. */
  lemma EarlierRounds(w: Outside, pollMs: nat, maxMs: int, initial: TaskRecord, n: nat, m: nat)
    requires StopsAt(w, pollMs, maxMs, initial, n) && m < n
    ensures Current(w, initial, m).status !in {Completed, Failed, Cancelled} && !w.cancelled(m) && Elapsed(w, pollMs, m) <= maxMs
  {
    hide Current, Elapsed, Unanswered;
    assert StartsPoll(w, pollMs, maxMs, initial, m);
  }

  /** The record last written while polling is the one the poller holds. */
  lemma {:induction false} LastStoredIsCurrent(w: Outside, initial: TaskRecord, n: nat)
    ensures var s := Stored(w, initial, n);
            Current(w, initial, n) == (if s == [] then initial else s[|s| - 1])
  {
    if n > 0 { LastStoredIsCurrent(w, initial, n - 1); }
  }

  // ---------------------------------------------------------------- the command line's poller

  datatype Payload = Payload(status: string, body: string)

  predicate TerminalPayload(p: Payload) {
    p.status in {"completed", "failed", "cancelled"}
  }

  /** Time since the start when answer `n` has been read; `lag` covers the request and late wake-ups. */
  ghost function ReadAt(interval: nat, lag: nat -> nat, n: nat): nat {
    lag(n) + (if n == 0 then 0 else ReadAt(interval, lag, n - 1) + interval)
  }

  ghost predicate PollsAgain(get: nat -> Result<Payload, string>, interval: nat, timeout: int, lag: nat -> nat, n: nat) {
    get(n).Success? && !TerminalPayload(get(n).value) && ReadAt(interval, lag, n) <= timeout
  }

  method PollTask(get: nat -> Result<Payload, string>, interval: nat, timeout: int, lag: nat -> nat)
    returns (r: Result<Payload, string>, polls: nat)
    requires Moves(interval, lag)
    ensures polls >= 1
    ensures forall m | 0 <= m < polls - 1 :: PollsAgain(get, interval, timeout, lag, m)
    ensures !PollsAgain(get, interval, timeout, lag, polls - 1)
    ensures r.Success? ==> r == get(polls - 1) && TerminalPayload(r.value)
    ensures r.Failure? && get(polls - 1).Success? ==> r.error == "TIMEOUT" && ReadAt(interval, lag, polls - 1) > timeout
    ensures get(polls - 1).Failure? ==> r == get(polls - 1)
    ensures get(polls - 1).Success? && get(polls - 1).value.status in {"completed", "failed", "cancelled"} ==> r.Success?
    ensures r.Success? ==> r.value.status in {"completed", "failed", "cancelled"}
    ensures forall m | 0 <= m < polls - 1 :: get(m).Success? && get(m).value.status !in {"completed", "failed", "cancelled"}
    ensures polls <= (if timeout < 0 then 1 else timeout / Max(1, interval) + 2)
  {
    polls := 0;
    var now: nat := 0;
    while true
      invariant forall m | 0 <= m < polls :: PollsAgain(get, interval, timeout, lag, m)
      invariant now == (if polls == 0 then 0 else ReadAt(interval, lag, polls - 1) + interval)
      invariant polls > 0 ==> now <= timeout + interval
      decreases timeout + interval - now
    {
      var payload := get(polls);
      now := now + lag(polls);
      polls := polls + 1;
      PollsInTime(interval, lag, polls - 1);
      assert polls > 1 ==> PollsAgain(get, interval, timeout, lag, polls - 2);
      if polls > 1 {
        QuotientBound(polls - 2, Max(1, interval), timeout);
      }
      StillRunning(get, interval, timeout, lag, polls - 1);
      if payload.Failure? {
        return payload, polls;
      }
      if TerminalPayload(payload.value) {
        return payload, polls;
      }
      if now > timeout {
        return Failure("TIMEOUT"), polls;
      }
      now := now + interval;
    }
  }

  lemma StillRunning(get: nat -> Result<Payload, string>, interval: nat, timeout: int, lag: nat -> nat, n: nat)
    requires forall m | 0 <= m < n :: PollsAgain(get, interval, timeout, lag, m)
    ensures forall m | 0 <= m < n :: get(m).Success? && get(m).value.status !in {"completed", "failed", "cancelled"}
  {
    forall m | 0 <= m < n ensures get(m).Success? && get(m).value.status !in {"completed", "failed", "cancelled"} {
      assert PollsAgain(get, interval, timeout, lag, m);
    }
  }

  lemma {:induction false} PollsInTime(interval: nat, lag: nat -> nat, n: nat)
    requires Moves(interval, lag)
    ensures ReadAt(interval, lag, n) >= n * Max(1, interval)
    ensures n > 0 ==> ReadAt(interval, lag, n - 1) >= (n - 1) * Max(1, interval)
  {
    if n > 0 {
      PollsInTime(interval, lag, n - 1);
      assert n * Max(1, interval) == (n - 1) * Max(1, interval) + Max(1, interval);
    }
  }

  // ---------------------------------------------------------------- the upload retry

  /** One upload attempt: `code` is 0 when no response came, a file could not be read included. */
  datatype Attempt = Attempt(code: nat, outcome: Result<Payload, string>)

  predicate Retried(a: Attempt) {
    a.outcome.Failure? && !(400 <= a.code < 500)
  }

  const BACKOFFS: seq<nat> := [1, 4, 16]

  ghost function Slept(attempts: nat): nat
    requires attempts <= 4
  {
    if attempts <= 1 then 0 else Slept(attempts - 1) + BACKOFFS[attempts - 2]
  }

  /** The answer is that of the first attempt not to be retried, or of the fourth. */
  method PostMultipartImport(attempt: nat -> Attempt) returns (r: Result<Payload, string>, attempts: nat, slept: nat)
    ensures 1 <= attempts <= 4
    ensures forall m | 0 <= m < attempts - 1 :: Retried(attempt(m))
    ensures attempts < 4 ==> !Retried(attempt(attempts - 1))
    ensures r == attempt(attempts - 1).outcome
    ensures slept == Slept(attempts) == (if attempts == 1 then 0 else if attempts == 2 then 1 else if attempts == 3 then 1 + 4 else 1 + 4 + 16)
    ensures forall m | 0 <= m < attempts - 1 :: attempt(m).outcome.Failure? && !(400 <= attempt(m).code < 500)
  {
    var lastErr := Failure("");
    slept := 0;
    attempts := 0;
    while attempts <= |BACKOFFS|
      invariant attempts <= 4 && slept == Slept(attempts)
      invariant forall m | 0 <= m < attempts :: Retried(attempt(m))
      invariant attempts > 0 ==> lastErr == attempt(attempts - 1).outcome
    {
      if attempts > 0 {
        slept := slept + BACKOFFS[attempts - 1];
      }
      var a := attempt(attempts);
      attempts := attempts + 1;
      if a.outcome.Success? {
        return a.outcome, attempts, slept;
      }
      if 400 <= a.code < 500 {
        return a.outcome, attempts, slept;
      }
      lastErr := a.outcome;
    }
    return lastErr, attempts, slept;
  }
}
