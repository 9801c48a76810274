/**
 * The AI-call wrapper of services/geminiService.ts: the API-key pool, the
 * rotation cursor, the retry loop that sorts every failure into quota,
 * overload or other, and the MIME-type fallback for uploaded files.
 *
 * The SDK call is abstract: a `Service` maps the key handed to the client and
 * the attempt number to the outcome of that attempt.
 */
module Gemini {
  import opened Common
  import opened Text

  // ---------------------------------------------------------------------------
  // Key pool

  function TrimPieces(pieces: seq<string>): (r: seq<string>)
    ensures |r| == |pieces|
    ensures forall i :: 0 <= i < |r| ==> r[i] == Trim(pieces[i])
  {
    if |pieces| == 0 then [] else [Trim(pieces[0])] + TrimPieces(pieces[1..])
  }

  function DropEmpty(pieces: seq<string>): (r: seq<string>)
    ensures forall i :: 0 <= i < |r| ==> r[i] != ""
    ensures forall x :: x in r <==> x in pieces && x != ""
  {
    if |pieces| == 0 then []
    else if pieces[0] == "" then DropEmpty(pieces[1..])
    else [pieces[0]] + DropEmpty(pieces[1..])
  }

  /** The key pool built from the `API_KEY` setting (the empty string when it is unset). */
  function ParseKeys(config: string): seq<string>
  {
    DropEmpty(TrimPieces(Split(config, ',')))
  }

  /** A key as it can appear in the pool. */
  predicate CleanKey(k: string) {
    k != "" && ',' !in k && Trim(k) == k
  }

  /** Trimming a comma-free piece gives a clean key unless it is blank. */
  lemma TrimmedPieceClean(piece: string)
    requires ',' !in piece && Trim(piece) != ""
    ensures CleanKey(Trim(piece))
  {
    TrimIsSlice(piece);
    TrimIdempotent(piece);
  }

  /** Every pooled key is non-empty, trimmed and free of commas. */
  lemma ParsedKeysClean(config: string)
    ensures forall i :: 0 <= i < |ParseKeys(config)| ==> CleanKey(ParseKeys(config)[i])
  {
    var pieces := Split(config, ',');
    var trimmed := TrimPieces(pieces);
    var keys := DropEmpty(trimmed);
    assert keys == ParseKeys(config);
    forall i | 0 <= i < |keys| ensures CleanKey(keys[i]) {
      assert keys[i] in trimmed;
      var j :| 0 <= j < |trimmed| && trimmed[j] == keys[i];
      TrimmedPieceClean(pieces[j]);
    }
  }

  lemma {:induction false} TrimPiecesOfClean(keys: seq<string>)
    requires forall i :: 0 <= i < |keys| ==> CleanKey(keys[i])
    ensures TrimPieces(keys) == keys
  {
    if |keys| > 0 {
      TrimPiecesOfClean(keys[1..]);
    }
  }

  /** Dropping the empty pieces of two lists one after the other is dropping them from each, in order. */
  lemma {:induction false} DropEmptyConcat(a: seq<string>, b: seq<string>)
    ensures DropEmpty(a + b) == DropEmpty(a) + DropEmpty(b)
  {
    if |a| > 0 {
      assert (a + b)[1..] == a[1..] + b;
      DropEmptyConcat(a[1..], b);
    } else {
      assert a + b == b;
    }
  }

  /** One piece is kept exactly when it is not empty. */
  lemma DropEmptyOfOne(x: string)
    ensures DropEmpty([x]) == if x == "" then [] else [x]
  {
  }

  lemma {:induction false} DropEmptyOfNonEmpty(keys: seq<string>)
    requires forall i :: 0 <= i < |keys| ==> keys[i] != ""
    ensures DropEmpty(keys) == keys
  {
    if |keys| > 0 {
      DropEmptyOfNonEmpty(keys[1..]);
    }
  }

  /** Writing a pool out comma-separated and parsing it back gives the same pool, in order. */
  lemma ParseKeysOfJoin(keys: seq<string>)
    requires forall i :: 0 <= i < |keys| ==> CleanKey(keys[i])
    ensures ParseKeys(Join(keys, ',')) == keys
  {
    if |keys| == 0 {
      assert Split("", ',') == [""];
      assert Trim("") == "";
    } else {
      SplitJoin(keys, ',');
      TrimPiecesOfClean(keys);
      DropEmptyOfNonEmpty(keys);
    }
  }

  // ---------------------------------------------------------------------------
  // Errors and attempt outcomes

  /** What the SDK throws: a message and an HTTP status, either of which may be missing. */
  datatype ApiError = ApiError(message: Option<string>, status: Option<int>)

  /** The outcome of one call of the wrapped operation. */
  datatype Attempt = Ok(value: string) | Err(error: ApiError)

  /** The operation, as seen by the retry loop: (client key, attempt number) to outcome. */
  type Service = (string, nat) -> Attempt

  /** What `executeWithRetry` throws: an `Error` it builds, or the caught error rethrown. */
  datatype Thrown = NewError(message: string) | Rethrown(error: ApiError)

  predicate MessageMentions(e: ApiError, marker: string) {
    e.message.Some? && Contains(e.message.value, marker)
  }

  /** Quota exhausted: '429' or 'RESOURCE_EXHAUSTED' in the message, or status 429. */
  predicate IsQuota(e: ApiError) {
    MessageMentions(e, "429") || MessageMentions(e, "RESOURCE_EXHAUSTED") || e.status == Some(429)
  }

  /** Server overloaded: '503' or 'overloaded' in the message, or status 503. */
  predicate IsOverload(e: ApiError) {
    MessageMentions(e, "503") || MessageMentions(e, "overloaded") || e.status == Some(503)
  }

  /** A failed attempt the loop retries, given the pool size: a rotatable quota error, or an overload. */
  predicate Retriable(e: ApiError, poolSize: nat) {
    (IsQuota(e) && poolSize > 1) || (!IsQuota(e) && IsOverload(e))
  }

  const DailyLimitMessage: string := "لقد تجاوزت الحد اليومي . يرجى المحاولة غداً."

  function ExhaustedMessage(description: string): string
  {
    "فشل " + description + " بعد عدة محاولات."
  }

  function MaxAttempts(poolSize: nat): nat {
    poolSize * 3 + 3
  }

  // ---------------------------------------------------------------------------
  // The retry loop as a recursive specification

  predicate ValidCursor(pool: seq<string>, cursor: nat) {
    cursor == 0 || cursor < |pool|
  }

  /** The key `getClient` hands to the SDK: the empty key when the pool is empty. */
  function KeyAt(pool: seq<string>, cursor: nat): (k: string)
    requires ValidCursor(pool, cursor)
    ensures |pool| > 0 ==> k in pool
  {
    if |pool| == 0 then "" else pool[cursor]
  }

  /** The whole run: what is returned or thrown, the final cursor, and the key used by each call. */
  datatype Trace = Trace(result: Result<string, Thrown>, cursor: nat, calls: seq<string>)

  /** What the loop does after one call: stop with a result, or try again from a cursor. */
  datatype Step = Stop(result: Result<string, Thrown>) | Retry(next: nat)

  /**
   * One pass of the loop body after the call returned `outcome`: a reply is
   * returned; a quota error rotates (or, with at most one key, gives the
   * daily-limit error); an overload keeps the key; anything else is rethrown.
   */
  function Decide(poolSize: nat, cursor: nat, outcome: Attempt): (s: Step)
    ensures s.Retry? <==> outcome.Err? && Retriable(outcome.error, poolSize)
    ensures s.Retry? && IsQuota(outcome.error) ==> s.next == (cursor + 1) % poolSize
    ensures s.Retry? && !IsQuota(outcome.error) ==> s.next == cursor
    ensures outcome.Ok? ==> s == Stop(Success(outcome.value))
    ensures outcome.Err? && IsQuota(outcome.error) && poolSize <= 1 ==> s == Stop(Failure(NewError(DailyLimitMessage)))
    ensures outcome.Err? && !IsQuota(outcome.error) && !IsOverload(outcome.error) ==> s == Stop(Failure(Rethrown(outcome.error)))
  {
    if outcome.Ok? then Stop(Success(outcome.value))
    else if IsQuota(outcome.error) then
      if poolSize <= 1 then Stop(Failure(NewError(DailyLimitMessage)))
      else Retry((cursor + 1) % poolSize)
    else if IsOverload(outcome.error) then Retry(cursor)
    else Stop(Failure(Rethrown(outcome.error)))
  }

  /**
   * The loop from a state where `attempts` calls have failed: at most
   * `MaxAttempts - attempts` further calls, the cursor staying valid.
   */
  function Run(pool: seq<string>, cursor: nat, attempts: nat, op: Service, description: string): (t: Trace)
    requires ValidCursor(pool, cursor) && attempts <= MaxAttempts(|pool|)
    ensures ValidCursor(pool, t.cursor)
    ensures attempts + |t.calls| <= MaxAttempts(|pool|)
    decreases MaxAttempts(|pool|) - attempts
  {
    if attempts == MaxAttempts(|pool|) then
      Trace(Failure(NewError(ExhaustedMessage(description))), cursor, [])
    else
      var key := KeyAt(pool, cursor);
      match Decide(|pool|, cursor, op(key, attempts))
      case Stop(result) => Trace(result, cursor, [key])
      case Retry(next) =>
        var rest := Run(pool, next, attempts + 1, op, description);
        Trace(rest.result, rest.cursor, [key] + rest.calls)
  }

  /** One failed, retried attempt: the run is that call followed by the run from the next state. */
  lemma RunRetry(pool: seq<string>, cursor: nat, attempts: nat, op: Service, description: string, next: nat)
    requires ValidCursor(pool, cursor) && attempts < MaxAttempts(|pool|)
    requires var o := op(KeyAt(pool, cursor), attempts);
      o.Err? && Retriable(o.error, |pool|)
      && next == if IsQuota(o.error) then (cursor + 1) % |pool| else cursor
    ensures ValidCursor(pool, next)
    ensures var rest := Run(pool, next, attempts + 1, op, description);
      Run(pool, cursor, attempts, op, description) == Trace(rest.result, rest.cursor, [KeyAt(pool, cursor)] + rest.calls)
  {
  }

  /** A call after which the loop stops: the run is that one call. */
  lemma RunStopped(pool: seq<string>, cursor: nat, attempts: nat, op: Service, description: string)
    requires ValidCursor(pool, cursor) && attempts < MaxAttempts(|pool|)
    requires Decide(|pool|, cursor, op(KeyAt(pool, cursor), attempts)).Stop?
    ensures Run(pool, cursor, attempts, op, description)
      == Trace(Decide(|pool|, cursor, op(KeyAt(pool, cursor), attempts)).result, cursor, [KeyAt(pool, cursor)])
  {
  }

  /** The outcome of the last call of a run (the run made at least one call). */
  function LastOutcome(t: Trace, op: Service, attempts: nat): Attempt
    requires |t.calls| > 0
  {
    op(t.calls[|t.calls| - 1], attempts + |t.calls| - 1)
  }

  /** After a retried call, the run's last call is the rest's last call. */
  lemma LastOutcomeAfterRetry(t: Trace, rest: Trace, key: string, op: Service, attempts: nat)
    requires t.calls == [key] + rest.calls && |rest.calls| > 0
    ensures |t.calls| > 0 && LastOutcome(t, op, attempts) == LastOutcome(rest, op, attempts + 1)
  {
    assert t.calls[|t.calls| - 1] == rest.calls[|rest.calls| - 1];
  }

  /** A run of one call: its last outcome is that call's. */
  lemma LastOutcomeOfOne(t: Trace, key: string, op: Service, attempts: nat)
    requires t.calls == [key]
    ensures LastOutcome(t, op, attempts) == op(key, attempts)
  {
  }

  /** Call number `n`, made with `key`, failed with an error the loop retries. */
  predicate Retried(op: Service, key: string, n: nat, poolSize: nat) {
    op(key, n).Err? && Retriable(op(key, n).error, poolSize)
  }

  /** Every call but the last failed with an error the loop retries. */
  lemma {:induction false} RunRetriesBeforeLast(pool: seq<string>, cursor: nat, attempts: nat, op: Service, description: string)
    requires ValidCursor(pool, cursor) && attempts <= MaxAttempts(|pool|)
    ensures var t := Run(pool, cursor, attempts, op, description);
      forall k :: 0 <= k < |t.calls| - 1 ==> Retried(op, t.calls[k], attempts + k, |pool|)
    decreases MaxAttempts(|pool|) - attempts
  {
    if attempts < MaxAttempts(|pool|) {
      var o := op(KeyAt(pool, cursor), attempts);
      var step := Decide(|pool|, cursor, o);
      if step.Retry? {
        RunRetry(pool, cursor, attempts, op, description, step.next);
        RunRetriesBeforeLast(pool, step.next, attempts + 1, op, description);
        var t := Run(pool, cursor, attempts, op, description);
        var rest := Run(pool, step.next, attempts + 1, op, description);
        forall k | 0 < k < |t.calls| - 1
          ensures Retried(op, t.calls[k], attempts + k, |pool|)
        {
          assert t.calls[k] == rest.calls[k - 1];
          assert Retried(op, rest.calls[k - 1], attempts + 1 + (k - 1), |pool|);
        }
        assert t.calls[0] == KeyAt(pool, cursor);
      } else {
        RunStopped(pool, cursor, attempts, op, description);
      }
    }
  }

  /**
   * A run succeeds exactly when its last call succeeded, and it returns that
   * call's value unchanged.
   */
  lemma {:induction false} RunSucceedsOnFirstOk(pool: seq<string>, cursor: nat, attempts: nat, op: Service, description: string)
    requires ValidCursor(pool, cursor) && attempts <= MaxAttempts(|pool|)
    ensures var t := Run(pool, cursor, attempts, op, description);
      (t.result.Success? <==> |t.calls| > 0 && LastOutcome(t, op, attempts).Ok?)
      && (t.result.Success? ==> LastOutcome(t, op, attempts) == Ok(t.result.value))
    decreases MaxAttempts(|pool|) - attempts
  {
    if attempts < MaxAttempts(|pool|) {
      var o := op(KeyAt(pool, cursor), attempts);
      var t := Run(pool, cursor, attempts, op, description);
      var step := Decide(|pool|, cursor, o);
      if step.Retry? {
        RunRetry(pool, cursor, attempts, op, description, step.next);
        RunSucceedsOnFirstOk(pool, step.next, attempts + 1, op, description);
        var rest := Run(pool, step.next, attempts + 1, op, description);
        if |rest.calls| > 0 {
          LastOutcomeAfterRetry(t, rest, KeyAt(pool, cursor), op, attempts);
        }
      } else {
        RunStopped(pool, cursor, attempts, op, description);
        LastOutcomeOfOne(t, KeyAt(pool, cursor), op, attempts);
      }
    }
  }

  /**
   * A rethrown error is the error of the last call, and it is one the loop
   * does not retry; conversely, a call failing with such an error is
   * rethrown at once, with the cursor where it was.
   */
  lemma {:induction false} RunRethrowsLastError(pool: seq<string>, cursor: nat, attempts: nat, op: Service, description: string)
    requires ValidCursor(pool, cursor) && attempts <= MaxAttempts(|pool|)
    ensures var t := Run(pool, cursor, attempts, op, description);
      t.result.Failure? && t.result.error.Rethrown? ==>
        |t.calls| > 0 && LastOutcome(t, op, attempts) == Err(t.result.error.error)
        && !IsQuota(t.result.error.error) && !IsOverload(t.result.error.error)
    ensures Other(op, KeyAt(pool, cursor), attempts) && attempts < MaxAttempts(|pool|) ==>
      Run(pool, cursor, attempts, op, description)
        == Trace(Failure(Rethrown(op(KeyAt(pool, cursor), attempts).error)), cursor, [KeyAt(pool, cursor)])
    decreases MaxAttempts(|pool|) - attempts
  {
    if Other(op, KeyAt(pool, cursor), attempts) && attempts < MaxAttempts(|pool|) {
      RunRethrowsAtOnce(pool, cursor, attempts, op, description);
    }
    if attempts < MaxAttempts(|pool|) {
      var o := op(KeyAt(pool, cursor), attempts);
      var step := Decide(|pool|, cursor, o);
      if step.Retry? {
        RunRetry(pool, cursor, attempts, op, description, step.next);
        RunRethrowsLastError(pool, step.next, attempts + 1, op, description);
        var t := Run(pool, cursor, attempts, op, description);
        var rest := Run(pool, step.next, attempts + 1, op, description);
        if |rest.calls| > 0 {
          LastOutcomeAfterRetry(t, rest, KeyAt(pool, cursor), op, attempts);
        }
      } else {
        RunStopped(pool, cursor, attempts, op, description);
        LastOutcomeOfOne(Run(pool, cursor, attempts, op, description), KeyAt(pool, cursor), op, attempts);
      }
    }
  }

  /**
   * The attempts-exhausted error comes only after `MaxAttempts` calls in
   * total, and the daily-limit error only from a quota error on a pool of at
   * most one key; conversely, with at most one key a quota error gives the
   * daily-limit error at that call, without moving the cursor.
   */
  lemma RunGivesUp(pool: seq<string>, cursor: nat, attempts: nat, op: Service, description: string)
    requires ValidCursor(pool, cursor) && attempts <= MaxAttempts(|pool|)
    ensures var t := Run(pool, cursor, attempts, op, description);
      && (t.result == Failure(NewError(ExhaustedMessage(description))) ==>
            attempts + |t.calls| == MaxAttempts(|pool|))
      && (t.result == Failure(NewError(DailyLimitMessage)) ==>
            |pool| <= 1 && |t.calls| > 0
            && LastOutcome(t, op, attempts).Err? && IsQuota(LastOutcome(t, op, attempts).error))
    ensures |pool| <= 1 && Quota(op, KeyAt(pool, cursor), attempts) && attempts < MaxAttempts(|pool|) ==>
      Run(pool, cursor, attempts, op, description)
        == Trace(Failure(NewError(DailyLimitMessage)), cursor, [KeyAt(pool, cursor)])
  {
    RunExhaustedAfterAll(pool, cursor, attempts, op, description);
    RunDailyLimitFromQuota(pool, cursor, attempts, op, description);
    if |pool| <= 1 && Quota(op, KeyAt(pool, cursor), attempts) && attempts < MaxAttempts(|pool|) {
      RunDailyLimitAtOnce(pool, cursor, attempts, op, description);
    }
  }

  /** Call number `n`, made with `key`, failed with a quota error. */
  predicate Quota(op: Service, key: string, n: nat) {
    op(key, n).Err? && IsQuota(op(key, n).error)
  }

  /** Call number `n`, made with `key`, failed with an overload that is not a quota error. */
  predicate Overload(op: Service, key: string, n: nat) {
    op(key, n).Err? && !IsQuota(op(key, n).error) && IsOverload(op(key, n).error)
  }

  /** Call number `n`, made with `key`, failed with an error that is neither quota nor overload. */
  predicate Other(op: Service, key: string, n: nat) {
    op(key, n).Err? && !IsQuota(op(key, n).error) && !IsOverload(op(key, n).error)
  }

  lemma RunDailyLimitAtOnce(pool: seq<string>, cursor: nat, attempts: nat, op: Service, description: string)
    requires |pool| <= 1 && ValidCursor(pool, cursor) && attempts < MaxAttempts(|pool|)
    requires Quota(op, KeyAt(pool, cursor), attempts)
    ensures Run(pool, cursor, attempts, op, description)
      == Trace(Failure(NewError(DailyLimitMessage)), cursor, [KeyAt(pool, cursor)])
  {
    RunStopped(pool, cursor, attempts, op, description);
  }

  lemma RunRethrowsAtOnce(pool: seq<string>, cursor: nat, attempts: nat, op: Service, description: string)
    requires ValidCursor(pool, cursor) && attempts < MaxAttempts(|pool|)
    requires Other(op, KeyAt(pool, cursor), attempts)
    ensures Run(pool, cursor, attempts, op, description)
      == Trace(Failure(Rethrown(op(KeyAt(pool, cursor), attempts).error)), cursor, [KeyAt(pool, cursor)])
  {
    RunStopped(pool, cursor, attempts, op, description);
  }

  /** The key `i` places after the cursor, going round the pool. */
  function Rotated(pool: seq<string>, cursor: nat, i: nat): (k: string)
    requires |pool| > 0
    ensures k in pool
  {
    pool[(cursor + i) % |pool|]
  }

  /**
   * With at least two keys, `k` quota errors and then a reply: the reply is
   * returned after k + 1 calls that use the keys round-robin from the
   * cursor, and the cursor ends k places further on. With k = N - 1 this is
   * a reply on the last key tried, at cursor (c + N - 1) % N.
   */
  lemma {:induction false} RunQuotaThenOk(pool: seq<string>, cursor: nat, attempts: nat, op: Service, description: string, k: nat, v: string)
    requires |pool| >= 2 && cursor < |pool| && attempts + k < MaxAttempts(|pool|)
    requires forall i :: 0 <= i < k ==> Quota(op, Rotated(pool, cursor, i), attempts + i)
    requires op(Rotated(pool, cursor, k), attempts + k) == Ok(v)
    ensures var t := Run(pool, cursor, attempts, op, description);
      && t.result == Success(v) && t.cursor == (cursor + k) % |pool| && |t.calls| == k + 1
      && forall i :: 0 <= i <= k ==> t.calls[i] == Rotated(pool, cursor, i)
    decreases k
  {
    RotatedFirst(pool, cursor);
    if k == 0 {
      RunStopped(pool, cursor, attempts, op, description);
    } else {
      var next := (cursor + 1) % |pool|;
      QuotaShift(pool, cursor, next, attempts, op, k, v);
      RunQuotaThenOk(pool, next, attempts + 1, op, description, k - 1, v);
      QuotaCombine(pool, cursor, attempts, op, description, k, v);
    }
  }

  /** The premises of `RunQuotaThenOk`, seen from the next cursor and the next call. */
  lemma QuotaShift(pool: seq<string>, cursor: nat, next: nat, attempts: nat, op: Service, k: nat, v: string)
    requires |pool| >= 2 && cursor < |pool| && next == (cursor + 1) % |pool| && k > 0
    requires forall i :: 0 <= i < k ==> Quota(op, Rotated(pool, cursor, i), attempts + i)
    requires op(Rotated(pool, cursor, k), attempts + k) == Ok(v)
    ensures forall i :: 0 <= i < k - 1 ==> Quota(op, Rotated(pool, next, i), attempts + 1 + i)
    ensures op(Rotated(pool, next, k - 1), attempts + 1 + (k - 1)) == Ok(v)
  {
    forall i | 0 <= i < k - 1
      ensures Quota(op, Rotated(pool, next, i), attempts + 1 + i)
    {
      RotatedNext(pool, cursor, i);
      assert Quota(op, Rotated(pool, cursor, i + 1), attempts + (i + 1));
    }
    RotatedNext(pool, cursor, k - 1);
  }

  /** A quota error on the first call, then the run from the next cursor: the run from this one. */
  lemma QuotaCombine(pool: seq<string>, cursor: nat, attempts: nat, op: Service, description: string, k: nat, v: string)
    requires |pool| >= 2 && cursor < |pool| && attempts + k < MaxAttempts(|pool|) && k > 0
    requires Quota(op, Rotated(pool, cursor, 0), attempts)
    requires var rest := Run(pool, (cursor + 1) % |pool|, attempts + 1, op, description);
      && rest.result == Success(v) && rest.cursor == ((cursor + 1) % |pool| + (k - 1)) % |pool| && |rest.calls| == k
      && forall i :: 0 <= i <= k - 1 ==> rest.calls[i] == Rotated(pool, (cursor + 1) % |pool|, i)
    ensures var t := Run(pool, cursor, attempts, op, description);
      && t.result == Success(v) && t.cursor == (cursor + k) % |pool| && |t.calls| == k + 1
      && forall i :: 0 <= i <= k ==> t.calls[i] == Rotated(pool, cursor, i)
  {
    var next := (cursor + 1) % |pool|;
    RotatedFirst(pool, cursor);
    RunRetry(pool, cursor, attempts, op, description, next);
    ModSucc(cursor, k - 1, |pool|);
    var rest := Run(pool, next, attempts + 1, op, description);
    RotatedCalls(pool, cursor, rest.calls, k);
  }

  /** The key at the cursor, then the keys from the next cursor on, are the keys from this cursor on. */
  lemma RotatedCalls(pool: seq<string>, cursor: nat, later: seq<string>, k: nat)
    requires cursor < |pool| && |later| == k
    requires forall i :: 0 <= i <= k - 1 ==> later[i] == Rotated(pool, (cursor + 1) % |pool|, i)
    ensures forall i :: 0 <= i <= k ==> ([KeyAt(pool, cursor)] + later)[i] == Rotated(pool, cursor, i)
  {
    RotatedFirst(pool, cursor);
    forall i | 0 <= i <= k ensures ([KeyAt(pool, cursor)] + later)[i] == Rotated(pool, cursor, i) {
      if i > 0 {
        RotatedNext(pool, cursor, i - 1);
      }
    }
  }

  /** The key no places after the cursor is the key at the cursor. */
  lemma RotatedFirst(pool: seq<string>, cursor: nat)
    requires cursor < |pool|
    ensures Rotated(pool, cursor, 0) == KeyAt(pool, cursor)
  {
    ModBelow(cursor, |pool|);
  }

  /** The key i places after the next cursor is the key i + 1 places after this one. */
  lemma RotatedNext(pool: seq<string>, cursor: nat, i: nat)
    requires cursor < |pool|
    ensures Rotated(pool, (cursor + 1) % |pool|, i) == Rotated(pool, cursor, i + 1)
  {
    ModSucc(cursor, i, |pool|);
  }

  /**
   * `k` overloads and then a reply: the reply is returned after k + 1 calls,
   * all with the key at the cursor, and the cursor does not move.
   */
  lemma {:induction false} RunOverloadThenOk(pool: seq<string>, cursor: nat, attempts: nat, op: Service, description: string, k: nat, v: string)
    requires ValidCursor(pool, cursor) && attempts + k < MaxAttempts(|pool|)
    requires forall n: nat :: attempts <= n < attempts + k ==> Overload(op, KeyAt(pool, cursor), n)
    requires op(KeyAt(pool, cursor), attempts + k) == Ok(v)
    ensures var t := Run(pool, cursor, attempts, op, description);
      && t.result == Success(v) && t.cursor == cursor && |t.calls| == k + 1
      && forall i :: 0 <= i <= k ==> t.calls[i] == KeyAt(pool, cursor)
    decreases k
  {
    if k == 0 {
      RunStopped(pool, cursor, attempts, op, description);
    } else {
      assert Overload(op, KeyAt(pool, cursor), attempts);
      RunRetry(pool, cursor, attempts, op, description, cursor);
      RunOverloadThenOk(pool, cursor, attempts + 1, op, description, k - 1, v);
      var t := Run(pool, cursor, attempts, op, description);
      var rest := Run(pool, cursor, attempts + 1, op, description);
      forall i | 0 < i <= k ensures t.calls[i] == KeyAt(pool, cursor) {
        assert t.calls[i] == rest.calls[i - 1];
      }
    }
  }

  /** A step that stops never builds the attempts-exhausted error, and builds the daily-limit error only on a quota error with at most one key. */
  lemma DecideStopResult(poolSize: nat, cursor: nat, outcome: Attempt, description: string)
    requires Decide(poolSize, cursor, outcome).Stop?
    ensures Decide(poolSize, cursor, outcome).result != Failure(NewError(ExhaustedMessage(description)))
    ensures Decide(poolSize, cursor, outcome).result == Failure(NewError(DailyLimitMessage)) ==>
      poolSize <= 1 && outcome.Err? && IsQuota(outcome.error)
  {
    ExhaustedIsNotDailyLimit(description);
  }

  lemma {:induction false} RunExhaustedAfterAll(pool: seq<string>, cursor: nat, attempts: nat, op: Service, description: string)
    requires ValidCursor(pool, cursor) && attempts <= MaxAttempts(|pool|)
    ensures var t := Run(pool, cursor, attempts, op, description);
      t.result == Failure(NewError(ExhaustedMessage(description))) ==> attempts + |t.calls| == MaxAttempts(|pool|)
    decreases MaxAttempts(|pool|) - attempts
  {
    if attempts < MaxAttempts(|pool|) {
      var o := op(KeyAt(pool, cursor), attempts);
      var step := Decide(|pool|, cursor, o);
      if step.Retry? {
        RunRetry(pool, cursor, attempts, op, description, step.next);
        RunExhaustedAfterAll(pool, step.next, attempts + 1, op, description);
      } else {
        RunStopped(pool, cursor, attempts, op, description);
        DecideStopResult(|pool|, cursor, o, description);
      }
    }
  }

  lemma {:induction false} RunDailyLimitFromQuota(pool: seq<string>, cursor: nat, attempts: nat, op: Service, description: string)
    requires ValidCursor(pool, cursor) && attempts <= MaxAttempts(|pool|)
    ensures var t := Run(pool, cursor, attempts, op, description);
      t.result == Failure(NewError(DailyLimitMessage)) ==>
        |pool| <= 1 && |t.calls| > 0
        && LastOutcome(t, op, attempts).Err? && IsQuota(LastOutcome(t, op, attempts).error)
    decreases MaxAttempts(|pool|) - attempts
  {
    ExhaustedIsNotDailyLimit(description);
    if attempts < MaxAttempts(|pool|) {
      var o := op(KeyAt(pool, cursor), attempts);
      var step := Decide(|pool|, cursor, o);
      if step.Retry? {
        RunRetry(pool, cursor, attempts, op, description, step.next);
        RunDailyLimitFromQuota(pool, step.next, attempts + 1, op, description);
        var t := Run(pool, cursor, attempts, op, description);
        var rest := Run(pool, step.next, attempts + 1, op, description);
        if |rest.calls| > 0 {
          LastOutcomeAfterRetry(t, rest, KeyAt(pool, cursor), op, attempts);
        }
      } else {
        RunStopped(pool, cursor, attempts, op, description);
        DecideStopResult(|pool|, cursor, o, description);
        LastOutcomeOfOne(Run(pool, cursor, attempts, op, description), KeyAt(pool, cursor), op, attempts);
      }
    }
  }

  /** The two messages the loop builds never coincide. */
  lemma ExhaustedIsNotDailyLimit(description: string)
    ensures ExhaustedMessage(description) != DailyLimitMessage
  {
    assert ExhaustedMessage(description)[0] == 'ف';
    assert DailyLimitMessage[0] == 'ل';
  }

  /** With at most one key the cursor never moves, so every call uses the same key. */
  lemma {:induction false} SmallPoolKeepsKey(pool: seq<string>, cursor: nat, attempts: nat, op: Service, description: string)
    requires |pool| <= 1 && ValidCursor(pool, cursor) && attempts <= MaxAttempts(|pool|)
    ensures var t := Run(pool, cursor, attempts, op, description);
      t.cursor == cursor && forall k :: 0 <= k < |t.calls| ==> t.calls[k] == KeyAt(pool, cursor)
    decreases MaxAttempts(|pool|) - attempts
  {
    if attempts < MaxAttempts(|pool|) {
      SmallPoolKeepsKey(pool, cursor, attempts + 1, op, description);
    }
  }

  /** With at least two keys a run never ends in the daily-limit error. */
  lemma {:induction false} LargePoolNeverDailyLimit(pool: seq<string>, cursor: nat, attempts: nat, op: Service, description: string)
    requires |pool| >= 2 && ValidCursor(pool, cursor) && attempts <= MaxAttempts(|pool|)
    ensures Run(pool, cursor, attempts, op, description).result != Failure(NewError(DailyLimitMessage))
    decreases MaxAttempts(|pool|) - attempts
  {
    if attempts == MaxAttempts(|pool|) {
      ExhaustedIsNotDailyLimit(description);
    } else {
      var outcome := op(KeyAt(pool, cursor), attempts);
      if outcome.Err? && IsQuota(outcome.error) {
        LargePoolNeverDailyLimit(pool, (cursor + 1) % |pool|, attempts + 1, op, description);
      } else if outcome.Err? && IsOverload(outcome.error) {
        LargePoolNeverDailyLimit(pool, cursor, attempts + 1, op, description);
      }
    }
  }

  /**
   * With at least two keys and a quota error on every call, the keys are used
   * round-robin from the cursor, every attempt is spent, and the run ends in
   * the attempts-exhausted error naming the operation.
   */
  lemma {:induction false} AllQuotaRotates(pool: seq<string>, cursor: nat, attempts: nat, op: Service, description: string)
    requires |pool| >= 2 && cursor < |pool| && attempts <= MaxAttempts(|pool|)
    requires forall key: string, n: nat :: op(key, n).Err? && IsQuota(op(key, n).error)
    ensures var t := Run(pool, cursor, attempts, op, description);
      && t.result == Failure(NewError(ExhaustedMessage(description)))
      && attempts + |t.calls| == MaxAttempts(|pool|)
      && (forall k :: 0 <= k < |t.calls| ==> t.calls[k] == pool[(cursor + k) % |pool|])
      && t.cursor == (cursor + |t.calls|) % |pool|
    decreases MaxAttempts(|pool|) - attempts
  {
    if attempts < MaxAttempts(|pool|) {
      var next := (cursor + 1) % |pool|;
      RunRetry(pool, cursor, attempts, op, description, next);
      AllQuotaRotates(pool, next, attempts + 1, op, description);
      var rest := Run(pool, next, attempts + 1, op, description);
      RotatedCalls(pool, cursor, rest.calls, |rest.calls|);
      ModSucc(cursor, |rest.calls|, |pool|);
    } else {
      ModBelow(cursor, |pool|);
    }
  }

  lemma {:induction false} MulAtLeast(n: int, k: nat)
    requires n > 0 && k >= 1
    ensures n * k >= n
  {
    if k > 1 {
      MulAtLeast(n, k - 1);
      assert n * k == n * (k - 1) + n;
    }
  }

  lemma ModShift(y: int, n: int)
    requires n > 0
    ensures (y + n) % n == y % n
  {
    var k := (y + n) / n - y / n - 1;
    assert n * k == y % n - (y + n) % n;
    if k >= 1 {
      MulAtLeast(n, k);
    } else if k <= -1 {
      MulAtLeast(n, -k);
    }
  }

  lemma ModBelow(c: nat, n: nat)
    requires c < n
    ensures c % n == c
  {
  }

  /** Advancing a cursor below `n` once and then `k` more places is advancing it `k + 1` places. */
  lemma ModSucc(c: nat, k: nat, n: nat)
    requires c < n
    ensures ((c + 1) % n + k) % n == (c + k + 1) % n
  {
    if c + 1 == n {
      ModShift(0, n);
      ModShift(k, n);
    } else {
      ModBelow(c + 1, n);
    }
  }

  /**
   * When every call fails with a non-quota overload error, the cursor never
   * moves, all attempts are spent on the same key, and the run ends in the
   * attempts-exhausted error.
   */
  lemma {:induction false} AllOverloadWaits(pool: seq<string>, cursor: nat, attempts: nat, op: Service, description: string)
    requires ValidCursor(pool, cursor) && attempts <= MaxAttempts(|pool|)
    requires forall key: string, n: nat :: op(key, n).Err? && !IsQuota(op(key, n).error) && IsOverload(op(key, n).error)
    ensures var t := Run(pool, cursor, attempts, op, description);
      && t.result == Failure(NewError(ExhaustedMessage(description)))
      && attempts + |t.calls| == MaxAttempts(|pool|)
      && t.cursor == cursor
      && (forall k :: 0 <= k < |t.calls| ==> t.calls[k] == KeyAt(pool, cursor))
    decreases MaxAttempts(|pool|) - attempts
  {
    if attempts < MaxAttempts(|pool|) {
      AllOverloadWaits(pool, cursor, attempts + 1, op, description);
    }
  }

  /** Three keys, two quota errors, then a reply: the reply is returned, read with the third key. */
  lemma RotationScenario()
    ensures var op: Service := (key: string, n: nat) =>
              if n < 2 then Err(ApiError(Some("429 Too Many Requests"), Some(429))) else Ok(key);
      Run(["A", "B", "C"], 0, 0, op, "Generating Text") == Trace(Success("C"), 2, ["A", "B", "C"])
  {
    var op: Service := (key: string, n: nat) =>
      if n < 2 then Err(ApiError(Some("429 Too Many Requests"), Some(429))) else Ok(key);
    var pool := ["A", "B", "C"];
    assert op("A", 0).error.status == Some(429);
    assert op("B", 1).error.status == Some(429);
    assert op("C", 2) == Ok("C");
    assert Run(pool, 2, 2, op, "Generating Text") == Trace(Success("C"), 2, ["C"]);
    RunRetry(pool, 1, 1, op, "Generating Text", 2);
    RunRetry(pool, 0, 0, op, "Generating Text", 1);
  }

  /** The run `rest`, resumed part-way through `whole`, ends the way `whole` does. */
  ghost predicate Ends(whole: Trace, rest: Trace) {
    whole.result == rest.result && whole.cursor == rest.cursor
  }

  /** A run that ends as `whole` does still ends so after one more retried call. */
  lemma RetryEnds(whole: Trace, pool: seq<string>, cursor: nat, attempts: nat, op: Service, description: string, next: nat)
    requires ValidCursor(pool, cursor) && attempts < MaxAttempts(|pool|)
    requires var o := op(KeyAt(pool, cursor), attempts);
      o.Err? && Retriable(o.error, |pool|)
      && next == if IsQuota(o.error) then (cursor + 1) % |pool| else cursor
    requires Ends(whole, Run(pool, cursor, attempts, op, description))
    ensures ValidCursor(pool, next)
    ensures Ends(whole, Run(pool, next, attempts + 1, op, description))
  {
    RunRetry(pool, cursor, attempts, op, description, next);
  }

  // ---------------------------------------------------------------------------
  // The module-level state: pool and cursor

  /** The key pool read once at start-up and the module-level cursor `currentKeyIndex`. */
  class KeyRotator {
    const pool: seq<string>
    var cursor: nat

    predicate Valid()
      reads this
    {
      ValidCursor(pool, cursor)
    }

    constructor(config: string)
      ensures pool == ParseKeys(config) && cursor == 0
      ensures Valid()
    {
      pool := ParseKeys(config);
      cursor := 0;
    }

    /** `getClient`: the key at the cursor, or the empty key for an empty pool. */
    function CurrentKey(): (k: string)
      reads this
      requires Valid()
      ensures |pool| == 0 ==> k == ""
      ensures |pool| > 0 ==> k == pool[cursor]
    {
      KeyAt(pool, cursor)
    }

    /** `rotateKey`: refuses with at most one key, otherwise advances the cursor cyclically. */
    method RotateKey() returns (rotated: bool)
      requires Valid()
      modifies this
      ensures Valid()
      ensures rotated <==> |pool| > 1
      ensures cursor == if rotated then (old(cursor) + 1) % |pool| else old(cursor)
    {
      if |pool| <= 1 {
        return false;
      }
      cursor := (cursor + 1) % |pool|;
      return true;
    }

    /**
     * `executeWithRetry`: returns or throws exactly what `Run` describes from
     * the current cursor, and leaves the cursor where `Run` leaves it. The
     * two-second wait after an overload is a step that changes nothing here.
     */
    method ExecuteWithRetry(op: Service, description: string) returns (r: Result<string, Thrown>)
      requires Valid()
      modifies this
      ensures Valid()
      ensures var t := Run(pool, old(cursor), 0, op, description);
        r == t.result && cursor == t.cursor
    {
      ghost var whole := Run(pool, cursor, 0, op, description);
      var attempts: nat := 0;
      var maxAttempts := |pool| * 3 + 3;
      while attempts < maxAttempts
        invariant Valid() && attempts <= maxAttempts
        invariant whole == Run(pool, old(cursor), 0, op, description)
        invariant Ends(whole, Run(pool, cursor, attempts, op, description))
        decreases maxAttempts - attempts
      {
        var key := CurrentKey();
        var outcome := op(key, attempts);
        if outcome.Ok? {
          RunStopped(pool, cursor, attempts, op, description);
          return Success(outcome.value);
        }
        attempts := attempts + 1;
        if IsQuota(outcome.error) {
          ghost var before := cursor;
          var rotated := RotateKey();
          if rotated {
            RetryEnds(whole, pool, before, attempts - 1, op, description, cursor);
            continue;
          }
          RunStopped(pool, cursor, attempts - 1, op, description);
          return Failure(NewError(DailyLimitMessage));
        }
        if IsOverload(outcome.error) {
          RetryEnds(whole, pool, cursor, attempts - 1, op, description, cursor);
          continue;
        }
        RunStopped(pool, cursor, attempts - 1, op, description);
        return Failure(Rethrown(outcome.error));
      }
      r := Failure(NewError(ExhaustedMessage(description)));
    }
  }

  // ---------------------------------------------------------------------------
  // MIME type of an uploaded file

  /** The type for a lower-cased extension; unknown extensions fall back to JPEG. */
  function MimeForExtension(ext: string): string {
    if ext == "jpg" || ext == "jpeg" then "image/jpeg"
    else if ext == "png" then "image/png"
    else if ext == "gif" then "image/gif"
    else if ext == "webp" then "image/webp"
    else if ext == "pdf" then "application/pdf"
    else "image/jpeg"
  }

  /** The text after the last '.', lower-cased: the whole name when there is no '.'. */
  function LastExtension(name: string): string {
    LowerAscii(LastPiece(Split(name, '.')))
  }

  /** `getMimeType`: the browser-reported type when there is one, else a guess from the name. */
  function MimeType(fileType: string, name: string): (m: string)
    ensures fileType != "" ==> m == fileType
    ensures fileType == "" ==> m in ["image/jpeg", "image/png", "image/gif", "image/webp", "application/pdf"]
  {
    if fileType != "" then fileType else MimeForExtension(LastExtension(name))
  }

  /** The extension of `stem.ext` is `ext` lower-cased, when `ext` has no '.'. */
  lemma LastExtensionAfterDot(stem: string, ext: string)
    requires '.' !in ext
    ensures LastExtension(stem + ['.'] + ext) == LowerAscii(ext)
  {
    SplitLastPiece(stem, '.', ext);
  }

  /** Without a reported type, the guess is decided by the text after the last '.'. */
  lemma MimeTypeOfExtension(stem: string, ext: string)
    requires '.' !in ext
    ensures MimeType("", stem + ['.'] + ext) == MimeForExtension(LowerAscii(ext))
  {
    LastExtensionAfterDot(stem, ext);
  }

  /** A name without any '.' is read as an extension in full, so "png" is PNG and "photo" is JPEG. */
  lemma MimeTypeWithoutDot(name: string)
    requires '.' !in name
    ensures MimeType("", name) == MimeForExtension(LowerAscii(name))
  {
  }

  // ---------------------------------------------------------------------------
  // Reply text

  const NoTextReply: string := "عذراً، لم يتم إنشاء محتوى."
  const NoQuizAnswer: string := "لم يتم العثور على إجابة."
  const NoSheetSolution: string := "لم يتم العثور على حل."

  /** `response.text || fallback`: an empty or missing reply text is replaced by the fallback. */
  function ReplyText(text: Option<string>, fallback: string): (r: string)
    ensures fallback != "" ==> r != ""
    ensures text.Some? && text.value != "" ==> r == text.value
    ensures text.None? || text.value == "" ==> r == fallback
  {
    if text.Some? && text.value != "" then text.value else fallback
  }

  /** A reply read once more with the same fallback stays as it is. */
  lemma ReplyTextIdempotent(text: Option<string>, fallback: string)
    ensures ReplyText(Some(ReplyText(text, fallback)), fallback) == ReplyText(text, fallback)
  {
  }
}
