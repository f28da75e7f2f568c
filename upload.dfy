/**
  The resumable-upload retry loop of `resumable_upload` in video_creator.py.

  `request.next_chunk()` is a test double: a finite script of answers, consumed
  one per loop iteration. The values `random.random()` returns are the sequence
  `draws`; `time.sleep` is recorded as the list of sleep durations.
*/
module Upload {
  import opened Wrappers

  /** MAX_RETRIES: counted failures allowed before the upload is abandoned. */
  const MaxRetries: nat := 10

  /** RETRIABLE_STATUS_CODES: HTTP statuses whose HttpError is retried. */
  const RetriableStatusCodes: set<int> := {500, 502, 503, 504}

  /** The decoded JSON body of the final response, keys to string values. */
  type Response = map<string, string>

  /** One answer of `request.next_chunk()`. */
  datatype ChunkOutcome =
    | InProgress                      // returns (status, None): more chunks to send
    | Completed(response: Response)   // returns (status, response) with a response
    | HttpFailure(status: int)        // raises HttpError with e.resp.status
    | TransportFailure                // raises one of RETRIABLE_EXCEPTIONS
    | OtherFailure                    // raises any other exception

  /** What the sticky `error` variable last recorded. */
  datatype RetriableError = RetriableHttp(status: int) | RetriableTransport

  /** How a call of `resumable_upload` ends. */
  datatype UploadOutcome =
    | Uploaded(id: string)                    // returns response['id']
    | UnexpectedResponse(response: Response)  // exit: a response without 'id'
    | HttpErrorRaised(status: int)            // re-raises a non-retriable HttpError
    | ExceptionRaised                         // an unhandled exception propagates
    | RetriesExhausted                        // exit: 'No longer attempting to retry.'
    | ScriptExhausted                         // the double has no answer left

  /** An outcome together with the sleeps performed on the way, in order. */
  datatype Run = Run(outcome: UploadOutcome, sleeps: seq<real>)

  predicate IsRetriableStatus(status: int) {
    status in RetriableStatusCodes
  }

  /** An answer after which the loop records a retriable error. */
  predicate IsRetriableFailure(o: ChunkOutcome) {
    o.TransportFailure? || (o.HttpFailure? && IsRetriableStatus(o.status))
  }

  /** `2 ** n` */
  function Pow2(n: nat): (r: nat)
    ensures r >= 1
  {
    if n == 0 then 1 else 2 * Pow2(n - 1)
  }

  /** Values `random.random()` can return, enough of them for every sleep the loop can do. */
  predicate ValidDraws(draws: seq<real>) {
    && |draws| >= MaxRetries
    && forall i :: 0 <= i < |draws| ==> 0.0 <= draws[i] < 1.0
  }

  /** The sleep `random.random() * 2 ** retry` lies in [0, 2 ** retry). */
  function Backoff(draw: real, retry: nat): (seconds: real)
    requires 0.0 <= draw < 1.0
    ensures 0.0 <= seconds < Pow2(retry) as real
  {
    Jitter(draw, Pow2(retry))
  }

  /** `random.random() * max_sleep`: a uniform draw scaled to [0, max_sleep). */
  function Jitter(draw: real, maxSleep: nat): (seconds: real)
    requires 0.0 <= draw < 1.0 && maxSleep >= 1
    ensures 0.0 <= seconds < maxSleep as real
  {
    ScaledBelow(draw, maxSleep as real);
    draw * (maxSleep as real)
  }

  lemma ScaledBelow(draw: real, ceiling: real)
    requires 0.0 <= draw < 1.0 && ceiling >= 1.0
    ensures 0.0 <= draw * ceiling < ceiling
  {
    assert ceiling - draw * ceiling == (1.0 - draw) * ceiling;
  }

  /**
    The rest of the loop from a state at the top of `while response is None`:
    `error` and `retry` as the loop left them, `script` the answers still to come.
    The k-th sleep of the whole loop uses the k-th draw, so from state `retry`
    the next sleep uses `draws[retry]`.
  */
  function Resume(script: seq<ChunkOutcome>, draws: seq<real>,
                  error: Option<RetriableError>, retry: nat): (r: Run)
    requires ValidDraws(draws) && retry <= MaxRetries
    ensures |r.sleeps| <= MaxRetries - retry
    ensures forall k :: 0 <= k < |r.sleeps| ==>
              r.sleeps[k] == Backoff(draws[retry + k], retry + k + 1)
    ensures r.outcome.RetriesExhausted? ==> |r.sleeps| == MaxRetries - retry
    decreases |script|, 0
  {
    if script == [] then Run(ScriptExhausted, [])
    else
      match script[0]
      case Completed(response) => Run(Completion(response), [])
      case HttpFailure(status) =>
        if IsRetriableStatus(status) then
          AfterAttempt(script[1..], draws, Some(RetriableHttp(status)), retry)
        else Run(HttpErrorRaised(status), [])
      case TransportFailure =>
        AfterAttempt(script[1..], draws, Some(RetriableTransport), retry)
      case OtherFailure => Run(ExceptionRaised, [])
      case InProgress => AfterAttempt(script[1..], draws, error, retry)
  }

  /** The tail of one iteration: `if error is not None:` count, give up or sleep. */
  function AfterAttempt(rest: seq<ChunkOutcome>, draws: seq<real>,
                        error: Option<RetriableError>, retry: nat): (r: Run)
    requires ValidDraws(draws) && retry <= MaxRetries
    ensures |r.sleeps| <= MaxRetries - retry
    ensures forall k :: 0 <= k < |r.sleeps| ==>
              r.sleeps[k] == Backoff(draws[retry + k], retry + k + 1)
    ensures r.outcome.RetriesExhausted? ==> |r.sleeps| == MaxRetries - retry
    ensures error.Some? && retry == MaxRetries ==> r == Run(RetriesExhausted, [])
    decreases |rest|, 1
  {
    if error.None? then Resume(rest, draws, error, retry)
    else if retry + 1 > MaxRetries then Run(RetriesExhausted, [])
    else
      var r := Resume(rest, draws, error, retry + 1);
      Run(r.outcome, [Backoff(draws[retry], retry + 1)] + r.sleeps)
  }

  /**
    `resumable_upload(request)`: the loop with its locals `error` and `retry`.
    Each terminal branch returns at once, as the source's `return`, `raise`
    and `exit` do.
  */
  method ResumableUpload(script: seq<ChunkOutcome>, draws: seq<real>)
    returns (outcome: UploadOutcome, sleeps: seq<real>)
    requires ValidDraws(draws)
    ensures Run(outcome, sleeps) == Resume(script, draws, None, 0)
    ensures |sleeps| <= MaxRetries
    ensures forall k :: 0 <= k < |sleeps| ==> 0.0 <= sleeps[k] < Pow2(k + 1) as real
  {
    var error: Option<RetriableError> := None;
    var retry: nat := 0;
    var i := 0;
    sleeps := [];
    while i < |script|
      invariant i <= |script|
      invariant retry <= MaxRetries
      invariant Resume(script, draws, None, 0) ==
                Run(Resume(script[i..], draws, error, retry).outcome,
                    sleeps + Resume(script[i..], draws, error, retry).sleeps)
    {
      ghost var before := Resume(script[i..], draws, error, retry);
      var answer := script[i];
      assert script[i..][1..] == script[i + 1..];
      i := i + 1;
      match answer {
        case Completed(response) =>
          if "id" in response {
            return Uploaded(response["id"]), sleeps;
          } else {
            return UnexpectedResponse(response), sleeps;
          }
        case HttpFailure(status) =>
          if IsRetriableStatus(status) {
            error := Some(RetriableHttp(status));
          } else {
            return HttpErrorRaised(status), sleeps;
          }
        case TransportFailure =>
          error := Some(RetriableTransport);
        case OtherFailure =>
          return ExceptionRaised, sleeps;
        case InProgress =>
      }
      assert before == AfterAttempt(script[i..], draws, error, retry);
      if error.Some? {
        retry := retry + 1;
        if retry > MaxRetries {
          return RetriesExhausted, sleeps;
        }
        sleeps := sleeps + [Backoff(draws[retry - 1], retry)];
      }
    }
    outcome := ScriptExhausted;
  }

  /** The outcome a completed response leads to: its 'id', or the unexpected-response exit. */
  function Completion(response: Response): UploadOutcome {
    if "id" in response then Uploaded(response["id"]) else UnexpectedResponse(response)
  }

  /**
    Before any retriable error, answers that only report progress cost neither a
    count nor a sleep; the first completed response ends the loop with its 'id',
    or with the unexpected-response exit, and never retries.
  */
  lemma {:induction false} CompletionEndsLoop(script: seq<ChunkOutcome>, draws: seq<real>,
                                              retry: nat, k: nat)
    requires ValidDraws(draws) && retry <= MaxRetries
    requires k < |script| && script[k].Completed?
    requires forall i :: 0 <= i < k ==> script[i] == InProgress
    ensures Resume(script, draws, None, retry) == Run(Completion(script[k].response), [])
    decreases k
  {
    if k > 0 {
      CompletionEndsLoop(script[1..], draws, retry, k - 1);
    }
  }

  /**
    Up to MaxRetries retriable failures followed by a completed response: the
    loop ends with that response's outcome (its 'id', or the unexpected-response
    exit) after exactly one sleep per failure; the response adds no count or sleep.
  */
  lemma {:induction false} FailuresThenCompletion(script: seq<ChunkOutcome>, draws: seq<real>,
                                                  error: Option<RetriableError>, retry: nat, k: nat)
    requires ValidDraws(draws) && retry + k <= MaxRetries
    requires k < |script| && script[k].Completed?
    requires forall i :: 0 <= i < k ==> IsRetriableFailure(script[i])
    ensures Resume(script, draws, error, retry).outcome == Completion(script[k].response)
    ensures |Resume(script, draws, error, retry).sleeps| == k
    decreases k
  {
    if k > 0 {
      var e := if script[0].TransportFailure? then RetriableTransport
               else RetriableHttp(script[0].status);
      FailuresThenCompletion(script[1..], draws, Some(e), retry + 1, k - 1);
    }
  }

  /**
    At the cap, the next counted answer gives up at once without sleeping: a
    retriable failure, or, once `error` is set, an answer that only reports progress.
  */
  lemma CountedAnswerAtCapGivesUp(script: seq<ChunkOutcome>, draws: seq<real>,
                                  error: Option<RetriableError>)
    requires ValidDraws(draws) && script != []
    requires IsRetriableFailure(script[0]) || (script[0] == InProgress && error.Some?)
    ensures Resume(script, draws, error, MaxRetries) == Run(RetriesExhausted, [])
  {
  }

  /**
    A non-retriable HttpError is re-raised at once: the failures before it are
    retried as usual, and the fatal answer itself adds neither a count nor a sleep.
  */
  lemma {:induction false} FatalErrorNotRetried(script: seq<ChunkOutcome>, draws: seq<real>,
                                                error: Option<RetriableError>, retry: nat, k: nat)
    requires ValidDraws(draws) && retry + k <= MaxRetries
    requires k < |script| && script[k].HttpFailure? && !IsRetriableStatus(script[k].status)
    requires forall i :: 0 <= i < k ==> IsRetriableFailure(script[i])
    ensures Resume(script, draws, error, retry).outcome == HttpErrorRaised(script[k].status)
    ensures |Resume(script, draws, error, retry).sleeps| == k
    decreases k
  {
    if k > 0 {
      var e := if script[0].TransportFailure? then RetriableTransport
               else RetriableHttp(script[0].status);
      FatalErrorNotRetried(script[1..], draws, Some(e), retry + 1, k - 1);
    }
  }

  /**
    From a fresh loop, eleven retriable failures in a row end it with the
    give-up exit after exactly ten sleeps: the eleventh counted failure does
    not sleep. From counter `retry`, MaxRetries - retry + 1 failures suffice.
  */
  lemma {:induction false} RetryBudgetExhausted(script: seq<ChunkOutcome>, draws: seq<real>,
                                                error: Option<RetriableError>, retry: nat)
    requires ValidDraws(draws) && retry <= MaxRetries
    requires MaxRetries - retry < |script|
    requires forall i :: 0 <= i <= MaxRetries - retry ==> IsRetriableFailure(script[i])
    ensures Resume(script, draws, error, retry).outcome == RetriesExhausted
    ensures |Resume(script, draws, error, retry).sleeps| == MaxRetries - retry
    decreases MaxRetries - retry
  {
    if retry < MaxRetries {
      var e := if script[0].TransportFailure? then RetriableTransport
               else RetriableHttp(script[0].status);
      RetryBudgetExhausted(script[1..], draws, Some(e), retry + 1);
    }
  }

  /**
    The sticky `error`: once a retriable error was recorded it is never reset, so
    each later answer that only reports progress is still counted and followed
    by a sleep.
  */
  lemma {:induction false} ProgressAfterErrorStillCounts(script: seq<ChunkOutcome>, draws: seq<real>,
                                                         error: Option<RetriableError>, retry: nat, k: nat)
    requires ValidDraws(draws) && retry + k <= MaxRetries
    requires error.Some? && k <= |script|
    requires forall i :: 0 <= i < k ==> script[i] == InProgress
    ensures Resume(script, draws, error, retry).outcome ==
            Resume(script[k..], draws, error, retry + k).outcome
    ensures |Resume(script, draws, error, retry).sleeps| ==
            k + |Resume(script[k..], draws, error, retry + k).sleeps|
    decreases k
  {
    if k > 0 {
      ProgressAfterErrorStillCounts(script[1..], draws, error, retry + 1, k - 1);
      assert script[1..][k - 1..] == script[k..];
    }
  }

  /**
    One transport failure, then a progress answer, then success: two sleeps,
    where resetting `error` after each retry would give one.
  */
  lemma StickyErrorExample(draws: seq<real>)
    requires ValidDraws(draws)
    ensures var r := Resume([TransportFailure, InProgress, Completed(map["id" := "v1"])], draws, None, 0);
            r.outcome == Uploaded("v1") && |r.sleeps| == 2
  {
    var script := [TransportFailure, InProgress, Completed(map["id" := "v1"])];
    assert script[1..] == [InProgress, Completed(map["id" := "v1"])];
    assert script[1..][1..] == [Completed(map["id" := "v1"])];
  }

  /** Before the first retriable error, progress answers leave the loop state as it was. */
  lemma {:induction false} ProgressBeforeErrorIsFree(script: seq<ChunkOutcome>, draws: seq<real>,
                                                     retry: nat, k: nat)
    requires ValidDraws(draws) && retry <= MaxRetries
    requires k <= |script|
    requires forall i :: 0 <= i < k ==> script[i] == InProgress
    ensures Resume(script, draws, None, retry) == Resume(script[k..], draws, None, retry)
    decreases k
  {
    if k > 0 {
      ProgressBeforeErrorIsFree(script[1..], draws, retry, k - 1);
      assert script[1..][k - 1..] == script[k..];
    }
  }

  /** Some completed response of `script` carries `id`. */
  predicate ReturnsId(script: seq<ChunkOutcome>, id: string) {
    exists j :: 0 <= j < |script| && script[j].Completed? && "id" in script[j].response
                && script[j].response["id"] == id
  }

  /** A successful upload returns the 'id' of a completed response of the script. */
  lemma {:induction false} UploadedIdComesFromResponse(script: seq<ChunkOutcome>, draws: seq<real>,
                                                       error: Option<RetriableError>, retry: nat)
    requires ValidDraws(draws) && retry <= MaxRetries
    ensures var r := Resume(script, draws, error, retry);
            r.outcome.Uploaded? ==> ReturnsId(script, r.outcome.id)
    decreases |script|, 0
  {
    var r := Resume(script, draws, error, retry);
    if script != [] && r.outcome.Uploaded? && !script[0].Completed? {
      var e := match script[0]
               case HttpFailure(status) => Some(RetriableHttp(status))
               case TransportFailure => Some(RetriableTransport)
               case _ => error;
      assert r == AfterAttempt(script[1..], draws, e, retry);
      UploadedIdAfterAttempt(script[1..], draws, e, retry);
      var j :| 0 <= j < |script[1..]| && script[1..][j].Completed? && "id" in script[1..][j].response
               && script[1..][j].response["id"] == r.outcome.id;
      assert script[j + 1] == script[1..][j];
    }
  }

  lemma {:induction false} UploadedIdAfterAttempt(rest: seq<ChunkOutcome>, draws: seq<real>,
                                                  error: Option<RetriableError>, retry: nat)
    requires ValidDraws(draws) && retry <= MaxRetries
    ensures var r := AfterAttempt(rest, draws, error, retry);
            r.outcome.Uploaded? ==> ReturnsId(rest, r.outcome.id)
    decreases |rest|, 1
  {
    if error.None? {
      UploadedIdComesFromResponse(rest, draws, error, retry);
    } else if retry < MaxRetries {
      UploadedIdComesFromResponse(rest, draws, error, retry + 1);
    }
  }

  /** Total of a list of sleep durations. */
  function Total(sleeps: seq<real>): real {
    if sleeps == [] then 0.0 else Total(sleeps[..|sleeps| - 1]) + sleeps[|sleeps| - 1]
  }

  lemma {:induction false} TotalBelowCeilings(sleeps: seq<real>)
    requires forall k :: 0 <= k < |sleeps| ==> 0.0 <= sleeps[k] < Pow2(k + 1) as real
    ensures 0.0 <= Total(sleeps) <= (Pow2(|sleeps| + 1) - 2) as real
    ensures sleeps != [] ==> Total(sleeps) < (Pow2(|sleeps| + 1) - 2) as real
  {
    if sleeps != [] {
      TotalBelowCeilings(sleeps[..|sleeps| - 1]);
    }
  }

  lemma {:induction false} Pow2Monotone(m: nat, n: nat)
    requires m <= n
    ensures Pow2(m) <= Pow2(n)
    decreases n
  {
    if m < n {
      Pow2Monotone(m, n - 1);
    }
  }

  /**
    The worst-case time spent sleeping in one upload: at most ten sleeps with
    ceilings 2, 4, ..., 1024 seconds, so less than 2046 seconds in all.
  */
  lemma WorstCaseTotalSleep(script: seq<ChunkOutcome>, draws: seq<real>)
    requires ValidDraws(draws)
    ensures Total(Resume(script, draws, None, 0).sleeps) < 2046.0
  {
    var sleeps := Resume(script, draws, None, 0).sleeps;
    forall k | 0 <= k < |sleeps|
      ensures 0.0 <= sleeps[k] < Pow2(k + 1) as real
    {
    }
    TotalBelowCeilings(sleeps);
    Pow2Monotone(|sleeps| + 1, MaxRetries + 1);
    assert Pow2(MaxRetries + 1) == 2048;
  }
}
