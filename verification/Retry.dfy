/** Calls to Telegram with back-off, the one special retry after a flood wait, and the nested
    download retries of a voice message. */
module Retry {
  /** What one call answers. */
  datatype Answer<+T> = Accepted(value: T) | WriteForbidden | FloodWait(millis: nat) | OtherError(code: int)

  /** What the retried call ends with.  `ChatForbidden` is the marker on which a pair is disabled. */
  datatype Outcome<+T> = Done(value: T) | ChatForbidden | Failed(last: Answer<T>) | Cancelled

  /** Outcome, calls made, milliseconds of back-off slept, and flood waits slept. */
  datatype Report<+T> = Report(outcome: Outcome<T>, calls: nat, backoff: nat, floodWaits: nat)

  const MAX_ATTEMPTS: nat := 4

  function Delay(attempt: nat): nat {
    if attempt == 0 then 0 else if attempt == 1 then 1000 else if attempt == 2 then 2000 else 4000
  }

  /** Attempts from `a` on.  `script(k)` is the answer to the k-th call, `cancels(k)` says whether the
      context ends during the k-th sleep; `slept` is the back-off so far. */
  function RetryFrom<T>(script: nat -> Answer<T>, cancels: nat -> bool, a: nat, slept: nat): Report<T>
    requires a < MAX_ATTEMPTS
    decreases MAX_ATTEMPTS - a
  {
    if a > 0 && cancels(a - 1) then Report(Cancelled, a, slept, 0)
    else
      var now := slept + Delay(a);
      match script(a)
      case Accepted(v) => Report(Done(v), a + 1, now, 0)
      case WriteForbidden => Report(ChatForbidden, a + 1, now, 0)
      case FloodWait(_) =>
        if cancels(a) then Report(Cancelled, a + 1, now, 0)
        else Report(AfterFlood(script(a + 1)), a + 2, now, 1)
      case OtherError(_) =>
        if a + 1 == MAX_ATTEMPTS then Report(Failed(script(a)), a + 1, now, 0)
        else RetryFrom(script, cancels, a + 1, now)
  }

  function AfterFlood<T>(answer: Answer<T>): Outcome<T> {
    match answer
    case Accepted(v) => Done(v)
    case _ => Failed(answer)
  }

  function Retried<T>(script: nat -> Answer<T>, cancels: nat -> bool): Report<T> {
    RetryFrom(script, cancels, 0, 0)
  }

  method WithRetry<T>(script: nat -> Answer<T>, cancels: nat -> bool) returns (r: Report<T>)
    ensures r == Retried(script, cancels)
  {
    ghost var spec := Retried(script, cancels);
    var slept: nat, attempt: nat := 0, 0;
    var lastErr := script(0);
    while attempt < MAX_ATTEMPTS
      invariant attempt <= MAX_ATTEMPTS
      invariant attempt < MAX_ATTEMPTS ==> spec == RetryFrom(script, cancels, attempt, slept)
      invariant attempt == MAX_ATTEMPTS ==> spec == Report(Failed(lastErr), attempt, slept, 0)
    {
      if attempt > 0 && cancels(attempt - 1) {
        return Report(Cancelled, attempt, slept, 0);
      }
      slept := slept + Delay(attempt);
      var answer := script(attempt);
      match answer {
        case Accepted(v) => return Report(Done(v), attempt + 1, slept, 0);
        case WriteForbidden => return Report(ChatForbidden, attempt + 1, slept, 0);
        case FloodWait(_) =>
          if cancels(attempt) { return Report(Cancelled, attempt + 1, slept, 0); }
          return Report(AfterFlood(script(attempt + 1)), attempt + 2, slept, 1);
        case OtherError(_) =>
          lastErr := answer;
          attempt := attempt + 1;
      }
    }
    return Report(Failed(lastErr), attempt, slept, 0);
  }

  /** Between one and five calls; success is reported exactly when the last call succeeded, and the pair is
      given up exactly when it was answered with write-forbidden and no flood wait came before; no call
      follows a success or a write-forbidden answer, and at most one follows a flood wait; the
      back-off adds up to at most seven seconds, besides at most one flood wait. Failure means four other
      errors, or an error after the flood wait; and cancellation is that of the sleep after the last call. */
  lemma RetryFacts<T>(script: nat -> Answer<T>, cancels: nat -> bool)
    ensures var r := Retried(script, cancels);
      && 1 <= r.calls <= 5 && r.backoff <= 7000 && r.floodWaits <= 1
      && (r.outcome.Done? <==> script(r.calls - 1).Accepted?)
      && (r.outcome.Done? ==> script(r.calls - 1) == Accepted(r.outcome.value))
      && (r.outcome.ChatForbidden? <==> r.floodWaits == 0 && script(r.calls - 1).WriteForbidden?)
      && (r.outcome.Failed? ==> r.outcome.last == script(r.calls - 1))
      && (forall k: nat :: k < r.calls - 1 ==> script(k).OtherError? || script(k).FloodWait?)
      && (forall k: nat :: k < r.calls - 2 ==> script(k).OtherError?)
      && (r.outcome.Failed? ==> r.floodWaits == 1 || (r.calls == 4 && script(3).OtherError?))
      && (r.outcome.Cancelled? ==> cancels(r.calls - 1))
      && (!r.outcome.Cancelled? && r.floodWaits == 0 ==> r.backoff == [0, 1000, 3000, 7000][r.calls - 1])
  {
  }

  /** Attempt `n` is reached: the ones before met other errors, and no sleep after them was cancelled. */
  predicate Reached<T>(script: nat -> Answer<T>, cancels: nat -> bool, n: nat) {
    n < 4 && forall k: nat :: k < n ==> script(k).OtherError? && !cancels(k)
  }

  lemma {:induction false} ReachedIsNext<T>(script: nat -> Answer<T>, cancels: nat -> bool, n: nat)
    requires Reached(script, cancels, n)
    ensures Retried(script, cancels) == RetryFrom(script, cancels, n, [0, 0, 1000, 3000][n])
  {
    if n > 0 { ReachedIsNext(script, cancels, n - 1); }
  }

  /** What a reached attempt decides, and with it the whole report; only an error before the fourth attempt,
      slept off without cancellation, leaves the decision to the next one. */
  lemma {:induction false} AttemptDecides<T>(script: nat -> Answer<T>, cancels: nat -> bool, n: nat)
    requires Reached(script, cancels, n)
    ensures var r, backoff := Retried(script, cancels), [0, 1000, 3000, 7000][n];
      && (script(n).Accepted? ==> r == Report(Done(script(n).value), n + 1, backoff, 0))
      && (script(n).WriteForbidden? ==> r == Report(ChatForbidden, n + 1, backoff, 0))
      && (script(n).FloodWait? && cancels(n) ==> r == Report(Cancelled, n + 1, backoff, 0))
      && (script(n).FloodWait? && !cancels(n) && script(n + 1).Accepted? ==>
            r == Report(Done(script(n + 1).value), n + 2, backoff, 1))
      && (script(n).FloodWait? && !cancels(n) && !script(n + 1).Accepted? ==>
            r == Report(Failed(script(n + 1)), n + 2, backoff, 1))
      && (script(n).OtherError? && n == 3 ==> r == Report(Failed(script(n)), 4, backoff, 0))
      && (script(n).OtherError? && n < 3 && cancels(n) ==> r == Report(Cancelled, n + 1, backoff, 0))
  {
    ReachedIsNext(script, cancels, n);
  }

  /** For every input some reached attempt decides. */
  lemma {:induction false} SomeAttemptDecides<T>(script: nat -> Answer<T>, cancels: nat -> bool) returns (n: nat)
    ensures Reached(script, cancels, n) && (!script(n).OtherError? || n == 3 || cancels(n))
  {
    n := 0;
    while n < 3 && script(n).OtherError? && !cancels(n)
      invariant Reached(script, cancels, n)
    {
      n := n + 1;
    }
  }

  /** Attempt `a` meets a flood wait, is reached and waited for, and the call after the wait is answered
      with write-forbidden. */
  predicate FloodThenForbidden<T>(script: nat -> Answer<T>, cancels: nat -> bool, a: nat) {
    && a < MAX_ATTEMPTS && (forall k: nat :: k < a ==> script(k).OtherError? && !cancels(k))
    && script(a).FloodWait? && !cancels(a) && script(a + 1).WriteForbidden?
  }

  /** The comment on the function promises that a write-forbidden answer is always reported as such, so that
      the pair is disabled.  That holds exactly of those inputs in which none comes right after a flood
      wait; there it is passed on as an ordinary error. */
  lemma ForbiddenIsReportedUnlessAfterFlood<T>(script: nat -> Answer<T>, cancels: nat -> bool)
    ensures var r := Retried(script, cancels);
      (forall k: nat :: k < r.calls && script(k).WriteForbidden? ==> r.outcome.ChatForbidden?)
      <==> !exists a: nat :: FloodThenForbidden(script, cancels, a)
    ensures (exists a: nat :: FloodThenForbidden(script, cancels, a)) ==>
              Retried(script, cancels).outcome == Failed(WriteForbidden)
  {
    var r := Retried(script, cancels);
    RetryFacts(script, cancels);
    if a: nat :| FloodThenForbidden(script, cancels, a) {
      FloodEndsRetry(script, cancels, a, 0, 0);
    }
    if r.floodWaits == 1 && script(r.calls - 1).WriteForbidden? {
      FloodIsLastButOne(script, cancels);
      assert FloodThenForbidden(script, cancels, r.calls - 2);
    }
  }

  /** From any earlier attempt on, such a flood wait decides how the retries end. */
  lemma {:induction false} FloodEndsRetry<T>(script: nat -> Answer<T>, cancels: nat -> bool, a: nat, i: nat, slept: nat)
    requires FloodThenForbidden(script, cancels, a) && i <= a
    ensures var r := RetryFrom(script, cancels, i, slept); r.outcome == Failed(WriteForbidden) && r.calls == a + 2
    decreases a - i
  {
    if i < a { FloodEndsRetry(script, cancels, a, i + 1, slept + Delay(i)); }
  }

  /** After a flood wait there is exactly one more call. */
  lemma FloodIsLastButOne<T>(script: nat -> Answer<T>, cancels: nat -> bool)
    requires Retried(script, cancels).floodWaits == 1
    ensures var n := Retried(script, cancels).calls;
      && 2 <= n && script(n - 2).FloodWait? && !cancels(n - 2)
      && forall k: nat :: k < n - 2 ==> script(k).OtherError? && !cancels(k)
  {
  }

  function FloodScript(millis: nat): nat -> Answer<int> {
    (k: nat) => if k == 0 then FloodWait(millis) else WriteForbidden
  }

  /** Such an input: a flood wait at the first call, then write-forbidden. */
  lemma ForbiddenAfterFloodHappens(millis: nat)
    ensures Retried(FloodScript(millis), _ => false).outcome == Failed(WriteForbidden)
  {
    FloodEndsRetry(FloodScript(millis), _ => false, 0, 0, 0);
  }

  /** Download attempts of one media item: up to three, stopping at success or cancellation. */
  function DownloadFrom(works: nat -> bool, cancels: nat -> bool, i: nat): (bool, nat)
    requires i < 3
    decreases 3 - i
  {
    if works(i) then (true, i + 1)
    else if i == 2 || cancels(i) then (false, i + 1)
    else DownloadFrom(works, cancels, i + 1)
  }

  method DownloadWithRetry(works: nat -> bool, cancels: nat -> bool) returns (ok: bool, downloads: nat)
    ensures (ok, downloads) == DownloadFrom(works, cancels, 0)
    ensures 1 <= downloads <= 3
    ensures ok <==> works(downloads - 1)
    ensures forall k: nat :: k < downloads - 1 ==> !works(k) && !cancels(k)
    ensures ok || downloads == 3 || cancels(downloads - 1)
  {
    for i := 0 to 3
      invariant i < 3 ==> DownloadFrom(works, cancels, 0) == DownloadFrom(works, cancels, i)
      invariant i < 3
      invariant forall k: nat :: k < i ==> !works(k) && !cancels(k)
    {
      if works(i) { return true, i + 1; }
      if i == 2 { return false, 3; }
      if cancels(i) { return false, i + 1; }
    }
  }

  /** One relayed voice message: every send attempt downloads afresh.  `works(k)` and `stops(k)` drive
      the downloads of the k-th attempt; `answers(k)` is what upload and send answer after them, or
      the error with which the downloads failed. */
  function VoiceScript<T>(works: nat -> nat -> bool, stops: nat -> nat -> bool,
                          answers: nat -> Answer<T>): nat -> Answer<T> {
    (k: nat) =>
      if answers(k).Accepted? && !DownloadFrom(works(k), stops(k), 0).0 then OtherError(0) else answers(k)
  }

  /** Without a working download no voice message is ever sent. */
  lemma NoVoiceWithoutDownload<T>(works: nat -> nat -> bool, stops: nat -> nat -> bool, answers: nat -> Answer<T>,
                                  cancels: nat -> bool)
    requires forall k: nat, i: nat :: !works(k)(i)
    ensures !Retried(VoiceScript(works, stops, answers), cancels).outcome.Done?
  {
    var script := VoiceScript(works, stops, answers);
    RetryFacts(script, cancels);
    forall k: nat ensures !script(k).Accepted? { NoDownload(works(k), stops(k), 0); }
  }

  lemma {:induction false} NoDownload(works: nat -> bool, cancels: nat -> bool, i: nat)
    requires i < 3 && forall k: nat :: !works(k)
    ensures !DownloadFrom(works, cancels, i).0
    decreases 3 - i
  {
    if i < 2 { NoDownload(works, cancels, i + 1); }
  }

  function VoiceDownloads(works: nat -> nat -> bool, stops: nat -> nat -> bool, calls: nat): nat {
    if calls == 0 then 0
    else VoiceDownloads(works, stops, calls - 1) + DownloadFrom(works(calls - 1), stops(calls - 1), 0).1
  }

  lemma {:induction false} DownloadsPerCall(works: nat -> nat -> bool, stops: nat -> nat -> bool, calls: nat)
    ensures calls <= VoiceDownloads(works, stops, calls) <= 3 * calls
  {
    if calls > 0 { DownloadsPerCall(works, stops, calls - 1); }
  }

  /** One voice message costs at most 15 downloads, whatever fails. */
  lemma VoiceCost<T>(works: nat -> nat -> bool, stops: nat -> nat -> bool, answers: nat -> Answer<T>,
                     cancels: nat -> bool)
    ensures 1 <= VoiceDownloads(works, stops, Retried(VoiceScript(works, stops, answers), cancels).calls) <= 15
  {
    RetryFacts(VoiceScript(works, stops, answers), cancels);
    DownloadsPerCall(works, stops, Retried(VoiceScript(works, stops, answers), cancels).calls);
  }

  /** And that many it can be: three failing sends, a flood wait at the fourth, one more send, and each time
      the third download is the first to work. */
  lemma {:induction false} VoiceCostIsReached(millis: nat)
    ensures var works: nat -> nat -> bool := _ => i => i == 2;
      var never: nat -> bool := _ => false;
      var answers: nat -> Answer<int> := k => if k == 3 then FloodWait(millis) else OtherError(500);
      VoiceDownloads(works, _ => never, Retried(VoiceScript(works, _ => never, answers), never).calls) == 15
  {
    var works: nat -> nat -> bool := _ => i => i == 2;
    var never: nat -> bool := _ => false;
    var stops: nat -> nat -> bool := _ => never;
    var answers: nat -> Answer<int> := k => if k == 3 then FloodWait(millis) else OtherError(500);
    AttemptDecides(VoiceScript(works, stops, answers), never, 3);
    assert forall k: nat :: DownloadFrom(works(k), stops(k), 0) == (true, 3);
    VoiceOfThree(works, stops, 5);
  }

  lemma {:induction false} VoiceOfThree(works: nat -> nat -> bool, stops: nat -> nat -> bool, calls: nat)
    requires forall k: nat :: DownloadFrom(works(k), stops(k), 0).1 == 3
    ensures VoiceDownloads(works, stops, calls) == 3 * calls
  {
    if calls > 0 { VoiceOfThree(works, stops, calls - 1); }
  }
}
