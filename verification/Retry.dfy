/** The retry loop every upstream request goes through, and the lease it must fit
    in. The upstream is a script: what each attempt would come to. Durations are
    nanoseconds in 64-bit integers. */
module Retry {
  import opened Instants
  import opened Decimals

  const SECOND := 1_000_000_000
  const MILLISECOND := 1_000_000
  const MAX_INT64 := 0x7FFF_FFFF_FFFF_FFFF

  /** Two's-complement wrap-around. */
  function Wrap64(x: int): int {
    (x + 0x8000_0000_0000_0000) % 0x1_0000_0000_0000_0000 - 0x8000_0000_0000_0000
  }

  // ----- Retry-After -----

  predicate AllDigits(s: string) {
    s != "" && forall i :: 0 <= i < |s| ==> IsDigit(s[i])
  }

  /** Integer seconds with an optional sign, within the 64-bit range, not negative. */
  function ParseRetryAfter(s: string): Option<nat> {
    var digits := if s != [] && (s[0] == '+' || s[0] == '-') then s[1..] else s;
    if !AllDigits(digits) then None
    else
      var secs := Value(digits);
      if MAX_INT64 < secs || (s[0] == '-' && 0 < secs) then None else Some(secs)
  }

  /** Every number of seconds an upstream prints is read back as sent, up to the
      64-bit range, and nothing beyond it is. */
  lemma RetryAfterRoundTrip(secs: nat)
    ensures ParseRetryAfter(Decimal(secs)) == if secs <= MAX_INT64 then Some(secs) else None
    ensures ParseRetryAfter("+" + Decimal(secs)) == ParseRetryAfter(Decimal(secs))
    ensures 0 < secs ==> ParseRetryAfter("-" + Decimal(secs)) == None
  {
    ValueOfDecimal(secs);
    assert ("+" + Decimal(secs))[1..] == Decimal(secs) == ("-" + Decimal(secs))[1..];
    assert IsDigit(Decimal(secs)[0]);
  }

  /** Division and remainder that truncate toward zero. */
  function Quot(a: int, b: int): int
    requires 0 < b
  {
    if 0 <= a then a / b else -((-a) / b)
  }

  /** Whole seconds of a refused wait, never less than the wait and less than a
      second more: a caller that waits them is past it. */
  function RetryAfterSeconds(wait: int): (secs: int)
    ensures wait <= secs * SECOND < wait + SECOND
  {
    var secs := Quot(wait, SECOND);
    if 0 < wait - secs * SECOND then secs + 1 else secs
  }

  // ----- the loop -----

  datatype Config = Config(maxAttempts: int, baseDelay: int, maxDelay: int) {
    ghost predicate Valid() {
      0 <= baseDelay <= MAX_INT64 / 2 && 0 <= maxDelay <= MAX_INT64 / 2
    }
  }

  function Defaults(c: Config): Config {
    Config(
      if c.maxAttempts == 0 then 3 else c.maxAttempts,
      if c.baseDelay == 0 then 500 * MILLISECOND else c.baseDelay,
      if c.maxDelay == 0 then 4 * SECOND else c.maxDelay)
  }

  /** What one attempt comes to, and how long it takes until its body is read.
      Vetoed is what the caller's own check says of a retryable status. */
  datatype Attempt =
    | NetworkError(took: nat)
    | ContextEnded(took: nat)
    | Response(took: nat, status: int, retryAfter: string, vetoed: bool)

  /** One pause: the random draw, and when the caller's context ends during it. */
  datatype Pause = Pause(draw: nat, ends: Option<nat>)

  datatype Outcome =
    | Returned(status: int)
    | StatusFailed(status: int)
    | NetworkFailed
    | ContextFailed
    | Panicked
    | Nothing

  predicate RetryableStatus(status: int) {
    500 <= status || status == 429
  }

  /** The attempt leaves the loop free to try again. */
  predicate Retried(a: Attempt) {
    a.NetworkError? || (a.Response? && RetryableStatus(a.status) && !a.vetoed)
  }

  /** What the caller gets when this attempt was the last. */
  function OutcomeOf(a: Attempt): Outcome {
    match a
    case NetworkError(_) => NetworkFailed
    case ContextEnded(_) => ContextFailed
    case Response(_, status, _, _) => if RetryableStatus(status) then StatusFailed(status) else Returned(status)
  }

  /** The backoff after one more failed attempt. */
  function NextDelay(c: Config, delay: int, a: Attempt): int {
    if a.Response? && ParseRetryAfter(a.retryAfter).Some? then
      Min(Wrap64(ParseRetryAfter(a.retryAfter).value * SECOND), c.maxDelay)
    else Min(Wrap64(delay * 2), c.maxDelay)
  }

  /** The backoff in force before attempt k. */
  function DelayBefore(c: Config, script: seq<Attempt>, k: nat): int
    requires k <= |script|
  {
    if k == 0 then c.baseDelay else NextDelay(c, DelayBefore(c, script, k - 1), script[k - 1])
  }

  /** How long pause k lasts when nothing cuts it short. */
  function Jittered(pause: Pause, delay: int): int
    requires 0 <= delay
  {
    pause.draw % (delay + 1)
  }

  predicate CutShort(pause: Pause, delay: int)
    requires 0 <= delay
  {
    pause.ends.Some? && pause.ends.value < Jittered(pause, delay)
  }

  /** The time through attempt k's answer, with every pause slept out. */
  function TimeThrough(c: Config, script: seq<Attempt>, pauses: seq<Pause>, k: nat): int
    requires k < |script| && k <= |pauses|
  {
    if k == 0 then script[0].took
    else
      var delay := DelayBefore(c, script, k);
      TimeThrough(c, script, pauses, k - 1)
      + (if 0 <= delay then Jittered(pauses[k - 1], delay) else 0) + script[k].took
  }

  /** The Retry-After waits handed on to the limiter, one per 429 or 503 that
      carries one, whatever the loop then does. */
  function Reports(script: seq<Attempt>): seq<nat> {
    if script == [] then []
    else
      var a := script[|script| - 1];
      Reports(script[..|script| - 1]) +
      if a.Response? && (a.status == 429 || a.status == 503) && ParseRetryAfter(a.retryAfter).Some?
      then [ParseRetryAfter(a.retryAfter).value] else []
  }

  /** Attempt k is made: those before it were all retried, and the pauses between
      them were slept out. */
  ghost predicate Made(c: Config, script: seq<Attempt>, pauses: seq<Pause>, k: nat)
    requires k <= |script| && k <= |pauses|
  {
    forall i :: 0 <= i < k ==>
      Retried(script[i]) && 0 <= DelayBefore(c, script, i + 1) && !CutShort(pauses[i], DelayBefore(c, script, i + 1))
  }

  lemma NoneMadeBefore(c: Config, script: seq<Attempt>, pauses: seq<Pause>)
    ensures Made(c, script, pauses, 0)
  {
  }

  lemma OneMoreMade(c: Config, script: seq<Attempt>, pauses: seq<Pause>, k: nat)
    requires k < |script| && k < |pauses| && Made(c, script, pauses, k)
    requires Retried(script[k]) && 0 <= DelayBefore(c, script, k + 1)
    requires !CutShort(pauses[k], DelayBefore(c, script, k + 1))
    ensures Made(c, script, pauses, k + 1)
  {
  }

  /** How the loop ends: the attempts made, the outcome and the time it took. */
  ghost predicate Run(c: Config, script: seq<Attempt>, pauses: seq<Pause>, tries: nat, outcome: Outcome, elapsed: int)
    requires c.maxAttempts <= |script| && c.maxAttempts <= |pauses|
  {
    && 0 < tries <= c.maxAttempts && Made(c, script, pauses, tries - 1)
    && var spent, delay := TimeThrough(c, script, pauses, tries - 1), DelayBefore(c, script, tries);
       if tries == c.maxAttempts || !Retried(script[tries - 1]) then
         outcome == OutcomeOf(script[tries - 1]) && elapsed == spent
       else if delay < 0 then outcome == Panicked && elapsed == spent
       else
         && CutShort(pauses[tries - 1], delay)
         && outcome == ContextFailed && elapsed == spent + pauses[tries - 1].ends.value
  }

  /** Sends a request until an attempt is not to be retried or the attempts run
      out. The outcome is that of the last attempt made, unless the context ends
      in a pause, or a pause is drawn from a negative backoff. */
  method DoRetry(config: Config, script: seq<Attempt>, pauses: seq<Pause>)
    returns (outcome: Outcome, tries: nat, elapsed: int, reported: seq<nat>)
    requires config.Valid()
    requires Defaults(config).maxAttempts <= |script| && Defaults(config).maxAttempts <= |pauses|
    ensures tries <= Max(0, Defaults(config).maxAttempts) && reported == Reports(script[..tries])
    ensures Defaults(config).maxAttempts <= 0 ==> outcome == Nothing && tries == 0 && elapsed == 0
    ensures 0 < Defaults(config).maxAttempts ==> Run(Defaults(config), script, pauses, tries, outcome, elapsed)
  {
    hide ParseRetryAfter, Wrap64, Min, Made;
    var c := Defaults(config);
    var delay := c.baseDelay;
    var lastErr := Nothing;
    var attempt := 0;
    elapsed, reported, tries := 0, [], 0;
    while attempt < c.maxAttempts
      invariant 0 <= attempt && (attempt <= c.maxAttempts || attempt == 0) && tries == attempt
      invariant delay == DelayBefore(c, script, attempt)
      invariant 0 < attempt ==> Made(c, script, pauses, attempt - 1)
      invariant attempt == 0 ==> lastErr == Nothing && elapsed == 0
      invariant 0 < attempt ==> Retried(script[attempt - 1]) && lastErr == OutcomeOf(script[attempt - 1])
      invariant 0 < attempt ==> elapsed == TimeThrough(c, script, pauses, attempt - 1)
      invariant reported == Reports(script[..attempt])
    {
      if 0 < attempt {
        if delay + 1 <= 0 {
          return Panicked, tries, elapsed, reported;
        }
        var jittered := pauses[attempt - 1].draw % (delay + 1);
        if pauses[attempt - 1].ends.Some? && pauses[attempt - 1].ends.value < jittered {
          return ContextFailed, tries, elapsed + pauses[attempt - 1].ends.value, reported;
        }
        elapsed := elapsed + jittered;
        OneMoreMade(c, script, pauses, attempt - 1);
      } else {
        NoneMadeBefore(c, script, pauses);
      }
      var a := script[attempt];
      assert script[..attempt + 1][..attempt] == script[..attempt];
      tries := tries + 1;
      elapsed := elapsed + a.took;
      if a.ContextEnded? {
        return ContextFailed, tries, elapsed, reported;
      }
      if a.NetworkError? {
        lastErr := NetworkFailed;
        delay := Min(Wrap64(delay * 2), c.maxDelay);
      } else {
        if a.status < 500 && a.status != 429 {
          return Returned(a.status), tries, elapsed, reported;
        }
        var secs := ParseRetryAfter(a.retryAfter);
        if secs.Some? && (a.status == 429 || a.status == 503) {
          reported := reported + [secs.value];
        }
        lastErr := StatusFailed(a.status);
        if a.vetoed {
          return lastErr, tries, elapsed, reported;
        }
        if secs.Some? {
          delay := Min(Wrap64(secs.value * SECOND), c.maxDelay);
        } else {
          delay := Min(Wrap64(delay * 2), c.maxDelay);
        }
      }
      attempt := attempt + 1;
    }
    outcome := lastErr;
  }

  /** What the loop ends with is settled by the upstream's answers and the draws. */
  lemma RunsAgree(c: Config, script: seq<Attempt>, pauses: seq<Pause>,
                  n: nat, o: Outcome, e: int, m: nat, p: Outcome, f: int)
    requires c.maxAttempts <= |script| && c.maxAttempts <= |pauses|
    requires Run(c, script, pauses, n, o, e) && Run(c, script, pauses, m, p, f)
    ensures n == m && o == p && e == f
  {
    hide TimeThrough, DelayBefore, OutcomeOf, Retried, CutShort;
  }

  // ----- the backoff -----

  function Pow2(k: nat): (p: nat)
    ensures 0 < p
  {
    if k == 0 then 1 else 2 * Pow2(k - 1)
  }

  ghost predicate NoRetryAfter(script: seq<Attempt>) {
    forall i :: 0 <= i < |script| && script[i].Response? ==> ParseRetryAfter(script[i].retryAfter) == None
  }

  /** Without Retry-After the backoff before attempt k is the base doubled k
      times, capped. */
  lemma {:induction false} BackoffDoubles(c: Config, script: seq<Attempt>, k: nat)
    requires c.Valid() && NoRetryAfter(script) && 0 < k <= |script|
    ensures DelayBefore(c, script, k) == Min(c.baseDelay * Pow2(k), c.maxDelay)
  {
    hide ParseRetryAfter, Wrap64, Pow2;
    var x := c.baseDelay * Pow2(k - 1);
    PowersDouble(c.baseDelay, k);
    if 1 < k {
      BackoffDoubles(c, script, k - 1);
    }
    DoublingFits(c, x, DelayBefore(c, script, k - 1));
  }

  lemma PowersDouble(base: int, k: nat)
    requires 0 < k && 0 <= base
    ensures 0 <= base * Pow2(k - 1) && base * Pow2(k) == 2 * (base * Pow2(k - 1)) && Pow2(0) == 1
  {
  }

  lemma DoublingFits(c: Config, x: int, delay: int)
    requires c.Valid() && 0 <= x && (delay == x <= MAX_INT64 / 2 || delay == Min(x, c.maxDelay))
    ensures Min(Wrap64(delay * 2), c.maxDelay) == Min(2 * x, c.maxDelay)
  {
  }

  /** No pause is ever drawn from more than the cap, whatever an upstream asks for. */
  lemma BackoffCapped(c: Config, script: seq<Attempt>, k: nat)
    requires 0 < k <= |script|
    ensures DelayBefore(c, script, k) <= c.maxDelay
  {
    hide ParseRetryAfter, Wrap64;
  }

  // ----- a Retry-After past the 64-bit range -----

  /** The asked-for seconds, in nanoseconds, wrap to a negative backoff. */
  predicate Overflows(a: Attempt) {
    a.Response? && ParseRetryAfter(a.retryAfter).Some? && Wrap64(ParseRetryAfter(a.retryAfter).value * SECOND) < 0
  }

  const LONGEST_SAFE_RETRY_AFTER := 9_223_372_036

  lemma OverflowIsFarOff(secs: nat)
    ensures secs <= LONGEST_SAFE_RETRY_AFTER ==> Wrap64(secs * SECOND) == secs * SECOND
    ensures Wrap64((LONGEST_SAFE_RETRY_AFTER + 1) * SECOND) < 0
  {
  }

  lemma {:induction false} MadeWithBackoff(c: Config, script: seq<Attempt>, pauses: seq<Pause>, k: nat)
    requires c.Valid() && k <= |script| && k <= |pauses| && Made(c, script, pauses, k)
    ensures 0 <= DelayBefore(c, script, k) <= MAX_INT64 / 2
  {
    if 0 < k {
      BackoffCapped(c, script, k);
      assert 0 <= DelayBefore(c, script, k - 1 + 1);
    }
  }

  /** A pause that lets the loop go on, drawn from a backoff of any sign. */
  ghost predicate SleptOut(pause: Pause, delay: int) {
    0 <= delay ==> !CutShort(pause, delay)
  }

  /** Answer k asks for a pause that cannot be drawn: it is retried with attempts
      left and its Retry-After overflows, every answer before it is retried with one
      that does not, and no context ends in the pauses between them. */
  ghost predicate PanicsAt(c: Config, script: seq<Attempt>, pauses: seq<Pause>, k: nat) {
    && k + 1 < c.maxAttempts <= |script| && c.maxAttempts <= |pauses|
    && (forall i :: 0 <= i <= k ==> Retried(script[i]))
    && (forall i :: 0 <= i < k ==> !Overflows(script[i]) && SleptOut(pauses[i], DelayBefore(c, script, i + 1)))
    && Overflows(script[k])
  }

  /** A backoff is negative exactly when the last answer overflowed. */
  lemma NegativeExactly(c: Config, script: seq<Attempt>, k: nat)
    requires c.Valid() && k < |script| && 0 <= DelayBefore(c, script, k) <= MAX_INT64 / 2
    ensures DelayBefore(c, script, k + 1) < 0 <==> Overflows(script[k])
  {
    hide ParseRetryAfter, Wrap64, DelayBefore;
    DelayAfter(c, script, k);
    NextNegative(c, DelayBefore(c, script, k), script[k]);
  }

  lemma DelayAfter(c: Config, script: seq<Attempt>, k: nat)
    requires k < |script|
    ensures DelayBefore(c, script, k + 1) == NextDelay(c, DelayBefore(c, script, k), script[k])
  {
    hide ParseRetryAfter, Wrap64, NextDelay;
  }

  lemma NextNegative(c: Config, delay: int, a: Attempt)
    requires c.Valid() && 0 <= delay <= MAX_INT64 / 2
    ensures NextDelay(c, delay, a) < 0 <==> Overflows(a)
  {
    hide ParseRetryAfter, Wrap64;
    WrapFits(delay * 2);
  }

  lemma WrapFits(x: int)
    requires 0 <= x <= MAX_INT64
    ensures Wrap64(x) == x
  {
  }

  lemma {:induction false} SafeBefore(c: Config, script: seq<Attempt>, pauses: seq<Pause>, k: nat, upTo: nat)
    requires c.Valid() && PanicsAt(c, script, pauses, k) && upTo <= k
    ensures Made(c, script, pauses, upTo)
  {
    hide Made, Overflows, Retried, DelayBefore, CutShort, ParseRetryAfter, Wrap64;
    if upTo == 0 {
      NoneMadeBefore(c, script, pauses);
    } else {
      SafeBefore(c, script, pauses, k, upTo - 1);
      MadeWithBackoff(c, script, pauses, upTo - 1);
      NegativeExactly(c, script, upTo - 1);
      assert SleptOut(pauses[upTo - 1], DelayBefore(c, script, upTo - 1 + 1));
      OneMoreMade(c, script, pauses, upTo - 1);
    }
  }

  /** The loop panics exactly on the inputs with such an answer: told by what the
      upstream sends and the draws alone. */
  lemma PanicsExactly(c: Config, script: seq<Attempt>, pauses: seq<Pause>, tries: nat, outcome: Outcome, elapsed: int)
    requires c.Valid() && c.maxAttempts <= |script| && c.maxAttempts <= |pauses|
    requires Run(c, script, pauses, tries, outcome, elapsed)
    ensures outcome == Panicked <==> exists k: nat :: PanicsAt(c, script, pauses, k)
  {
    hide Overflows, TimeThrough, DelayBefore, CutShort;
    if outcome == Panicked {
      PanicIsAsked(c, script, pauses, tries, elapsed);
    }
    if k: nat :| PanicsAt(c, script, pauses, k) {
      SafeBefore(c, script, pauses, k, k);
      MadeWithBackoff(c, script, pauses, k);
      NegativeExactly(c, script, k);
      assert Run(c, script, pauses, k + 1, Panicked, TimeThrough(c, script, pauses, k));
      RunsAgree(c, script, pauses, tries, outcome, elapsed, k + 1, Panicked, TimeThrough(c, script, pauses, k));
    }
  }

  lemma PanicIsAsked(c: Config, script: seq<Attempt>, pauses: seq<Pause>, tries: nat, elapsed: int)
    requires c.Valid() && c.maxAttempts <= |script| && c.maxAttempts <= |pauses|
    requires Run(c, script, pauses, tries, Panicked, elapsed)
    ensures 0 < tries && PanicsAt(c, script, pauses, tries - 1)
  {
    hide Overflows, TimeThrough, DelayBefore, CutShort;
    forall i | 0 <= i < tries
      ensures DelayBefore(c, script, i + 1) < 0 <==> Overflows(script[i])
    {
      MadeWithBackoff(c, script, pauses, i);
      NegativeExactly(c, script, i);
    }
  }

  /** One overloaded answer does it: with every default, 9223372037 seconds. */
  lemma HugeRetryAfterPanics(pauses: seq<Pause>) returns (script: seq<Attempt>)
    requires |pauses| == Defaults(SEARCH).maxAttempts
    ensures |script| == Defaults(SEARCH).maxAttempts
    ensures forall i :: 0 <= i < |script| ==> script[i] == Response(0, 503, Decimal(9_223_372_037), false)
    ensures Run(Defaults(SEARCH), script, pauses, 1, Panicked, 0)
  {
    hide ParseRetryAfter, Decimal, Wrap64;
    var huge := Response(0, 503, Decimal(9_223_372_037), false);
    script := [huge, huge, huge];
    RetryAfterRoundTrip(9_223_372_037);
    OverflowIsFarOff(0);
    NegativeExactly(Defaults(SEARCH), script, 0);
  }

  // ----- how long it takes, and the lease around it -----

  /** The longest a run can take: every attempt its client timeout, every pause the cap. */
  function LongestRun(attempts: int, timeout: int, maxDelay: int): int {
    attempts * timeout + (attempts - 1) * maxDelay
  }

  ghost predicate TimedOut(script: seq<Attempt>, timeout: int) {
    forall i :: 0 <= i < |script| ==> script[i].took <= timeout
  }

  lemma FirstAttempt(timeout: int, maxDelay: int)
    ensures LongestRun(1, timeout, maxDelay) == timeout
  {
  }

  lemma LongestRunNext(n: int, timeout: int, maxDelay: int)
    ensures LongestRun(n + 1, timeout, maxDelay) == LongestRun(n, timeout, maxDelay) + maxDelay + timeout
  {
    assert (n + 1) * timeout == n * timeout + timeout;
    assert n * maxDelay == (n - 1) * maxDelay + maxDelay;
  }

  lemma PauseBounded(c: Config, script: seq<Attempt>, pauses: seq<Pause>, k: nat)
    requires c.Valid() && 0 < k <= |script| && k <= |pauses|
    ensures 0 <= DelayBefore(c, script, k) ==> Jittered(pauses[k - 1], DelayBefore(c, script, k)) <= c.maxDelay
  {
    BackoffCapped(c, script, k);
  }

  lemma {:induction false} TimeThroughBounded(c: Config, script: seq<Attempt>, pauses: seq<Pause>, k: nat, timeout: int)
    requires c.Valid() && k < |script| && k <= |pauses| && TimedOut(script, timeout)
    ensures TimeThrough(c, script, pauses, k) <= LongestRun(k + 1, timeout, c.maxDelay)
  {
    hide ParseRetryAfter, Wrap64, NextDelay, LongestRun, DelayBefore, Jittered;
    if k == 0 {
      FirstAttempt(timeout, c.maxDelay);
    } else {
      TimeThroughBounded(c, script, pauses, k - 1, timeout);
      LongestRunNext(k, timeout, c.maxDelay);
      PauseBounded(c, script, pauses, k);
    }
  }

  lemma LongestRunGrows(n: nat, m: nat, timeout: nat, maxDelay: nat)
    requires 0 < n <= m
    ensures LongestRun(n, timeout, maxDelay) <= LongestRun(m, timeout, maxDelay)
  {
    assert m * timeout == n * timeout + (m - n) * timeout;
    assert (m - 1) * maxDelay == (n - 1) * maxDelay + (m - n) * maxDelay;
  }

  /** No run outlasts its attempts' timeouts and the capped pauses between them. */
  lemma RunBounded(c: Config, script: seq<Attempt>, pauses: seq<Pause>,
                   tries: nat, outcome: Outcome, elapsed: int, timeout: nat)
    requires c.Valid() && c.maxAttempts <= |script| && c.maxAttempts <= |pauses|
    requires Run(c, script, pauses, tries, outcome, elapsed) && TimedOut(script, timeout)
    ensures elapsed <= LongestRun(c.maxAttempts, timeout, c.maxDelay)
  {
    hide Made, TimeThrough, ParseRetryAfter, LongestRun;
    TimeThroughBounded(c, script, pauses, tries - 1, timeout);
    LongestRunGrows(tries, c.maxAttempts, timeout, c.maxDelay);
    if tries < c.maxAttempts {
      BackoffCapped(c, script, tries);
      LongestRunGrows(tries + 1, c.maxAttempts, timeout, c.maxDelay);
      LongestRunNext(tries, timeout, c.maxDelay);
    }
  }

  // ----- the SearXNG lease -----

  const RECOVERY_SLACK := 10 * SECOND

  function SearxngLeaseTtl(clientTimeout: int): int {
    3 * clientTimeout + 2 * (4 * SECOND) + RECOVERY_SLACK
  }

  /** The settings of the searcher's requests: every default. */
  const SEARCH := Config(0, 0, 0)

  /** The lease outlives every run of the loop by the recovery slack at least. */
  lemma LeaseOutlivesRetry(script: seq<Attempt>, pauses: seq<Pause>,
                           tries: nat, outcome: Outcome, elapsed: int, timeout: nat)
    requires Defaults(SEARCH).maxAttempts <= |script| && Defaults(SEARCH).maxAttempts <= |pauses|
    requires Run(Defaults(SEARCH), script, pauses, tries, outcome, elapsed) && TimedOut(script, timeout)
    ensures elapsed + RECOVERY_SLACK <= SearxngLeaseTtl(timeout)
  {
    hide Made, TimeThrough, ParseRetryAfter;
    RunBounded(Defaults(SEARCH), script, pauses, tries, outcome, elapsed, timeout);
  }

  /** The lease could not be shorter: an overloaded upstream that asks for four
      seconds and answers as late as it may takes all of it but the slack. */
  lemma LeaseIsTight(timeout: nat) returns (script: seq<Attempt>, pauses: seq<Pause>)
    ensures |script| == |pauses| == Defaults(SEARCH).maxAttempts && TimedOut(script, timeout)
    ensures Run(Defaults(SEARCH), script, pauses, 3, StatusFailed(503), SearxngLeaseTtl(timeout) - RECOVERY_SLACK)
  {
    hide ParseRetryAfter;
    var c, slow := Defaults(SEARCH), Response(timeout, 503, "4", false);
    script, pauses := [slow, slow, slow], [Pause(4 * SECOND, None), Pause(4 * SECOND, None), Pause(0, None)];
    assert Decimal(4) == "4";
    RetryAfterRoundTrip(4);
    assert DelayBefore(c, script, 1) == 4 * SECOND;
    assert DelayBefore(c, script, 2) == 4 * SECOND;
    assert TimeThrough(c, script, pauses, 0) == timeout;
    assert TimeThrough(c, script, pauses, 1) == 2 * timeout + 4 * SECOND;
    assert TimeThrough(c, script, pauses, 2) == 3 * timeout + 8 * SECOND;
  }
}
