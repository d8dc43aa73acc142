/** What the retry loop does, told from the answers alone: which end it, what its
    caller gets, how long it waits and what it hands on. */
module RetryOutcomes {
  import opened Instants
  import opened Decimals
  import opened Retry

  /** A response that asks for another try: overloaded, or an upstream fault. */
  ghost predicate TryAgain(status: int) {
    status == 429 || 500 <= status
  }

  /** Nothing is left to try: the context ended, the caller's check said so, or the
      response asks for no other try. */
  ghost predicate Final(a: Attempt) {
    match a
    case NetworkError(_) => false
    case ContextEnded(_) => true
    case Response(_, status, _, vetoed) => vetoed || !TryAgain(status)
  }

  /** The loop goes on exactly past the attempts that leave something to try: it
      stops before the last one allowed only for a final answer, a pause its context
      ended in, or a backoff that overflowed. */
  lemma StopsExactly(c: Config, script: seq<Attempt>, pauses: seq<Pause>, tries: nat, outcome: Outcome, elapsed: int)
    requires c.maxAttempts <= |script| && c.maxAttempts <= |pauses|
    requires Run(c, script, pauses, tries, outcome, elapsed)
    ensures forall i :: 0 <= i < tries - 1 ==> !Final(script[i])
    ensures tries < c.maxAttempts && !Final(script[tries - 1]) ==>
            outcome == Panicked || (outcome == ContextFailed && pauses[tries - 1].ends.Some?)
  {
    hide TimeThrough, DelayBefore, Jittered, OutcomeOf;
  }

  /** What the caller gets is the last answer: a response with its status, below 500
      and not 429, or the failure it was; a context that ends in a pause and an
      overflow come only while something was left to try. */
  lemma OutcomeExactly(c: Config, script: seq<Attempt>, pauses: seq<Pause>, tries: nat, outcome: Outcome, elapsed: int)
    requires c.maxAttempts <= |script| && c.maxAttempts <= |pauses|
    requires Run(c, script, pauses, tries, outcome, elapsed)
    ensures outcome != Nothing
    ensures match script[tries - 1]
            case NetworkError(_) =>
              outcome == NetworkFailed || (tries < c.maxAttempts && (outcome == Panicked || outcome == ContextFailed))
            case ContextEnded(_) => outcome == ContextFailed
            case Response(_, status, _, vetoed) =>
              && (!TryAgain(status) ==> outcome == Returned(status))
              && (TryAgain(status) && (vetoed || tries == c.maxAttempts) ==> outcome == StatusFailed(status))
              && (TryAgain(status) ==>
                    outcome == StatusFailed(status) || outcome == Panicked || outcome == ContextFailed)
  {
    hide TimeThrough, DelayBefore, Jittered;
  }

  /** A context cuts a pause short only by ending before it would be over. */
  lemma CutShortExactly(c: Config, script: seq<Attempt>, pauses: seq<Pause>, tries: nat, outcome: Outcome, elapsed: int)
    requires c.maxAttempts <= |script| && c.maxAttempts <= |pauses|
    requires Run(c, script, pauses, tries, outcome, elapsed)
    requires tries < c.maxAttempts && !Final(script[tries - 1]) && 0 <= DelayBefore(c, script, tries)
    ensures outcome == ContextFailed && pauses[tries - 1].ends.Some?
    ensures pauses[tries - 1].ends.value < Jittered(pauses[tries - 1], DelayBefore(c, script, tries))
  {
    hide TimeThrough, DelayBefore, Jittered;
  }

  // ----- the pauses -----

  /** A pause is drawn from nothing to the whole backoff, every length included. */
  lemma PauseIsDrawn(pause: Pause, delay: int, length: int)
    requires 0 <= length <= delay
    ensures 0 <= Jittered(pause, delay) <= delay
    ensures Jittered(Pause(length, pause.ends), delay) == length
  {
  }

  /** An answer that asks for a number of seconds sets the backoff to that many, up
      to the cap, whatever it was before. */
  lemma RetryAfterIsHonoured(c: Config, script: seq<Attempt>, k: nat, secs: nat)
    requires k < |script| && script[k].Response? && secs <= LONGEST_SAFE_RETRY_AFTER
    requires script[k].retryAfter == Decimal(secs)
    ensures DelayBefore(c, script, k + 1) == Min(secs * SECOND, c.maxDelay)
  {
    hide ParseRetryAfter, Wrap64;
    RetryAfterRoundTrip(secs);
    OverflowIsFarOff(secs);
  }

  /** The time of a run is that of its attempts and of the pauses between them. */
  lemma {:induction false} TimeAddsUp(c: Config, script: seq<Attempt>, pauses: seq<Pause>, k: nat)
    requires k + 1 < |script| && k < |pauses| && 0 <= DelayBefore(c, script, k + 1)
    ensures TimeThrough(c, script, pauses, 0) == script[0].took
    ensures var pause := TimeThrough(c, script, pauses, k + 1) - TimeThrough(c, script, pauses, k) - script[k + 1].took;
            0 <= pause <= DelayBefore(c, script, k + 1)
            && (pauses[k].draw <= DelayBefore(c, script, k + 1) ==> pause == pauses[k].draw)
  {
    hide DelayBefore;
    PauseIsDrawn(pauses[k], DelayBefore(c, script, k + 1), 0);
    if pauses[k].draw <= DelayBefore(c, script, k + 1) {
      PauseIsDrawn(pauses[k], DelayBefore(c, script, k + 1), pauses[k].draw);
    }
  }

  /** A context that ends in a pause is waited for no longer than it takes to end. */
  lemma CutShortOnTime(c: Config, script: seq<Attempt>, pauses: seq<Pause>, tries: nat, outcome: Outcome, elapsed: int)
    requires c.maxAttempts <= |script| && c.maxAttempts <= |pauses|
    requires Run(c, script, pauses, tries, outcome, elapsed)
    ensures var spent := TimeThrough(c, script, pauses, tries - 1);
            var waits := tries < c.maxAttempts && !Final(script[tries - 1]) && outcome == ContextFailed;
            elapsed == spent + if waits then pauses[tries - 1].ends.value else 0
  {
    hide TimeThrough, DelayBefore, Jittered;
  }

  /** A Retry-After is read exactly when it is digits, with a sign or without, that
      stand for a number within 64 bits and not below zero. */
  lemma ReadExactly(s: string, digits: string)
    requires AllDigits(digits) && (s == digits || s == "+" + digits || s == "-" + digits)
    ensures ParseRetryAfter(s) ==
            if MAX_INT64 < Value(digits) || (s == "-" + digits && 0 < Value(digits)) then None else Some(Value(digits))
  {
    assert IsDigit(digits[0]) && ("+" + digits)[1..] == digits == ("-" + digits)[1..];
  }

  lemma NothingElseIsRead(s: string)
    requires ParseRetryAfter(s).Some?
    ensures AllDigits(s) || (s != "" && (s[0] == '+' || s[0] == '-') && AllDigits(s[1..]))
  {
  }

  // ----- what is handed on -----

  /** What one answer hands on to the limiter: the seconds a 429 or 503 asks for. */
  ghost predicate HandsOn(a: Attempt, secs: nat) {
    a.Response? && (a.status == 429 || a.status == 503) && ParseRetryAfter(a.retryAfter) == Some(secs)
  }

  /** The waits handed on come in order, one for each answer that carries one. */
  lemma {:induction false} ReportsInOrder(script: seq<Attempt>) returns (places: seq<nat>)
    ensures |places| == |Reports(script)|
    ensures forall i, j :: 0 <= i < j < |places| ==> places[i] < places[j]
    ensures forall i :: 0 <= i < |places| ==> places[i] < |script| && HandsOn(script[places[i]], Reports(script)[i])
    ensures forall k, secs :: 0 <= k < |script| && HandsOn(script[k], secs) ==> k in places
  {
    hide ParseRetryAfter;
    if script == [] {
      places := [];
    } else {
      var n := |script| - 1;
      places := ReportsInOrder(script[..n]);
      assert forall i :: 0 <= i < |places| ==> places[i] < n;
      if Reports(script) != Reports(script[..n]) {
        places := places + [n];
      }
    }
  }

  // ----- the settings -----

  /** A setting that is given is used as given; one left out is 3 attempts, half a
      second, and 4 seconds at most. */
  lemma SettingsAre(attempts: int, base: int, most: int)
    ensures attempts != 0 && base != 0 && most != 0 ==>
            Defaults(Config(attempts, base, most)) == Config(attempts, base, most)
    ensures Defaults(Config(0, base, most)).maxAttempts == 3
    ensures Defaults(Config(attempts, 0, most)).baseDelay == 500_000_000
    ensures Defaults(Config(attempts, base, 0)).maxDelay == 4_000_000_000
    ensures attempts != 0 ==> Defaults(Config(attempts, base, most)).maxAttempts == attempts
    ensures base != 0 ==> Defaults(Config(attempts, base, most)).baseDelay == base
    ensures most != 0 ==> Defaults(Config(attempts, base, most)).maxDelay == most
  {
  }
}
