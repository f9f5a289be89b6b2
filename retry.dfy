/** The retry coordinator of main.py (`search_with_retry`): a bounded loop
    over the page fetcher with exponential backoff between failed attempts.

    The fetcher is an oracle: `answers[k]` is the text that the fetch made by
    attempt k + 1 returns, the empty string standing for every classified
    failure (timeout, HTTP error, connection error, other request error).
    Sleeping is recorded, not performed: each sleep appends its interval to
    the schedule the coordinator returns. */
module Retry {
  import opened Wrappers
  import opened Seqs

  /** `max_retries` in main.py. */
  const MaxRetries: nat := 10
  /** `initial_interval` in main.py, in seconds. */
  const InitialInterval: nat := 2
  /** `range(1, max_retries)` yields the attempts 1 .. MaxRetries - 1. */
  const Attempts: nat := MaxRetries - 1

  /** What the coordinator ends with: it returns a value (the page text, or
      Python's None once the loop is exhausted), or the process exits with
      status 1. */
  datatype RetryOutcome = Returned(text: Option<string>) | ExitedFatally

  predicate NonEmpty(s: string) { s != "" }

  function Pow2(n: nat): (r: nat)
    ensures r >= 1
  {
    if n == 0 then 1 else 2 * Pow2(n - 1)
  }

  /** The first `n` sleep intervals of the backoff: the interval starts at
      InitialInterval and doubles after every sleep. */
  function Backoff(n: nat): (r: seq<nat>)
    ensures |r| == n
    ensures forall i :: 0 <= i < n ==> r[i] == InitialInterval * Pow2(i)
  {
    if n == 0 then [] else Backoff(n - 1) + [InitialInterval * Pow2(n - 1)]
  }

  function Sum(s: seq<nat>): (total: nat)
  {
    if s == [] then 0 else Sum(s[..|s| - 1]) + s[|s| - 1]
  }

  /** What `search_with_retry` returns for the oracle `answers`: the first
      non-empty text among the attempts the loop makes, or None. */
  function Retrieved(answers: seq<string>): (r: Option<string>)
    requires |answers| >= Attempts
    ensures r.Some? ==> r.value != ""
    ensures r.Some? ==>
      exists k :: 0 <= k < Attempts && r.value == answers[k] && forall j :: 0 <= j < k ==> answers[j] == ""
    ensures r.None? <==> forall k :: 0 <= k < Attempts ==> answers[k] == ""
  {
    match FirstWhere(answers[..Attempts], NonEmpty)
    case Some(k) => Some(answers[k])
    case None => None
  }

  /** `search_with_retry`. Returns the outcome, the number of fetches made
      and the sleep intervals taken, in order. */
  method SearchWithRetry(answers: seq<string>) returns (out: RetryOutcome, fetches: nat, sleeps: seq<nat>)
    requires |answers| >= Attempts
    // the fatal exit is never reached, and the value is the first non-empty answer
    ensures out == Returned(Retrieved(answers))
    // at most MaxRetries - 1 fetches are ever made
    ensures 1 <= fetches <= Attempts
    // every fetch before the last one came back empty
    ensures forall k :: 0 <= k < fetches - 1 ==> answers[k] == ""
    // success: the last fetch is the first non-empty one, and its text is returned
    ensures out.text.Some? ==> answers[fetches - 1] != "" && out.text.value == answers[fetches - 1]
    // exhaustion: all MaxRetries - 1 fetches were empty
    ensures out.text.None? ==> fetches == Attempts && answers[fetches - 1] == ""
    // one sleep per failed attempt, including the last one, doubling from InitialInterval
    ensures |sleeps| == if out.text.Some? then fetches - 1 else fetches
    ensures forall i :: 0 <= i < |sleeps| ==> sleeps[i] == InitialInterval * Pow2(i)
  {
    var interval := InitialInterval;
    fetches, sleeps := 0, [];
    var attempt := 1;
    while attempt < MaxRetries
      invariant 1 <= attempt <= MaxRetries
      invariant fetches == attempt - 1
      invariant forall k :: 0 <= k < fetches ==> answers[k] == ""
      invariant sleeps == Backoff(fetches)
      invariant interval == InitialInterval * Pow2(fetches)
    {
      var text := answers[attempt - 1];
      fetches := fetches + 1;
      if text != "" {
        ghost var hit := FirstWhere(answers[..Attempts], NonEmpty);
        assert NonEmpty(answers[..Attempts][attempt - 1]);
        assert hit == Some(attempt - 1);
        return Returned(Some(text)), fetches, sleeps;
      }
      if attempt == MaxRetries {
        return ExitedFatally, fetches, sleeps;
      }
      sleeps := sleeps + [interval];
      interval := interval * 2;
      attempt := attempt + 1;
    }
    out := Returned(None);
  }

  /** Total time slept after `n` failed attempts:
      InitialInterval * (2^n - 1), e.g. 1022 seconds after all nine. */
  lemma {:induction false} BackoffTotal(n: nat)
    ensures Sum(Backoff(n)) == InitialInterval * (Pow2(n) - 1)
  {
    if n > 0 {
      BackoffTotal(n - 1);
      var s := Backoff(n);
      assert s[..|s| - 1] == Backoff(n - 1);
    }
  }
}
