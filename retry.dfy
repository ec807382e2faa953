/** The pure side of `generateCommitMessage`: what one attempt yields, the
    exponential backoff between attempts, the error after the last attempt,
    and the outcome of a whole run of attempts as a reference definition
    for the retry loop of the class. */
module Retry {
  import opened Wrappers
  import opened JsString
  import opened Response

  const DefaultMaxRetries: nat := 3
  const BackoffBase: nat := 1000
  const BackoffCap: nat := 10000
  const NoResponseMessage: string := "No valid response received from Claude"
  const ExhaustedPrefix: string := "Failed to generate commit message after "
  const ExhaustedMiddle: string := " attempts: "

  /** What the completion service does on one attempt: it is aborted by the
      timeout, it fails with an error, or it yields its events. */
  datatype Attempt = Timeout(message: string) | Failed(message: string) | Events(events: seq<Event>)

  /** The value one attempt returns or the message of the error it raises. */
  function AttemptOutcome(a: Attempt): (r: Result<string>)
    ensures a.Timeout? || a.Failed? ==> r == Err(a.message)
    ensures a.Events? ==> (r.Ok? <==> Extract(a.events).Some?)
    ensures a.Events? && r.Ok? ==> r.value == Extract(a.events).value
    ensures a.Events? && r.Err? ==> r.message == NoResponseMessage
  {
    match a
    case Timeout(m) => Err(m)
    case Failed(m) => Err(m)
    case Events(es) =>
      match Extract(es)
      case Some(t) => Ok(t)
      case None => Err(NoResponseMessage)
  }

  function Pow2(k: nat): (r: nat)
    ensures r >= 1
  {
    if k == 0 then 1 else 2 * Pow2(k - 1)
  }

  /** `Math.min(1000 * Math.pow(2, attempt - 1), 10000)`. */
  function Backoff(attempt: nat): nat
    requires attempt >= 1
  {
    var d := BackoffBase * Pow2(attempt - 1);
    if d < BackoffCap then d else BackoffCap
  }

  /** The delays waited after the failed attempts 1 .. n, in order. */
  function BackoffSchedule(n: nat): (ds: seq<nat>)
    ensures |ds| == n
    ensures forall k :: 1 <= k <= n ==> ds[k - 1] == Backoff(k)
  {
    if n == 0 then [] else BackoffSchedule(n - 1) + [Backoff(n)]
  }

  lemma {:induction false} Pow2Monotone(j: nat, k: nat)
    requires j <= k
    ensures Pow2(j) <= Pow2(k)
  {
    if j < k {
      Pow2Monotone(j, k - 1);
    }
  }

  /** The schedule the source intends: 1000, 2000, 4000, 8000 ms, then the
      10 s cap from the fifth attempt on. */
  lemma BackoffValues(k: nat)
    requires k >= 1
    ensures k == 1 ==> Backoff(k) == 1000
    ensures k == 2 ==> Backoff(k) == 2000
    ensures k == 3 ==> Backoff(k) == 4000
    ensures k == 4 ==> Backoff(k) == 8000
    ensures k >= 5 ==> Backoff(k) == 10000
  {
    if k >= 5 {
      Pow2Monotone(4, k - 1);
    } else {
      assert Pow2(3) == 8;
    }
  }

  /** Each delay lies between one second and the cap, and delays never
      shrink from one attempt to the next. */
  lemma BackoffBoundedMonotone(k: nat)
    requires k >= 1
    ensures BackoffBase <= Backoff(k) <= BackoffCap
    ensures Backoff(k) <= Backoff(k + 1)
  {
    Pow2Monotone(0, k - 1);
  }

  /** The message of the error raised after the last failed attempt. */
  function ExhaustedMessage(maxRetries: nat, cause: string): (m: string)
    ensures StartsWith(m, ExhaustedPrefix) && EndsWith(m, cause)
  {
    StartsWithConcat(ExhaustedPrefix, NatToString(maxRetries) + ExhaustedMiddle + cause);
    assert ExhaustedPrefix + NatToString(maxRetries) + ExhaustedMiddle + cause
        == ExhaustedPrefix + (NatToString(maxRetries) + ExhaustedMiddle + cause);
    EndsWithConcat(ExhaustedPrefix + NatToString(maxRetries) + ExhaustedMiddle, cause);
    ExhaustedPrefix + NatToString(maxRetries) + ExhaustedMiddle + cause
  }

  lemma DigitsThenSeparator(d1: string, d2: string, sep: string, c1: string, c2: string)
    requires forall i :: 0 <= i < |d1| ==> '0' <= d1[i] <= '9'
    requires forall i :: 0 <= i < |d2| ==> '0' <= d2[i] <= '9'
    requires sep != [] && !('0' <= sep[0] <= '9')
    requires d1 + sep + c1 == d2 + sep + c2
    ensures d1 == d2 && c1 == c2
  {
    var x := d1 + sep + c1;
    var y := d2 + sep + c2;
    assert x[|d1|] == sep[0] && y[|d2|] == sep[0];
    assert |d1| == |d2|;
    assert d1 == x[..|d1|] == d2;
    assert c1 == x[|d1| + |sep|..] == c2;
  }

  /** The retry count and the cause can be read back from the message: two
      runs raise the same message only with the same count and cause. */
  lemma ExhaustedMessageInjective(n1: nat, c1: string, n2: nat, c2: string)
    requires ExhaustedMessage(n1, c1) == ExhaustedMessage(n2, c2)
    ensures n1 == n2 && c1 == c2
  {
    var t1 := NatToString(n1) + ExhaustedMiddle + c1;
    var t2 := NatToString(n2) + ExhaustedMiddle + c2;
    ExhaustedMessageSplits(n1, c1);
    ExhaustedMessageSplits(n2, c2);
    PrefixCancels(ExhaustedPrefix, t1, t2);
    MiddleStartsWithSpace();
    DigitsThenSeparator(NatToString(n1), NatToString(n2), ExhaustedMiddle, c1, c2);
    NatToStringRoundTrip(n1);
    NatToStringRoundTrip(n2);
  }

  lemma ExhaustedMessageSplits(n: nat, c: string)
    ensures ExhaustedMessage(n, c) == ExhaustedPrefix + (NatToString(n) + ExhaustedMiddle + c)
  {
  }

  lemma PrefixCancels(p: string, t1: string, t2: string)
    requires p + t1 == p + t2
    ensures t1 == t2
  {
    assert t1 == (p + t1)[|p|..];
  }

  lemma MiddleStartsWithSpace()
    ensures |ExhaustedMiddle| == 11 && ExhaustedMiddle[0] == ' '
  {
  }

  /** What each attempt of a run yields, in order. */
  function Results(outcomes: seq<Attempt>): (rs: seq<Result<string>>)
    ensures |rs| == |outcomes|
    ensures forall i :: 0 <= i < |outcomes| ==> rs[i] == AttemptOutcome(outcomes[i])
  {
    if outcomes == [] then [] else [AttemptOutcome(outcomes[0])] + Results(outcomes[1..])
  }

  /** The index of the first success among the first `n` results. */
  function FirstSuccess(rs: seq<Result<string>>, n: nat): (r: Option<nat>)
    requires n <= |rs|
    ensures r.Some? ==> r.value < n && rs[r.value].Ok? && forall j :: 0 <= j < r.value ==> rs[j].Err?
    ensures r.None? <==> forall j :: 0 <= j < n ==> rs[j].Err?
  {
    if n == 0 then None
    else match FirstSuccess(rs, n - 1)
         case Some(i) => Some(i)
         case None => if rs[n - 1].Ok? then Some(n - 1) else None
  }

  /** How many attempts a run makes: up to and including the first success,
      or all of them. */
  function AttemptsMade(rs: seq<Result<string>>, maxRetries: nat): (k: nat)
    requires 1 <= maxRetries <= |rs|
    ensures 1 <= k <= maxRetries
  {
    match FirstSuccess(rs, maxRetries)
    case Some(i) => i + 1
    case None => maxRetries
  }

  /** The outcome of a run of at most `maxRetries` attempts: the value of the
      first attempt that succeeds, or, when every attempt fails, the
      exhausted-retries error carrying the last attempt's message. */
  function RetryOutcome(rs: seq<Result<string>>, maxRetries: nat): (r: Result<string>)
    requires 1 <= maxRetries <= |rs|
  {
    match FirstSuccess(rs, maxRetries)
    case Some(i) => rs[i]
    case None => Err(ExhaustedMessage(maxRetries, rs[maxRetries - 1].message))
  }

  /** A run succeeds exactly when one of its allowed attempts does, with that
      attempt's value, and it fails with the count and the last cause
      otherwise; results after the allowed attempts never matter. */
  lemma RetrySucceedsIff(rs: seq<Result<string>>, maxRetries: nat)
    requires 1 <= maxRetries <= |rs|
    ensures RetryOutcome(rs, maxRetries).Ok?
            <==> exists j :: 0 <= j < maxRetries && rs[j].Ok?
    ensures RetryOutcome(rs, maxRetries).Ok? ==> RetryOutcome(rs, maxRetries) in rs[..maxRetries]
    ensures RetryOutcome(rs, maxRetries).Err?
            ==> RetryOutcome(rs, maxRetries).message == ExhaustedMessage(maxRetries, rs[maxRetries - 1].message)
    ensures RetryOutcome(rs, maxRetries) == RetryOutcome(rs[..maxRetries], maxRetries)
  {
    FirstSuccessPrefix(rs, maxRetries, maxRetries);
    var f := FirstSuccess(rs, maxRetries);
    if f.Some? {
      assert rs[..maxRetries][f.value] == rs[f.value];
    }
  }

  lemma {:induction false} FirstSuccessPrefix(rs: seq<Result<string>>, m: nat, n: nat)
    requires n <= m <= |rs|
    ensures FirstSuccess(rs, n) == FirstSuccess(rs[..m], n)
  {
    if n > 0 {
      FirstSuccessPrefix(rs, m, n - 1);
      assert rs[..m][n - 1] == rs[n - 1];
    }
  }

  /** A first attempt that succeeds ends the run with its value; one that
      fails leaves the run to the remaining attempts, one fewer of them,
      unless it was the only one allowed. */
  lemma RetryUnfold(rs: seq<Result<string>>, maxRetries: nat)
    requires 1 <= maxRetries <= |rs|
    ensures rs[0].Ok? ==> (RetryOutcome(rs, maxRetries) == rs[0] && AttemptsMade(rs, maxRetries) == 1)
    ensures rs[0].Err? && maxRetries == 1
            ==> RetryOutcome(rs, maxRetries) == Err(ExhaustedMessage(1, rs[0].message))
    ensures rs[0].Err? && maxRetries > 1
            ==> AttemptsMade(rs, maxRetries) == 1 + AttemptsMade(rs[1..], maxRetries - 1)
  {
    if rs[0].Err? && maxRetries > 1 {
      FirstSuccessShift(rs, maxRetries);
    }
  }

  lemma {:induction false} FirstSuccessShift(rs: seq<Result<string>>, n: nat)
    requires 1 <= n <= |rs| && rs[0].Err?
    ensures FirstSuccess(rs, n) ==
            (match FirstSuccess(rs[1..], n - 1) case Some(i) => Some(i + 1) case None => None)
  {
    if n > 1 {
      FirstSuccessShift(rs, n - 1);
      assert rs[1..][n - 2] == rs[n - 1];
    }
  }

  /** Every delay is waited after a failed attempt that is not the last one:
      a run of k attempts waits k - 1 times, never after the last attempt,
      and never more than the cap. */
  lemma DelaysOfRun(rs: seq<Result<string>>, maxRetries: nat)
    requires 1 <= maxRetries <= |rs|
    ensures var ds := BackoffSchedule(AttemptsMade(rs, maxRetries) - 1);
            && |ds| < maxRetries
            && (forall i :: 0 <= i < |ds| ==> rs[i].Err? && BackoffBase <= ds[i] <= BackoffCap)
  {
    var ds := BackoffSchedule(AttemptsMade(rs, maxRetries) - 1);
    forall i | 0 <= i < |ds|
      ensures rs[i].Err? && BackoffBase <= ds[i] <= BackoffCap
    {
      BackoffBoundedMonotone(i + 1);
    }
  }
}
