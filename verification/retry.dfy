/**
 * The package-metadata update loop. A freshly uploaded package is not always
 * ready to be updated, so the PUT is repeated, with a fixed pause after each
 * refusal, until the server answers 201 or the eleventh attempt is refused.
 */
module Retry {
  import opened Jamf

  /** The eleventh refused attempt raises instead of pausing. */
  const MaxAttempts: nat := 11
  /** Time units slept after each refused attempt. */
  const RetryDelay: nat := 20

  /** How the loop ended: after how many PUTs, whether the last was accepted, and its status. */
  datatype Retry = Retry(attempts: nat, created: bool, lastStatus: nat)

  /** The index of the first 201 in `s`, or `|s|` when there is none. */
  function FirstCreated(s: seq<nat>): (k: nat)
    ensures k <= |s|
    ensures k < |s| ==> s[k] == Created
    ensures forall j :: 0 <= j < k ==> s[j] != Created
  {
    if s == [] then 0
    else if s[0] == Created then 0
    else 1 + FirstCreated(s[1..])
  }

  /**
   * What the loop does with the statuses the server would give to successive PUTs:
   * it stops at the first 201 among the first eleven, or gives up after eleven.
   */
  function RetryOutcome(statuses: seq<nat>): (r: Retry)
    requires |statuses| >= MaxAttempts
    ensures 1 <= r.attempts <= MaxAttempts
    ensures r.created <==> exists i :: 0 <= i < MaxAttempts && statuses[i] == Created
    ensures r.created ==> statuses[r.attempts - 1] == Created
    ensures forall j :: 0 <= j < r.attempts - 1 ==> statuses[j] != Created
    ensures !r.created ==> r.attempts == MaxAttempts
    ensures r.lastStatus == statuses[r.attempts - 1]
  {
    var k := FirstCreated(statuses[..MaxAttempts]);
    if k < MaxAttempts then Retry(k + 1, true, statuses[k])
    else Retry(MaxAttempts, false, statuses[MaxAttempts - 1])
  }

  /**
   * The calls of a loop that ran `n` attempts: each PUT but the last is followed
   * by a pause (the last one either succeeded or raised).
   */
  function AttemptCalls(put: Call, n: nat): seq<Call>
    requires n >= 1
  {
    if n == 1 then [put] else AttemptCalls(put, n - 1) + [Pause(RetryDelay), put]
  }

  function CountPuts(calls: seq<Call>): nat
  {
    if calls == [] then 0
    else CountPuts(calls[..|calls| - 1]) + (if calls[|calls| - 1].PutPackage? then 1 else 0)
  }

  function CountPauses(calls: seq<Call>): nat
  {
    if calls == [] then 0
    else CountPauses(calls[..|calls| - 1]) + (if calls[|calls| - 1].Pause? then 1 else 0)
  }

  lemma {:induction false} CountsAppend(a: seq<Call>, b: seq<Call>)
    ensures CountPuts(a + b) == CountPuts(a) + CountPuts(b)
    ensures CountPauses(a + b) == CountPauses(a) + CountPauses(b)
  {
    if b != [] {
      assert (a + b)[..|a + b| - 1] == a + b[..|b| - 1];
      CountsAppend(a, b[..|b| - 1]);
    } else {
      assert a + b == a;
    }
  }

  /**
   * A loop of `n` attempts makes `n` PUTs, all of them the same request, and
   * sleeps `n - 1` times, each time for the fixed delay.
   */
  lemma {:induction false} AttemptAccounting(put: Call, n: nat)
    requires n >= 1 && put.PutPackage?
    ensures |AttemptCalls(put, n)| == 2 * n - 1 && AttemptCalls(put, n)[0] == put
    ensures CountPuts(AttemptCalls(put, n)) == n
    ensures CountPauses(AttemptCalls(put, n)) == n - 1
    ensures forall c :: c in AttemptCalls(put, n) ==> c == put || c == Pause(RetryDelay)
  {
    if n > 1 {
      AttemptAccounting(put, n - 1);
      CountsAppend(AttemptCalls(put, n - 1), [Pause(RetryDelay), put]);
      var tail := [Pause(RetryDelay), put];
      assert tail[..1] == [Pause(RetryDelay)] && [Pause(RetryDelay)][..0] == [];
      assert CountPuts([Pause(RetryDelay)]) == 0 && CountPauses([Pause(RetryDelay)]) == 1;
      assert CountPuts(tail) == 1 && CountPauses(tail) == 1;
    }
  }

  /**
   * The loop itself. `statuses[i]` is the status the server gives the PUT of
   * attempt `i + 1`; `sleeps` counts the pauses and `calls` records the PUTs
   * and pauses in order.
   */
  method UpdatePackage(put: Call, statuses: seq<nat>) returns (r: Retry, sleeps: nat, calls: seq<Call>)
    requires |statuses| >= MaxAttempts
    ensures r == RetryOutcome(statuses)
    ensures sleeps == r.attempts - 1
    ensures calls == AttemptCalls(put, r.attempts)
  {
    var count := 0;
    sleeps := 0;
    calls := [];
    while true
      invariant 0 <= count < MaxAttempts
      invariant forall j :: 0 <= j < count ==> statuses[j] != Created
      invariant sleeps == count
      invariant count == 0 ==> calls == []
      invariant count > 0 ==> calls == AttemptCalls(put, count) + [Pause(RetryDelay)]
      decreases MaxAttempts - count
    {
      count := count + 1;
      var status := statuses[count - 1];
      calls := calls + [put];
      if status == Created {
        r := Retry(count, true, status);
        break;
      }
      if count > 10 {
        // `upload` raises here with the last status
        r := Retry(count, false, status);
        break;
      }
      sleeps := sleeps + 1;
      calls := calls + [Pause(RetryDelay)];
    }
  }

  /** Ten refusals then a 201: the update succeeds on its eleventh and last attempt. */
  lemma SucceedsOnLastAttempt(statuses: seq<nat>)
    requires |statuses| >= MaxAttempts
    requires forall j :: 0 <= j < MaxAttempts - 1 ==> statuses[j] != Created
    requires statuses[MaxAttempts - 1] == Created
    ensures RetryOutcome(statuses) == Retry(MaxAttempts, true, Created)
  {
  }

  /** Eleven refusals: the update gives up after exactly eleven PUTs, reporting the eleventh status. */
  lemma GivesUpAfterEleven(statuses: seq<nat>)
    requires |statuses| >= MaxAttempts
    requires forall j :: 0 <= j < MaxAttempts ==> statuses[j] != Created
    ensures RetryOutcome(statuses) == Retry(MaxAttempts, false, statuses[MaxAttempts - 1])
  {
  }

  /** Statuses after the eleventh are never consulted. */
  lemma LaterStatusesIgnored(s: seq<nat>, t: seq<nat>)
    requires |s| >= MaxAttempts && |t| >= MaxAttempts
    requires s[..MaxAttempts] == t[..MaxAttempts]
    ensures RetryOutcome(s) == RetryOutcome(t)
  {
  }
}
