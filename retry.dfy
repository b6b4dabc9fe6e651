/**
 * The retry wrapper `safeOperation` and its error filter `isRecoverableError`,
 * written identically in domain-scraper.ts, enhanced-domain-scraper.ts and
 * rea-scraper.ts. The wrapped operation is a given function from the attempt
 * index to what that attempt returns or throws; the `setTimeout` waits are
 * recorded as a list of durations in milliseconds.
 */
module Retry {
  import opened Wrappers
  import opened Text

  /** A thrown value, as `(error as Error).message` sees it: a message, or none */
  datatype Error = Error(message: Option<string>)

  /** What one call of the operation does */
  datatype Outcome<T> = Returned(value: T) | Threw(error: Error)

  /** What `safeOperation` does: its outcome, how many calls it made, and its waits */
  datatype Run<T> = Run(outcome: Outcome<T>, calls: nat, delays: seq<nat>)

  const RecoverablePatterns: seq<string> := ["timeout", "network", "navigation", "element not found"]

  /** A message counts as transient when its lower-cased text contains one of the patterns */
  predicate IsRecoverableError(e: Error) {
    e.message.Some? &&
    exists k :: 0 <= k < |RecoverablePatterns| && Contains(Lower(e.message.value), RecoverablePatterns[k])
  }

  /** The patterns are matched against the lower-cased message, so the letter case of the message never matters */
  lemma RecoverableIgnoresCase(message: string)
    ensures IsRecoverableError(Error(Some(message))) <==> IsRecoverableError(Error(Some(Lower(message))))
  {
    LowerIdempotent(message);
  }

  predicate FailedRecoverably<T>(o: Outcome<T>) {
    o.Threw? && IsRecoverableError(o.error)
  }

  /** The text of the error thrown once every attempt has failed recoverably */
  function ExhaustedMessage(name: string, maxRetries: int): string {
    name + " failed after " + IntToString(maxRetries) + " attempts"
  }

  /** The waits after `n` recoverable failures: 2000 ms, 4000 ms, … */
  function LinearDelays(n: nat): (d: seq<nat>)
    ensures |d| == n
    ensures forall i :: 0 <= i < n ==> d[i] == 2000 * (i + 1)
  {
    seq(n, i requires 0 <= i < n => 2000 * (i + 1))
  }

  /** The attempts from index `i` on, as the `for` loop makes them */
  function RetryFrom<T>(op: nat -> Outcome<T>, name: string, maxRetries: int, i: nat): Run<T>
    decreases maxRetries - i
  {
    if i >= maxRetries then Run(Threw(Error(Some(ExhaustedMessage(name, maxRetries)))), 0, [])
    else if FailedRecoverably(op(i)) then
      var rest := RetryFrom(op, name, maxRetries, i + 1);
      Run(rest.outcome, rest.calls + 1, [2000 * (i + 1)] + rest.delays)
    else Run(op(i), 1, [])
  }

  /** The first attempt at or after `i` (and before `limit`) that does not fail recoverably */
  function FirstStop<T>(op: nat -> Outcome<T>, limit: int, i: nat): (r: Option<nat>)
    ensures r.Some? ==> i <= r.value < limit && !FailedRecoverably(op(r.value))
    ensures r.Some? ==> forall j :: i <= j < r.value ==> FailedRecoverably(op(j))
    ensures r.None? ==> forall j :: i <= j < limit ==> FailedRecoverably(op(j))
    decreases limit - i
  {
    if i >= limit then None
    else if !FailedRecoverably(op(i)) then Some(i)
    else FirstStop(op, limit, i + 1)
  }

  /** The waits after attempts `i` to `k - 1` */
  function DelaysBetween(i: nat, k: nat): (d: seq<nat>)
    requires i <= k
    ensures |d| == k - i
    ensures forall j :: 0 <= j < k - i ==> d[j] == 2000 * (i + j + 1)
  {
    seq(k - i, j requires 0 <= j < k - i => 2000 * (i + j + 1))
  }

  lemma {:induction false} RetryStopsAt<T>(op: nat -> Outcome<T>, name: string, maxRetries: int, i: nat, k: nat)
    requires FirstStop(op, maxRetries, i) == Some(k)
    ensures RetryFrom(op, name, maxRetries, i) == Run(op(k), k + 1 - i, DelaysBetween(i, k))
    decreases maxRetries - i
  {
    if k != i {
      RetryStopsAt(op, name, maxRetries, i + 1, k);
      assert DelaysBetween(i, k) == [2000 * (i + 1)] + DelaysBetween(i + 1, k);
    }
  }

  lemma {:induction false} RetryExhausts<T>(op: nat -> Outcome<T>, name: string, maxRetries: int, i: nat)
    requires i <= maxRetries && FirstStop(op, maxRetries, i).None?
    ensures RetryFrom(op, name, maxRetries, i) ==
      Run(Threw(Error(Some(ExhaustedMessage(name, maxRetries)))), maxRetries - i, DelaysBetween(i, maxRetries))
    decreases maxRetries - i
  {
    if i < maxRetries {
      RetryExhausts(op, name, maxRetries, i + 1);
      assert DelaysBetween(i, maxRetries) == [2000 * (i + 1)] + DelaysBetween(i + 1, maxRetries);
    }
  }

  /**
   * The retry contract: the first attempt that returns or fails with a
   * non-transient error ends the run with that outcome after `k + 1` calls and
   * `k` waits of 2000*(i+1) ms; when every one of the `maxRetries` attempts fails
   * transiently, each is followed by its wait and the run throws
   * "<name> failed after <maxRetries> attempts".
   */
  lemma RetryContract<T>(op: nat -> Outcome<T>, name: string, maxRetries: int)
    ensures var r := RetryFrom(op, name, maxRetries, 0);
      match FirstStop(op, maxRetries, 0)
      case Some(k) => r.outcome == op(k) && r.calls == k + 1 && r.delays == LinearDelays(k)
      case None =>
        && r.outcome == Threw(Error(Some(ExhaustedMessage(name, maxRetries))))
        && r.calls == (if maxRetries > 0 then maxRetries else 0)
        && r.delays == LinearDelays(r.calls)
  {
    match FirstStop(op, maxRetries, 0)
    case Some(k) =>
      RetryStopsAt(op, name, maxRetries, 0, k);
      assert DelaysBetween(0, k) == LinearDelays(k);
    case None =>
      if maxRetries > 0 {
        RetryExhausts(op, name, maxRetries, 0);
        assert DelaysBetween(0, maxRetries) == LinearDelays(maxRetries);
      }
  }

  /** A run that follows `done` calls and the waits `delays` already made */
  function After<T>(done: nat, delays: seq<nat>, r: Run<T>): Run<T> {
    Run(r.outcome, done + r.calls, delays + r.delays)
  }

  /** A transient failure at attempt `i` moves one call and one wait of 2000*(i+1) ms into what is done */
  lemma RetryStep<T>(op: nat -> Outcome<T>, name: string, maxRetries: int, i: nat, delays: seq<nat>)
    requires i < maxRetries && FailedRecoverably(op(i))
    ensures After(i, delays, RetryFrom(op, name, maxRetries, i)) ==
      After(i + 1, delays + [2000 * (i + 1)], RetryFrom(op, name, maxRetries, i + 1))
  {
    var rest := RetryFrom(op, name, maxRetries, i + 1);
    assert RetryFrom(op, name, maxRetries, i) == Run(rest.outcome, rest.calls + 1, [2000 * (i + 1)] + rest.delays);
    ConcatAssociative(delays, [2000 * (i + 1)], rest.delays);
  }

  /** `safeOperation(operation, operationName, maxRetries)` */
  method SafeOperation<T>(op: nat -> Outcome<T>, name: string, maxRetries: int)
    returns (outcome: Outcome<T>, calls: nat, delays: seq<nat>)
    ensures Run(outcome, calls, delays) == RetryFrom(op, name, maxRetries, 0)
    ensures calls <= (if maxRetries > 0 then maxRetries else 0)
    ensures delays == LinearDelays(|delays|)
  {
    var i: nat := 0;
    delays := [];
    assert After(0, [], RetryFrom(op, name, maxRetries, 0)) == RetryFrom(op, name, maxRetries, 0);
    while i < maxRetries
      invariant maxRetries > 0 ==> i <= maxRetries
      invariant maxRetries <= 0 ==> i == 0
      invariant delays == LinearDelays(i)
      invariant RetryFrom(op, name, maxRetries, 0) == After(i, delays, RetryFrom(op, name, maxRetries, i))
      decreases maxRetries - i
    {
      var o := op(i);
      if !FailedRecoverably(o) {
        assert RetryFrom(op, name, maxRetries, i) == Run(o, 1, []);
        return o, i + 1, delays;
      }
      RetryStep(op, name, maxRetries, i, delays);
      delays := delays + [2000 * (i + 1)];
      i := i + 1;
    }
    outcome := Threw(Error(Some(ExhaustedMessage(name, maxRetries))));
    calls := i;
  }

  /** A pattern that has a character the message lacks cannot occur in it */
  lemma {:induction false} AbsentCharRulesOut(s: string, p: string, c: char)
    requires c in p && c !in s
    ensures !Contains(s, p)
  {
    ContainsIff(s, p);
    var k :| 0 <= k < |p| && p[k] == c;
    forall i | 0 <= i <= |s| - |p| ensures !OccursAt(s, p, i) {
      assert s[i + k] in s;
    }
  }

  /** A letter of which neither case occurs in `s` does not occur in its lower-cased form */
  lemma LowerLacks(s: string, c: char, upper: char)
    requires IsLowerAscii(c) && upper as int == c as int - 32
    requires c !in s && upper !in s
    ensures c !in Lower(s)
  {
  }

  /** A navigation timeout is transient */
  lemma NavigationTimeoutIsRecoverable()
    ensures IsRecoverableError(Error(Some("Navigation timeout of 30000ms exceeded")))
  {
    var s := "Navigation timeout of 30000ms exceeded";
    assert s[11] == 't' && s[12] == 'i' && s[13] == 'm' && s[14] == 'e' && s[15] == 'o' && s[16] == 'u' && s[17] == 't';
    assert s[11..18] == "timeout";
    LowerWithoutCapitals("timeout");
    LowerSlice(s, 11, 18);
    ContainsWitness(Lower(s), RecoverablePatterns[0], 11);
  }

  /**
   * A message whose lower-cased text lacks one letter of each pattern (the
   * `m` of "timeout", the `w` of "network", the `v` of "navigation" and the
   * `l` of "element not found") is not transient
   */
  lemma LackingLettersNotRecoverable(msg: string)
    requires 'm' !in Lower(msg) && 'w' !in Lower(msg) && 'v' !in Lower(msg) && 'l' !in Lower(msg)
    ensures !IsRecoverableError(Error(Some(msg)))
  {
    var patterns := RecoverablePatterns;
    assert patterns[0][2] == 'm' && patterns[1][3] == 'w' && patterns[2][2] == 'v' && patterns[3][1] == 'l';
    AbsentCharRulesOut(Lower(msg), patterns[0], 'm');
    AbsentCharRulesOut(Lower(msg), patterns[1], 'w');
    AbsentCharRulesOut(Lower(msg), patterns[2], 'v');
    AbsentCharRulesOut(Lower(msg), patterns[3], 'l');
  }

  /** A JSON syntax error, or a thrown value without a message, is rethrown at once */
  lemma SyntaxErrorIsNotRecoverable()
    ensures !IsRecoverableError(Error(Some("Unexpected token")))
    ensures !IsRecoverableError(Error(None))
  {
    var s := "Unexpected token";
    LowerLacks(s, 'm', 'M');
    LowerLacks(s, 'w', 'W');
    LowerLacks(s, 'v', 'V');
    LowerLacks(s, 'l', 'L');
    LackingLettersNotRecoverable(s);
  }

  /** An operation that always times out is tried three times, with waits of 2, 4 and 6 seconds */
  lemma AlwaysTimingOut(name: string)
    ensures var r := RetryFrom((i: nat) => Outcome<int>.Threw(Error(Some("Navigation timeout of 30000ms exceeded"))), name, 3, 0);
      && r.calls == 3 && r.delays == [2000, 4000, 6000]
      && r.outcome == Threw(Error(Some(name + " failed after 3 attempts")))
  {
    var op := (i: nat) => Outcome<int>.Threw(Error(Some("Navigation timeout of 30000ms exceeded")));
    NavigationTimeoutIsRecoverable();
    assert FailedRecoverably(op(0)) && FailedRecoverably(op(1)) && FailedRecoverably(op(2));
    assert FirstStop(op, 3, 0).None?;
    RetryContract(op, name, 3);
    assert LinearDelays(3) == [2000, 4000, 6000];
    assert IntToString(3) == "3";
    assert ExhaustedMessage(name, 3) == name + (" failed after " + "3" + " attempts");
    assert " failed after " + "3" + " attempts" == " failed after 3 attempts";
  }

  /** A non-transient error on the first attempt is rethrown after that single call, without waiting */
  lemma SyntaxErrorNotRetried(name: string, maxRetries: int)
    requires maxRetries >= 1
    ensures var r := RetryFrom((i: nat) => Outcome<int>.Threw(Error(Some("Unexpected token"))), name, maxRetries, 0);
      r == Run(Threw(Error(Some("Unexpected token"))), 1, [])
  {
    SyntaxErrorIsNotRecoverable();
  }
}
