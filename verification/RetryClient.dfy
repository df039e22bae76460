/**
 The retry loop of the TypeScript SDK client. The network is a function from the
 attempt number to the answer of that attempt, None where the fetch is rejected
 or the body cannot be read; sleeps are in milliseconds.
 */
module RetryClient {
  import opened Common

  datatype Answer = Answer(status: int, text: string)

  datatype Sent = Sent(verb: string, path: string, key: Option<string>, body: Option<string>)

  const IDEMPOTENT_METHODS: set<string> := {"GET", "HEAD", "PUT", "DELETE"}
  const MUTATING_METHODS: set<string> := {"POST", "PATCH", "PUT", "DELETE"}

  function UpperChar(c: char): char {
    if 'a' <= c <= 'z' then c - 'a' + 'A' else c
  }

  /** No lower-case letter is left, and only those change, each to its capital. */
  function Upper(s: string): (u: string)
    ensures |u| == |s| && forall i :: 0 <= i < |s| ==> !('a' <= u[i] <= 'z')
    ensures forall i :: 0 <= i < |s| ==> u[i] == s[i] || ('a' <= s[i] <= 'z' && s[i] as int - u[i] as int == 32)
  {
    seq(|s|, i requires 0 <= i < |s| => UpperChar(s[i]))
  }

  predicate Retryable(verb: string, a: Answer) {
    (a.status == 429 || a.status >= 500) && verb in IDEMPOTENT_METHODS
  }

  function KeyFor(verb: string, explicitKey: Option<string>, freshKey: string): (key: Option<string>)
    ensures explicitKey.Some? ==> key == explicitKey
    ensures explicitKey.None? ==> key == if verb in {"POST", "PATCH", "PUT", "DELETE"} then Some(freshKey) else None
  {
    if explicitKey.Some? then explicitKey
    else if verb in MUTATING_METHODS then Some(freshKey)
    else None
  }

  function Pow2(n: nat): real {
    if n == 0 then 1.0 else 2.0 * Pow2(n - 1)
  }

  function Sum(xs: seq<real>): real {
    if xs == [] then 0.0 else Sum(xs[..|xs| - 1]) + xs[|xs| - 1]
  }

  /** The sleep before retry i + 1. */
  function Pause(backoffMs: real, i: nat): real {
    backoffMs * Pow2(i)
  }

  /** The first n doublings of b add up to b*(2^n - 1). */
  lemma {:induction false} DoublingSum(b: real, slept: seq<real>)
    requires forall i :: 0 <= i < |slept| ==> slept[i] == Pause(b, i)
    ensures Sum(slept) == b * (Pow2(|slept|) - 1.0)
  {
    if slept != [] {
      var n := |slept| - 1;
      DoublingSum(b, slept[..n]);
      var p := Pow2(n);
      assert Sum(slept) == b * (p - 1.0) + b * p;
      assert b * (p - 1.0) + b * p == b * (2.0 * p - 1.0);
      assert Pow2(n + 1) == 2.0 * p;
    }
  }

  /** The most attempts one call can make: a negative maxRetries still sends once. */
  function MaxSends(maxRetries: int): nat {
    if maxRetries < 0 then 1 else maxRetries + 1
  }

  class TenaraClient {
    const maxRetries: int
    const backoffMs: real

    constructor (maxRetries: int := 3, backoffMs: real := 100.0)
      ensures this.maxRetries == maxRetries && this.backoffMs == backoffMs
    {
      this.maxRetries, this.backoffMs := maxRetries, backoffMs;
    }

    /**
     Every attempt repeats the first one, key included; the call stops at the
     first answer that is not retryable or when the retries are used up, and the
     sleeps double from backoffMs. A rejected fetch ends it at once, with the
     exception that None stands for.
     */
    method Request(verb0: string, path: string, body: Option<string>, explicitKey: Option<string>,
                   freshKey: string, net: nat -> Option<Answer>)
      returns (result: Option<Answer>, sent: seq<Sent>, slept: seq<real>)
      ensures 1 <= |sent| && (|sent| == 1 || |sent| <= maxRetries + 1)
      ensures forall i :: 0 <= i < |sent| ==>
                sent[i] == Sent(Upper(verb0), path, KeyFor(Upper(verb0), explicitKey, freshKey), body)
      ensures result == net(|sent| - 1)
      ensures forall i :: 0 <= i < |sent| - 1 ==>
                net(i).Some? && (net(i).value.status == 429 || net(i).value.status >= 500)
      ensures Upper(verb0) in {"GET", "HEAD", "PUT", "DELETE"} && result.Some? &&
              (result.value.status == 429 || result.value.status >= 500) ==>
                |sent| == if maxRetries < 0 then 1 else maxRetries + 1
      ensures Upper(verb0) !in {"GET", "HEAD", "PUT", "DELETE"} ==> |sent| == 1
      ensures |slept| == |sent| - 1
      ensures forall i :: 0 <= i < |slept| ==> slept[i] == Pause(backoffMs, i)
      ensures Sum(slept) == backoffMs * (Pow2(|slept|) - 1.0)
    {
      var verb := Upper(verb0);
      var key := KeyFor(verb, explicitKey, freshKey);
      var attempt := 0;
      sent, slept := [], [];
      while true
        invariant 0 <= attempt && attempt <= MaxSends(maxRetries) - 1
        invariant |sent| == |slept| == attempt
        invariant forall i :: 0 <= i < |sent| ==> sent[i] == Sent(verb, path, key, body)
        invariant forall i :: 0 <= i < attempt ==> net(i).Some? && Retryable(verb, net(i).value)
        invariant attempt > 0 ==> verb in IDEMPOTENT_METHODS
        invariant forall i :: 0 <= i < |slept| ==> slept[i] == Pause(backoffMs, i)
        decreases MaxSends(maxRetries) - attempt
      {
        sent := sent + [Sent(verb, path, key, body)];
        var resp := net(attempt);
        if resp.None? || !Retryable(verb, resp.value) || attempt >= maxRetries {
          DoublingSum(backoffMs, slept);
          return resp, sent, slept;
        }
        attempt := attempt + 1;
        slept := slept + [Pause(backoffMs, attempt - 1)];
      }
    }
  }
}
