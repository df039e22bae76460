/**
 Token buckets, one per key. Time is a `real` number of minutes, tokens are
 `real`: the float64 arithmetic of the program is taken as exact.
 */
module RateLimits {
  import opened Common

  datatype Config = Config(capacity: real, perMinute: real)

  datatype Bucket = Bucket(tokens: real, lastRefill: real)

  /** wait is None where the program divides by a zero rate. */
  datatype Verdict = Admitted | Denied(wait: Option<real>)

  function Min(x: real, y: real): real {
    if x > y then y else x
  }

  function NewBucket(cfg: Config, now: real): Bucket {
    Bucket(cfg.capacity, now)
  }

  /** The tokens `dt` minutes bring. */
  function Gain(cfg: Config, dt: real): real {
    dt * cfg.perMinute
  }

  function Refill(cfg: Config, b: Bucket, now: real): Bucket {
    if now - b.lastRefill > 0.0
    then Bucket(Min(b.tokens + Gain(cfg, now - b.lastRefill), cfg.capacity), now)
    else b
  }

  function Spend(b: Bucket): Bucket {
    if b.tokens < 1.0 then b else b.(tokens := b.tokens - 1.0)
  }

  function Judge(cfg: Config, b: Bucket): Verdict {
    if b.tokens >= 1.0 then Admitted
    else Denied(if cfg.perMinute == 0.0 then None else Some((1.0 - b.tokens) / cfg.perMinute))
  }

  class TokenBucket {
    const capacity: real
    const perMinute: real
    var tokens: real
    var lastRefill: real

    constructor (cfg: Config, now: real)
      ensures Settings() == cfg && View() == NewBucket(cfg, now)
    {
      capacity, perMinute, tokens, lastRefill := cfg.capacity, cfg.perMinute, cfg.capacity, now;
    }

    ghost function Settings(): Config { Config(capacity, perMinute) }

    ghost function View(): Bucket
      reads this
    {
      Bucket(tokens, lastRefill)
    }

    method Allow(now: real) returns (v: Verdict)
      modifies this
      ensures View() == Spend(Refill(Settings(), old(View()), now))
      ensures v == Judge(Settings(), Refill(Settings(), old(View()), now))
      ensures lastRefill == if now > old(lastRefill) then now else old(lastRefill)
      ensures now <= old(lastRefill) ==> tokens == old(tokens) - if v.Admitted? then 1.0 else 0.0
      ensures now > old(lastRefill) ==>
                tokens == Min(old(tokens) + (now - old(lastRefill)) * perMinute, capacity) -
                          if v.Admitted? then 1.0 else 0.0
    {
      var elapsed := now - lastRefill;
      if elapsed > 0.0 {
        tokens := tokens + elapsed * perMinute;
        if tokens > capacity {
          tokens := capacity;
        }
        lastRefill := now;
      }
      if tokens < 1.0 {
        if perMinute == 0.0 {
          return Denied(None);
        }
        return Denied(Some((1.0 - tokens) / perMinute));
      }
      tokens := tokens - 1.0;
      return Admitted;
    }
  }

  // ---------------------------------------------------------------------
  // The limiter: one bucket per key, created on first use
  // ---------------------------------------------------------------------

  datatype Call = Call(key: string, at: real)

  type Buckets = map<string, Bucket>

  function BucketFor(cfg: Config, m: Buckets, c: Call): Bucket {
    if c.key in m then m[c.key] else NewBucket(cfg, c.at)
  }

  function Serve(cfg: Config, m: Buckets, c: Call): Buckets {
    m[c.key := Spend(Refill(cfg, BucketFor(cfg, m, c), c.at))]
  }

  function Answer(cfg: Config, m: Buckets, c: Call): Verdict {
    Judge(cfg, Refill(cfg, BucketFor(cfg, m, c), c.at))
  }

  class RateLimiter {
    const cfg: Config
    var buckets: map<string, TokenBucket>

    ghost predicate Valid()
      reads this, buckets.Values
    {
      (forall k :: k in buckets ==> buckets[k].Settings() == cfg) &&
      (forall k, j :: k in buckets && j in buckets && k != j ==> buckets[k] != buckets[j])
    }

    ghost function View(): Buckets
      reads this, buckets.Values
    {
      map k | k in buckets :: buckets[k].View()
    }

    constructor (cfg: Config)
      ensures Valid() && View() == map[] && this.cfg == cfg
    {
      this.cfg := cfg;
      buckets := map[];
    }

    method Allow(key: string, now: real) returns (v: Verdict)
      requires Valid()
      modifies this, buckets.Values
      ensures Valid() && fresh(buckets.Values - old(buckets.Values))
      ensures View() == Serve(cfg, old(View()), Call(key, now))
      ensures v == Answer(cfg, old(View()), Call(key, now))
    {
      if key !in buckets {
        var bucket := new TokenBucket(cfg, now);
        buckets := buckets[key := bucket];
      }
      var bucket := buckets[key];
      v := bucket.Allow(now);
      assert View() == Serve(cfg, old(View()), Call(key, now)) by {
        forall k | k in buckets && k != key ensures k in old(buckets) && buckets[k].View() == old(View())[k] {
          assert buckets[k] in old(buckets.Values);
        }
      }
    }
  }

  /** The limiter's buckets and answers over a whole sequence of calls, on any keys. */
  function BucketsAfter(cfg: Config, calls: seq<Call>): Buckets {
    if calls == [] then map[]
    else Serve(cfg, BucketsAfter(cfg, calls[..|calls| - 1]), calls[|calls| - 1])
  }

  /** The instants of the calls on `key`. */
  function TimesOf(calls: seq<Call>, key: string): seq<real> {
    if calls == [] then []
    else
      var front, c := calls[..|calls| - 1], calls[|calls| - 1];
      if c.key == key then TimesOf(front, key) + [c.at] else TimesOf(front, key)
  }

  /** The answers given to the calls on `key`, in order. */
  function AnswersTo(cfg: Config, calls: seq<Call>, key: string): (answers: seq<Verdict>)
    ensures |answers| == |TimesOf(calls, key)|
  {
    if calls == [] then []
    else
      var front, c := calls[..|calls| - 1], calls[|calls| - 1];
      if c.key == key then AnswersTo(cfg, front, key) + [Answer(cfg, BucketsAfter(cfg, front), c)]
      else AnswersTo(cfg, front, key)
  }

  // ---------------------------------------------------------------------
  // A standalone bucket
  // ---------------------------------------------------------------------

  /** The bucket as the last of `times` finds it, refilled and not yet charged. */
  function Charged(cfg: Config, times: seq<real>): Bucket
    requires times != []
  {
    var front, now := times[..|times| - 1], times[|times| - 1];
    Refill(cfg, if front == [] then NewBucket(cfg, now) else Spend(Charged(cfg, front)), now)
  }

  function SoloAnswers(cfg: Config, times: seq<real>): seq<Verdict> {
    if times == [] then []
    else SoloAnswers(cfg, times[..|times| - 1]) + [Judge(cfg, Charged(cfg, times))]
  }

  /**
   Whatever other keys do in between, a key gets the answers of a bucket of its
   own that sees only its calls.
   */
  lemma {:induction false} KeysAreIsolated(cfg: Config, calls: seq<Call>, key: string)
    ensures AnswersTo(cfg, calls, key) == SoloAnswers(cfg, TimesOf(calls, key))
    ensures key in BucketsAfter(cfg, calls) <==> TimesOf(calls, key) != []
    ensures key in BucketsAfter(cfg, calls) ==>
              BucketsAfter(cfg, calls)[key] == Spend(Charged(cfg, TimesOf(calls, key)))
  {
    if calls != [] {
      var front, c := calls[..|calls| - 1], calls[|calls| - 1];
      KeysAreIsolated(cfg, front, key);
      if c.key == key {
        var ts := TimesOf(front, key);
        assert (ts + [c.at])[..|ts|] == ts;
      }
    }
  }

  predicate Nondecreasing(times: seq<real>) {
    forall i, j :: 0 <= i <= j < |times| ==> times[i] <= times[j]
  }

  function Count(b: bool): nat { if b then 1 else 0 }

  /** How many calls at an instant in [s, e] are admitted. */
  function AdmittedIn(cfg: Config, times: seq<real>, s: real, e: real): nat {
    if times == [] then 0
    else
      AdmittedIn(cfg, times[..|times| - 1], s, e) +
      Count(s <= times[|times| - 1] <= e && Judge(cfg, Charged(cfg, times)).Admitted?)
  }

  lemma Product(x: real, y: real)
    requires x >= 0.0 && y >= 0.0
    ensures x * y >= 0.0
  {
  }

  lemma GainNonNegative(cfg: Config, dt: real)
    requires dt >= 0.0 && cfg.perMinute >= 0.0
    ensures Gain(cfg, dt) >= 0.0
  {
    Product(dt, cfg.perMinute);
  }

  lemma GainAdds(cfg: Config, a: real, b: real)
    ensures Gain(cfg, a + b) == Gain(cfg, a) + Gain(cfg, b)
  {
  }

  /** On a nondecreasing clock the level stays within [0, capacity] and is dated by the last call. */
  lemma {:induction false} LevelBounds(cfg: Config, times: seq<real>)
    requires cfg.capacity >= 0.0 && cfg.perMinute >= 0.0
    requires times != [] && Nondecreasing(times)
    ensures var b := Charged(cfg, times);
            0.0 <= b.tokens <= cfg.capacity && b.lastRefill == times[|times| - 1]
  {
    var front := times[..|times| - 1];
    if front != [] {
      LevelBounds(cfg, front);
      var b, now := Spend(Charged(cfg, front)), times[|times| - 1];
      assert front[|front| - 1] <= now;
      GainNonNegative(cfg, now - b.lastRefill);
    }
  }

  /** Capacity plus what a window [s, t] refills. */
  function Budget(cfg: Config, s: real, t: real): real {
    cfg.capacity + Gain(cfg, t - s)
  }

  lemma BudgetIs(cfg: Config, s: real, t: real)
    ensures Budget(cfg, s, t) == cfg.capacity + (t - s) * cfg.perMinute
  {
  }

  lemma BudgetGrows(cfg: Config, s: real, t: real, u: real)
    requires cfg.perMinute >= 0.0 && t <= u
    ensures Budget(cfg, s, u) == Budget(cfg, s, t) + Gain(cfg, u - t)
    ensures Budget(cfg, s, t) <= Budget(cfg, s, u)
  {
    GainAdds(cfg, t - s, u - t);
    assert (t - s) + (u - t) == u - s;
    GainNonNegative(cfg, u - t);
  }

  /** While the window is open, admissions plus the level left are paid for by the budget. */
  ghost predicate Potential(cfg: Config, times: seq<real>, s: real, e: real) {
    var n := AdmittedIn(cfg, times, s, e) as real;
    if times == [] || times[|times| - 1] < s then n == 0.0
    else if times[|times| - 1] <= e then
      n + Spend(Charged(cfg, times)).tokens <= Budget(cfg, s, times[|times| - 1])
    else n <= Budget(cfg, s, e)
  }

  /** The first call inside the window finds at most a full bucket. */
  lemma PotentialOpens(cfg: Config, times: seq<real>, s: real, e: real)
    requires cfg.capacity >= 0.0 && cfg.perMinute >= 0.0 && s <= e
    requires times != [] && Nondecreasing(times)
    requires |times| == 1 || times[|times| - 2] < s
    requires AdmittedIn(cfg, times[..|times| - 1], s, e) == 0
    ensures Potential(cfg, times, s, e)
  {
    LevelBounds(cfg, times);
    BudgetGrows(cfg, s, s, e);
    if s <= times[|times| - 1] {
      BudgetGrows(cfg, s, s, times[|times| - 1]);
    }
  }

  /** A refill adds no more to the level than the same stretch adds to the budget. */
  lemma RefillWithinBudget(cfg: Config, b: Bucket, now: real, s: real, n: real)
    requires cfg.perMinute >= 0.0 && b.lastRefill <= now
    requires n + b.tokens <= Budget(cfg, s, b.lastRefill)
    ensures n + Refill(cfg, b, now).tokens <= Budget(cfg, s, now)
  {
    BudgetGrows(cfg, s, b.lastRefill, now);
    GainNonNegative(cfg, now - b.lastRefill);
  }

  /** Later calls inside the window are paid for by the refill since the last one. */
  lemma PotentialContinues(cfg: Config, times: seq<real>, s: real, e: real)
    requires cfg.capacity >= 0.0 && cfg.perMinute >= 0.0 && s <= e
    requires |times| > 1 && Nondecreasing(times) && s <= times[|times| - 2] && times[|times| - 1] <= e
    requires Potential(cfg, times[..|times| - 1], s, e)
    ensures Potential(cfg, times, s, e)
  {
    var front, now := times[..|times| - 1], times[|times| - 1];
    assert front[|front| - 1] == times[|times| - 2] <= now;
    LevelBounds(cfg, front);
    var b, n := Spend(Charged(cfg, front)), AdmittedIn(cfg, front, s, e) as real;
    assert n + b.tokens <= Budget(cfg, s, b.lastRefill);
    RefillWithinBudget(cfg, b, now, s, n);
    var level, budget := Charged(cfg, times), Budget(cfg, s, now);
    assert n + level.tokens <= budget;
    assert AdmittedIn(cfg, times, s, e) as real + Spend(level).tokens == n + level.tokens;
  }

  /** After the window closes, the level left can only have been non-negative. */
  lemma PotentialCloses(cfg: Config, times: seq<real>, s: real, e: real)
    requires cfg.capacity >= 0.0 && cfg.perMinute >= 0.0 && s <= e
    requires |times| > 1 && Nondecreasing(times) && s <= times[|times| - 2] <= e < times[|times| - 1]
    requires Potential(cfg, times[..|times| - 1], s, e)
    ensures Potential(cfg, times, s, e)
  {
    LevelBounds(cfg, times[..|times| - 1]);
    BudgetGrows(cfg, s, times[|times| - 2], e);
  }

  lemma {:induction false} PotentialHolds(cfg: Config, times: seq<real>, s: real, e: real)
    requires cfg.capacity >= 0.0 && cfg.perMinute >= 0.0 && s <= e
    requires Nondecreasing(times)
    ensures Potential(cfg, times, s, e)
  {
    if times != [] {
      var front := times[..|times| - 1];
      PotentialHolds(cfg, front, s, e);
      if |times| == 1 || times[|times| - 2] < s {
        PotentialOpens(cfg, times, s, e);
      } else if times[|times| - 1] <= e {
        PotentialContinues(cfg, times, s, e);
      } else if times[|times| - 2] <= e {
        PotentialCloses(cfg, times, s, e);
      }
    }
  }

  lemma SoloWindowBound(cfg: Config, times: seq<real>, s: real, e: real)
    requires cfg.capacity >= 0.0 && cfg.perMinute >= 0.0 && s <= e
    requires Nondecreasing(times)
    ensures AdmittedIn(cfg, times, s, e) as real <= Budget(cfg, s, e)
  {
    PotentialHolds(cfg, times, s, e);
    BudgetGrows(cfg, s, s, e);
    if times != [] && s <= times[|times| - 1] <= e {
      LevelBounds(cfg, times);
      BudgetGrows(cfg, s, times[|times| - 1], e);
    }
  }

  /** Any window [s, e] admits at most capacity + perMinute * (e - s) calls on a key, whatever other keys do. */
  lemma WindowBound(cfg: Config, calls: seq<Call>, key: string, s: real, e: real)
    requires cfg.capacity >= 0.0 && cfg.perMinute >= 0.0 && s <= e
    requires Nondecreasing(TimesOf(calls, key))
    ensures AnswersIn(TimesOf(calls, key), AnswersTo(cfg, calls, key), s, e) as real <=
            cfg.capacity + (e - s) * cfg.perMinute
  {
    KeysAreIsolated(cfg, calls, key);
    SoloAnswersInWindow(cfg, TimesOf(calls, key), s, e);
    BudgetIs(cfg, s, e);
  }

  lemma SoloAnswersInWindow(cfg: Config, times: seq<real>, s: real, e: real)
    requires cfg.capacity >= 0.0 && cfg.perMinute >= 0.0 && s <= e && Nondecreasing(times)
    ensures AnswersIn(times, SoloAnswers(cfg, times), s, e) as real <= Budget(cfg, s, e)
  {
    SoloWindowBound(cfg, times, s, e);
    CountsAgree(cfg, times, s, e);
  }

  /** Admissions among answers given at the instants `times`. */
  function AnswersIn(times: seq<real>, answers: seq<Verdict>, s: real, e: real): nat {
    if times == [] || answers == [] then 0
    else
      AnswersIn(times[..|times| - 1], answers[..|answers| - 1], s, e) +
      Count(s <= times[|times| - 1] <= e && answers[|answers| - 1].Admitted?)
  }

  lemma {:induction false} CountsAgree(cfg: Config, times: seq<real>, s: real, e: real)
    ensures AnswersIn(times, SoloAnswers(cfg, times), s, e) == AdmittedIn(cfg, times, s, e)
  {
    if times != [] {
      CountsAgree(cfg, times[..|times| - 1], s, e);
      var answers := SoloAnswers(cfg, times);
      assert answers[..|answers| - 1] == SoloAnswers(cfg, times[..|times| - 1]);
    }
  }

  // ---------------------------------------------------------------------
  // Nothing is denied while the budget lasts
  // ---------------------------------------------------------------------

  /** How many of the first k calls at or after `s` are admitted grows with the end of the window. */
  lemma {:induction false} WiderWindow(cfg: Config, times: seq<real>, s: real, e: real, later: real)
    requires e <= later
    ensures AdmittedIn(cfg, times, s, e) <= AdmittedIn(cfg, times, s, later)
  {
    if times != [] {
      WiderWindow(cfg, times[..|times| - 1], s, e, later);
    }
  }

  /** Since call i the budget of a full bucket has been spent on admissions, but for the level left. */
  predicate SpentSince(cfg: Config, times: seq<real>, i: nat)
    requires i < |times|
  {
    var now := times[|times| - 1];
    AdmittedIn(cfg, times, times[i], now) as real + Spend(Charged(cfg, times)).tokens >= Budget(cfg, times[i], now)
  }

  /** A full bucket, charged once or not at all. */
  lemma FullSpends(cfg: Config, times: seq<real>)
    requires times != [] && Charged(cfg, times).tokens >= cfg.capacity
    ensures SpentSince(cfg, times, |times| - 1)
  {
    assert Gain(cfg, 0.0) == 0.0;
  }

  /** A refill below the cap adds to the level what it adds to the budget. */
  lemma RefillMeetsBudget(cfg: Config, b: Bucket, now: real, s: real, n: real)
    requires b.lastRefill <= now && Refill(cfg, b, now).tokens < cfg.capacity
    requires n + b.tokens >= Budget(cfg, s, b.lastRefill)
    ensures n + Refill(cfg, b, now).tokens >= Budget(cfg, s, now)
  {
    GainAdds(cfg, b.lastRefill - s, now - b.lastRefill);
    assert (b.lastRefill - s) + (now - b.lastRefill) == now - s;
    assert Gain(cfg, 0.0) == 0.0;
  }

  lemma SpentContinues(cfg: Config, times: seq<real>, i: nat)
    requires |times| > 1 && Nondecreasing(times) && i < |times| - 1
    requires SpentSince(cfg, times[..|times| - 1], i) && Charged(cfg, times).tokens < cfg.capacity
    requires Charged(cfg, times[..|times| - 1]).lastRefill == times[|times| - 2]
    ensures SpentSince(cfg, times, i)
  {
    var front, now, s := times[..|times| - 1], times[|times| - 1], times[i];
    var last := times[|times| - 2];
    var b, n := Spend(Charged(cfg, front)), AdmittedIn(cfg, front, s, last) as real;
    assert front[|front| - 1] == last <= now && front[i] == s <= now;
    RefillMeetsBudget(cfg, b, now, s, n);
    WiderWindow(cfg, front, s, last, now);
    assert Charged(cfg, times) == Refill(cfg, b, now);
  }

  /** The clock of the bucket is the clock of the calls. */
  lemma {:induction false} DatedByLastCall(cfg: Config, times: seq<real>)
    requires times != [] && Nondecreasing(times)
    ensures Charged(cfg, times).lastRefill == times[|times| - 1]
  {
    var front := times[..|times| - 1];
    if front != [] {
      DatedByLastCall(cfg, front);
      assert front[|front| - 1] <= times[|times| - 1];
    }
  }

  lemma {:induction false} SpentSinceFull(cfg: Config, times: seq<real>) returns (i: nat)
    requires times != [] && Nondecreasing(times)
    ensures i < |times| && SpentSince(cfg, times, i)
  {
    var front := times[..|times| - 1];
    if Charged(cfg, times).tokens >= cfg.capacity {
      i := |times| - 1;
      FullSpends(cfg, times);
    } else {
      i := SpentSinceFull(cfg, front);
      DatedByLastCall(cfg, front);
      SpentContinues(cfg, times, i);
    }
  }

  /**
   The converse of WindowBound: a call is denied only when the window that some
   call of its key opens has admitted all but less than one of its budget.
   */
  lemma DeniedOnlyWhenSpent(cfg: Config, calls: seq<Call>, key: string, k: nat) returns (i: nat)
    requires Nondecreasing(TimesOf(calls, key)) && k < |TimesOf(calls, key)|
    requires AnswersTo(cfg, calls, key)[k].Denied?
    ensures i <= k
    ensures var times, answers := TimesOf(calls, key), AnswersTo(cfg, calls, key);
            AnswersIn(times[..k + 1], answers[..k + 1], times[i], times[k]) as real >
            Budget(cfg, times[i], times[k]) - 1.0
  {
    var times := TimesOf(calls, key);
    KeysAreIsolated(cfg, calls, key);
    i := SoloDeniedAt(cfg, times, k);
  }

  lemma SoloDeniedAt(cfg: Config, times: seq<real>, k: nat) returns (i: nat)
    requires Nondecreasing(times) && k < |times|
    requires |SoloAnswers(cfg, times)| == |times| && SoloAnswers(cfg, times)[k].Denied?
    ensures i <= k
    ensures AnswersIn(times[..k + 1], SoloAnswers(cfg, times)[..k + 1], times[i], times[k]) as real >
            Budget(cfg, times[i], times[k]) - 1.0
  {
    SoloPrefix(cfg, times, k + 1);
    SoloLength(cfg, times[..k + 1]);
    assert SoloAnswers(cfg, times)[..k + 1][k] == SoloAnswers(cfg, times)[k];
    i := SoloDenied(cfg, times[..k + 1]);
  }

  lemma SoloDenied(cfg: Config, times: seq<real>) returns (i: nat)
    requires times != [] && Nondecreasing(times)
    requires |SoloAnswers(cfg, times)| == |times| && SoloAnswers(cfg, times)[|times| - 1].Denied?
    ensures i < |times|
    ensures AnswersIn(times, SoloAnswers(cfg, times), times[i], times[|times| - 1]) as real >
            Budget(cfg, times[i], times[|times| - 1]) - 1.0
  {
    SoloAnswerAt(cfg, times, |times| - 1);
    assert times[..|times|] == times;
    i := SpentSinceFull(cfg, times);
    CountsAgree(cfg, times, times[i], times[|times| - 1]);
  }

  lemma {:induction false} SoloPrefix(cfg: Config, times: seq<real>, n: nat)
    requires n <= |times|
    ensures |SoloAnswers(cfg, times)| == |times| && SoloAnswers(cfg, times)[..n] == SoloAnswers(cfg, times[..n])
  {
    if n == |times| {
      assert times[..n] == times;
      SoloLength(cfg, times);
    } else {
      var front := times[..|times| - 1];
      SoloPrefix(cfg, front, n);
      assert front[..n] == times[..n];
    }
  }

  lemma {:induction false} SoloLength(cfg: Config, times: seq<real>)
    ensures |SoloAnswers(cfg, times)| == |times|
  {
    if times != [] {
      SoloLength(cfg, times[..|times| - 1]);
    }
  }

  lemma {:induction false} AnswersCount(times: seq<real>, answers: seq<Verdict>, s: real, e: real)
    requires |times| == |answers|
    ensures AnswersIn(times, answers, s, e) <= |times|
    ensures times != [] && answers[|answers| - 1].Denied? ==> AnswersIn(times, answers, s, e) < |times|
  {
    if times != [] {
      AnswersCount(times[..|times| - 1], answers[..|answers| - 1], s, e);
    }
  }

  /** A key starts with its whole capacity: its first n <= capacity calls are admitted, however close together. */
  lemma FirstCallsAreAdmitted(cfg: Config, calls: seq<Call>, key: string, k: nat)
    requires cfg.perMinute >= 0.0 && Nondecreasing(TimesOf(calls, key)) && k < |TimesOf(calls, key)|
    requires (k + 1) as real <= cfg.capacity
    ensures AnswersTo(cfg, calls, key)[k].Admitted?
  {
    var times, answers := TimesOf(calls, key), AnswersTo(cfg, calls, key);
    KeysAreIsolated(cfg, calls, key);
    if answers[k].Denied? {
      var i := SoloDeniedAt(cfg, times, k);
      AnswersCount(times[..k + 1], answers[..k + 1], times[i], times[k]);
      GainNonNegative(cfg, times[k] - times[i]);
    }
  }

  // ---------------------------------------------------------------------
  // The wait hint
  // ---------------------------------------------------------------------

  lemma WaitScales(cfg: Config, wait: real, gap: real)
    requires cfg.perMinute > 0.0
    ensures wait <= gap <==> Gain(cfg, wait) <= Gain(cfg, gap)
  {
    if wait <= gap {
      GainAdds(cfg, wait, gap - wait);
      GainNonNegative(cfg, gap - wait);
    } else {
      GainAdds(cfg, gap, wait - gap);
      assert (wait - gap) * cfg.perMinute > 0.0;
    }
  }

  /** Waiting need/perMinute brings exactly `need`. */
  lemma WaitReaches(cfg: Config, need: real, gap: real)
    requires cfg.perMinute > 0.0
    ensures need / cfg.perMinute <= gap <==> need <= Gain(cfg, gap)
  {
    var wait := need / cfg.perMinute;
    assert Gain(cfg, wait) == need;
    WaitScales(cfg, wait, gap);
  }

  /** On a bucket that has just denied, the level reaches 1 exactly after the announced wait. */
  lemma WaitFromBucket(cfg: Config, b: Bucket, later: real)
    requires cfg.perMinute > 0.0 && cfg.capacity >= 1.0
    requires b.tokens < 1.0 && b.lastRefill <= later
    ensures Judge(cfg, Refill(cfg, b, later)).Admitted? <==>
            b.lastRefill + (1.0 - b.tokens) / cfg.perMinute <= later
  {
    WaitReaches(cfg, 1.0 - b.tokens, later - b.lastRefill);
  }

  /** The answer to call i depends only on the calls up to it. */
  lemma {:induction false} SoloAnswerAt(cfg: Config, times: seq<real>, i: nat)
    requires i < |times|
    ensures |SoloAnswers(cfg, times)| == |times|
    ensures SoloAnswers(cfg, times)[i] == Judge(cfg, Charged(cfg, times[..i + 1]))
  {
    var front := times[..|times| - 1];
    if front != [] {
      SoloAnswerAt(cfg, front, if i < |front| then i else 0);
    }
    if i < |front| {
      assert times[..i + 1] == front[..i + 1];
    } else {
      assert times[..i + 1] == times;
    }
  }

  lemma SoloWaitIsExact(cfg: Config, times: seq<real>, i: nat)
    requires cfg.perMinute > 0.0 && cfg.capacity >= 1.0
    requires Nondecreasing(times) && i + 1 < |times|
    requires |SoloAnswers(cfg, times)| == |times| && SoloAnswers(cfg, times)[i].Denied?
    ensures var answers := SoloAnswers(cfg, times);
            answers[i].wait.Some? && (answers[i + 1].Admitted? <==> times[i] + answers[i].wait.value <= times[i + 1])
  {
    SoloAnswerAt(cfg, times, i);
    SoloAnswerAt(cfg, times, i + 1);
    var upto, next := times[..i + 1], times[..i + 2];
    assert next[..|next| - 1] == upto;
    LevelBounds(cfg, upto);
    var b := Charged(cfg, upto);
    assert Charged(cfg, next) == Refill(cfg, b, times[i + 1]);
    WaitFromBucket(cfg, b, times[i + 1]);
  }

  /**
   The wait in a denial is exact: the key's next call is admitted if and only if
   it comes at or after now + wait.
   */
  lemma WaitIsExact(cfg: Config, calls: seq<Call>, key: string, i: nat)
    requires cfg.perMinute > 0.0 && cfg.capacity >= 1.0
    requires Nondecreasing(TimesOf(calls, key)) && i + 1 < |TimesOf(calls, key)|
    requires AnswersTo(cfg, calls, key)[i].Denied?
    ensures var times, answers := TimesOf(calls, key), AnswersTo(cfg, calls, key);
            answers[i].wait.Some? && (answers[i + 1].Admitted? <==> times[i] + answers[i].wait.value <= times[i + 1])
  {
    KeysAreIsolated(cfg, calls, key);
    SoloWaitIsExact(cfg, TimesOf(calls, key), i);
  }

  /** With capacity below one nothing is ever admitted, so no wait is honoured. */
  lemma {:induction false} StarvedBelowOne(cfg: Config, times: seq<real>)
    requires 0.0 <= cfg.capacity < 1.0 && cfg.perMinute >= 0.0
    requires Nondecreasing(times)
    ensures forall v :: v in SoloAnswers(cfg, times) ==> v.Denied?
  {
    if times != [] {
      LevelBounds(cfg, times);
      StarvedBelowOne(cfg, times[..|times| - 1]);
    }
  }

  lemma RefillCovers(cfg: Config, b: Bucket, now: real)
    requires cfg.perMinute > 0.0 && cfg.capacity >= 1.0
    requires b.tokens >= 0.0 && now - b.lastRefill >= 1.0 / cfg.perMinute
    ensures Refill(cfg, b, now).tokens >= 1.0 && Refill(cfg, b, now).lastRefill == now
  {
    WaitReaches(cfg, 1.0, now - b.lastRefill);
    assert 1.0 / cfg.perMinute > 0.0;
  }

  /** A client that leaves at least 1/perMinute minutes between calls is never denied. */
  lemma {:induction false} SteadyClientIsNeverDenied(cfg: Config, times: seq<real>)
    requires cfg.perMinute > 0.0 && cfg.capacity >= 1.0
    requires forall i :: 0 <= i < |times| - 1 ==> times[i + 1] - times[i] >= 1.0 / cfg.perMinute
    ensures times != [] ==> Charged(cfg, times).tokens >= 1.0 && Charged(cfg, times).lastRefill == times[|times| - 1]
    ensures forall v :: v in SoloAnswers(cfg, times) ==> v.Admitted?
  {
    if times != [] {
      var front, n := times[..|times| - 1], |times| - 1;
      SteadyClientIsNeverDenied(cfg, front);
      if front != [] {
        assert times[(n - 1) + 1] - times[n - 1] >= 1.0 / cfg.perMinute;
        RefillCovers(cfg, Spend(Charged(cfg, front)), times[n]);
      }
    }
  }
}
