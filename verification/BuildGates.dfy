/** The per-org build concurrency gate. */
module BuildGates {
  import opened Common

  const RETRY_AFTER_SECONDS: int := 30

  type Counts = map<string, int>

  /** A missing org reads as zero. */
  function InFlight(m: Counts, org: string): int {
    if org in m then m[org] else 0
  }

  predicate Free(limit: int, m: Counts, org: string) {
    InFlight(m, org) < limit
  }

  function Acquired(limit: int, m: Counts, org: string): Counts {
    if Free(limit, m, org) then m[org := InFlight(m, org) + 1] else m
  }

  function Released(m: Counts, org: string): Counts {
    if InFlight(m, org) > 0 then m[org := InFlight(m, org) - 1] else m
  }

  class BuildGate {
    const limit: int
    var inFlight: Counts

    constructor (limit: int)
      ensures this.limit == limit && inFlight == map[]
    {
      this.limit := limit;
      inFlight := map[];
    }

    method TryAcquire(org: string) returns (ok: bool, retryAfter: int)
      modifies this
      ensures ok == Free(limit, old(inFlight), org)
      ensures ok <==> (if org in old(inFlight) then old(inFlight)[org] else 0) < limit
      ensures inFlight == Acquired(limit, old(inFlight), org)
      ensures !ok ==> inFlight == old(inFlight)
      ensures ok ==> inFlight == old(inFlight)[org := (if org in old(inFlight) then old(inFlight)[org] else 0) + 1]
      ensures retryAfter == if ok then 0 else 30
    {
      var n := if org in inFlight then inFlight[org] else 0;
      if n >= limit {
        return false, RETRY_AFTER_SECONDS;
      }
      inFlight := inFlight[org := n + 1];
      return true, 0;
    }

    method Release(org: string)
      modifies this
      ensures inFlight == Released(old(inFlight), org)
      ensures inFlight == if org in old(inFlight) && old(inFlight)[org] > 0
                          then old(inFlight)[org := old(inFlight)[org] - 1] else old(inFlight)
    {
      var n := if org in inFlight then inFlight[org] else 0;
      if n > 0 {
        inFlight := inFlight[org := n - 1];
      }
    }
  }

  // ---------------------------------------------------------------------
  // Every interleaving of builds that release only what they hold
  // ---------------------------------------------------------------------

  type Build = nat

  /** holders[b] is the org whose slot build b holds. */
  datatype State = State(counts: Counts, holders: map<Build, string>)

  datatype Label = TryAcquire(build: Build, org: string) | Release(build: Build)

  predicate Enabled(s: State, l: Label) {
    match l
    case TryAcquire(b, _) => b !in s.holders
    case Release(b) => b in s.holders
  }

  function Apply(limit: int, s: State, l: Label): State
    requires Enabled(s, l)
  {
    match l
    case TryAcquire(b, org) =>
      State(Acquired(limit, s.counts, org), if Free(limit, s.counts, org) then s.holders[b := org] else s.holders)
    case Release(b) => State(Released(s.counts, s.holders[b]), s.holders - {b})
  }

  function Exec(limit: int, ls: seq<Label>): Option<State> {
    if ls == [] then Some(State(map[], map[]))
    else
      var before, l := Exec(limit, ls[..|ls| - 1]), ls[|ls| - 1];
      if before.Some? && Enabled(before.value, l) then Some(Apply(limit, before.value, l)) else None
  }

  function Holders(holders: map<Build, string>, org: string): set<Build> {
    set b | b in holders && holders[b] == org
  }

  /** The counter of every org is the number of builds that hold one of its slots. */
  ghost predicate Agrees(counts: Counts, holders: map<Build, string>) {
    forall org :: InFlight(counts, org) == |Holders(holders, org)|
  }

  lemma HoldersAfterAcquire(holders: map<Build, string>, b: Build, org: string, o: string)
    requires b !in holders
    ensures Holders(holders[b := org], o) == Holders(holders, o) + (if o == org then {b} else {})
    ensures b !in Holders(holders, o)
  {
  }

  lemma AcquireAgrees(counts: Counts, holders: map<Build, string>, b: Build, org: string)
    requires Agrees(counts, holders) && b !in holders
    ensures Agrees(counts[org := InFlight(counts, org) + 1], holders[b := org])
  {
    var counts', holders' := counts[org := InFlight(counts, org) + 1], holders[b := org];
    forall o ensures InFlight(counts', o) == |Holders(holders', o)| {
      HoldersAfterAcquire(holders, b, org, o);
      assert InFlight(counts, o) == |Holders(holders, o)|;
    }
  }

  lemma ReleaseAgrees(counts: Counts, holders: map<Build, string>, b: Build)
    requires Agrees(counts, holders) && b in holders
    ensures Agrees(Released(counts, holders[b]), holders - {b})
  {
    assert b in Holders(holders, holders[b]);
    forall o ensures InFlight(Released(counts, holders[b]), o) == |Holders(holders - {b}, o)| {
      assert Holders(holders - {b}, o) == Holders(holders, o) - {b};
    }
  }

  /**
   In every interleaving the counter is the true number of builds in flight for
   the org, and that number never exceeds the limit.
   */
  lemma {:induction false} NeverOverLimit(limit: int, ls: seq<Label>, org: string)
    requires Exec(limit, ls).Some?
    ensures Agrees(Exec(limit, ls).value.counts, Exec(limit, ls).value.holders)
    ensures |Holders(Exec(limit, ls).value.holders, org)| <= if limit < 0 then 0 else limit
  {
    var none: map<Build, string> := map[];
    assert forall o :: Holders(none, o) == {};
    if ls != [] {
      var front, l := ls[..|ls| - 1], ls[|ls| - 1];
      NeverOverLimit(limit, front, org);
      var s := Exec(limit, front).value;
      match l {
        case TryAcquire(b, o) =>
          if Free(limit, s.counts, o) {
            AcquireAgrees(s.counts, s.holders, b, o);
          }
        case Release(b) =>
          ReleaseAgrees(s.counts, s.holders, b);
          assert Holders(s.holders - {b}, org) <= Holders(s.holders, org);
          SubsetSize(Holders(s.holders - {b}, org), Holders(s.holders, org));
      }
    }
  }

  /** On every interleaving a build is admitted exactly while fewer than `limit` of its org are in flight. */
  lemma AdmittedIffBelowLimit(limit: int, ls: seq<Label>, b: Build, org: string)
    requires Exec(limit, ls).Some? && b !in Exec(limit, ls).value.holders
    ensures var s, s' := Exec(limit, ls), Exec(limit, ls + [TryAcquire(b, org)]);
            s'.Some? && (b in s'.value.holders <==> |Holders(s.value.holders, org)| < limit)
  {
    NeverOverLimit(limit, ls, org);
    var s := Exec(limit, ls).value;
    assert (ls + [TryAcquire(b, org)])[..|ls|] == ls;
    assert InFlight(s.counts, org) == |Holders(s.holders, org)|;
  }

  /**
   A Release by a caller that holds nothing keeps the counters true exactly when
   the org has nothing in flight; otherwise it frees somebody else's slot.
   */
  lemma StrayReleaseIff(counts: Counts, holders: map<Build, string>, org: string)
    requires Agrees(counts, holders)
    ensures Agrees(Released(counts, org), holders) <==> InFlight(counts, org) == 0
  {
  }
}
