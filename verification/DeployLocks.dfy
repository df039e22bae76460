/** The per-app deploy lock, and its equivalence with a build gate of limit one. */
module DeployLocks {
  import opened Common
  import G = BuildGates

  datatype LockError = ErrConcurrentDeploy(app: string)

  type Flags = map<string, bool>

  predicate Busy(m: Flags, app: string) {
    app in m && m[app]
  }

  class DeployLocks {
    var inFlight: Flags

    constructor ()
      ensures inFlight == map[]
    {
      inFlight := map[];
    }

    method Acquire(app: string) returns (r: Result<(), LockError>)
      modifies this
      ensures r == if Busy(old(inFlight), app) then Err(ErrConcurrentDeploy(app)) else Ok(())
      ensures inFlight == if r.Ok? then old(inFlight)[app := true] else old(inFlight)
    {
      if app in inFlight && inFlight[app] {
        return Err(ErrConcurrentDeploy(app));
      }
      inFlight := inFlight[app := true];
      return Ok(());
    }

    method Release(app: string)
      modifies this
      ensures inFlight == old(inFlight) - {app}
    {
      inFlight := inFlight - {app};
    }
  }

  type Deploy = nat

  /** holders[d] is the app deploy d has locked. */
  datatype State = State(flags: Flags, holders: map<Deploy, string>)

  function Apply(s: State, l: G.Label): State
    requires l.Release? ==> l.build in s.holders
  {
    match l
    case TryAcquire(d, app) => if Busy(s.flags, app) then s else State(s.flags[app := true], s.holders[d := app])
    case Release(d) => State(s.flags - {s.holders[d]}, s.holders - {d})
  }

  predicate Enabled(s: State, l: G.Label) {
    match l
    case TryAcquire(d, _) => d !in s.holders
    case Release(d) => d in s.holders
  }

  function Exec(ls: seq<G.Label>): Option<State> {
    if ls == [] then Some(State(map[], map[]))
    else
      var before, l := Exec(ls[..|ls| - 1]), ls[|ls| - 1];
      if before.Some? && Enabled(before.value, l) then Some(Apply(before.value, l)) else None
  }

  /** One flag is a counter that only ever reads 0 or 1. */
  ghost predicate SameLocks(flags: Flags, counts: G.Counts) {
    forall app :: 0 <= G.InFlight(counts, app) <= 1 && (Busy(flags, app) <==> G.InFlight(counts, app) == 1)
  }

  /** On every interleaving the locks admit, refuse and free exactly as a build gate of limit 1 does. */
  lemma {:induction false} LocksAreAGateOfOne(ls: seq<G.Label>)
    ensures Exec(ls).Some? <==> G.Exec(1, ls).Some?
    ensures Exec(ls).Some? ==>
              Exec(ls).value.holders == G.Exec(1, ls).value.holders &&
              SameLocks(Exec(ls).value.flags, G.Exec(1, ls).value.counts)
  {
    if ls != [] {
      LocksAreAGateOfOne(ls[..|ls| - 1]);
    }
  }

  /** At most one deploy holds an app, and the app reads as busy exactly while one does. */
  lemma MutualExclusion(ls: seq<G.Label>, app: string)
    requires Exec(ls).Some?
    ensures var hs := G.Holders(Exec(ls).value.holders, app);
            (forall d, e :: d in hs && e in hs ==> d == e) && (Busy(Exec(ls).value.flags, app) <==> hs != {})
  {
    LocksAreAGateOfOne(ls);
    G.NeverOverLimit(1, ls, app);
    var s := Exec(ls).value;
    var hs := G.Holders(s.holders, app);
    assert G.InFlight(G.Exec(1, ls).value.counts, app) == |hs|;
    forall d, e | d in hs && e in hs ensures d == e {
      if d != e {
        SubsetSize({d, e}, hs);
      }
    }
  }
}
