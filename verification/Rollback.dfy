/** Selection of a rollback destination among revision snapshots. */
module Rollback {
  import opened Common
  import opened DeployState

  datatype Snapshot = Snapshot(
    imageDigest: string, signatureRef: string, number: int,
    configRev: int, secretRev: int, appSpecVer: int, scanPassed: bool)

  datatype RollbackError =
    | ErrRevisionNotFound(number: int)
    | ErrScanNotPassed(number: int)
    | ErrNoRollbackPath(current: int)
    | ErrTransition(error: DeployError)

  predicate Eligible(s: Snapshot) {
    s.scanPassed && s.signatureRef != ""
  }

  /** The first snapshot carrying `number`. */
  function FindSnapshot(revs: seq<Snapshot>, number: int): Option<Snapshot> {
    if revs == [] then None
    else if revs[0].number == number then Some(revs[0])
    else FindSnapshot(revs[1..], number)
  }

  predicate Candidate(s: Snapshot, current: int) {
    s.number < current && Eligible(s)
  }

  /** `s` is at position i: a candidate of greatest number, and the first such. */
  ghost predicate DefaultAt(revs: seq<Snapshot>, current: int, s: Snapshot, i: int) {
    0 <= i < |revs| && revs[i] == s && Candidate(s, current) &&
    (forall k :: 0 <= k < |revs| && Candidate(revs[k], current) ==> revs[k].number <= s.number) &&
    (forall k :: 0 <= k < i && Candidate(revs[k], current) ==> revs[k].number < s.number)
  }

  ghost predicate IsDefault(revs: seq<Snapshot>, current: int, s: Snapshot) {
    exists i :: DefaultAt(revs, current, s, i)
  }

  ghost predicate NoCandidate(revs: seq<Snapshot>, current: int) {
    forall k :: 0 <= k < |revs| ==> !Candidate(revs[k], current)
  }

  /** The running best of the scan over revs. */
  function Best(revs: seq<Snapshot>, current: int): Option<Snapshot> {
    if revs == [] then None
    else
      var best, s := Best(revs[..|revs| - 1], current), revs[|revs| - 1];
      if !Candidate(s, current) then best
      else if best.None? || s.number > best.value.number then Some(s)
      else best
  }

  lemma BetterDefault(revs: seq<Snapshot>, current: int)
    requires revs != [] && Candidate(revs[|revs| - 1], current)
    requires forall k :: 0 <= k < |revs| - 1 && Candidate(revs[k], current) ==>
               revs[k].number < revs[|revs| - 1].number
    ensures IsDefault(revs, current, revs[|revs| - 1])
  {
    assert DefaultAt(revs, current, revs[|revs| - 1], |revs| - 1);
  }

  lemma SameDefault(front: seq<Snapshot>, last: Snapshot, current: int, s: Snapshot)
    requires IsDefault(front, current, s) && (Candidate(last, current) ==> last.number <= s.number)
    ensures IsDefault(front + [last], current, s)
  {
    var i :| DefaultAt(front, current, s, i);
    assert DefaultAt(front + [last], current, s, i);
  }

  lemma {:induction false} BestIsDefault(revs: seq<Snapshot>, current: int)
    ensures Best(revs, current).None? <==> NoCandidate(revs, current)
    ensures Best(revs, current).Some? ==> IsDefault(revs, current, Best(revs, current).value)
  {
    if revs != [] {
      var front, last := revs[..|revs| - 1], revs[|revs| - 1];
      assert revs == front + [last];
      BestIsDefault(front, current);
      var best := Best(front, current);
      if best.Some? {
        if Candidate(last, current) && last.number > best.value.number {
          BetterDefault(revs, current);
        } else {
          SameDefault(front, last, current, best.value);
        }
      } else if Candidate(last, current) {
        BetterDefault(revs, current);
      }
    }
  }

  function Explicit(revs: seq<Snapshot>, current: int, target: int): Result<Snapshot, RollbackError> {
    var s := FindSnapshot(revs, target);
    if s.None? || s.value.number >= current then Err(ErrRevisionNotFound(target))
    else if !Eligible(s.value) then Err(ErrScanNotPassed(target))
    else Ok(s.value)
  }

  function Default(revs: seq<Snapshot>, current: int): Result<Snapshot, RollbackError> {
    var best := Best(revs, current);
    if best.None? then Err(ErrNoRollbackPath(current)) else Ok(best.value)
  }

  function Resolve(revs: seq<Snapshot>, current: int, target: Option<int>): Result<Snapshot, RollbackError> {
    if target.Some? then Explicit(revs, current, target.value) else Default(revs, current)
  }

  method ResolveRollbackTarget(revs: seq<Snapshot>, current: int, target: Option<int>)
    returns (r: Result<Snapshot, RollbackError>)
    ensures r == Resolve(revs, current, target)
    ensures target.None? && r.Ok? ==> IsDefault(revs, current, r.value)
    ensures target.None? && r.Err? ==> NoCandidate(revs, current)
    ensures r.Ok? ==>
              r.value in revs && r.value.number < current && r.value.scanPassed && r.value.signatureRef != "" &&
              (target.Some? ==> r.value.number == target.value)
    ensures target.None? ==>
              (r.Err? <==> forall s :: s in revs && s.number < current ==> !s.scanPassed || s.signatureRef == "") &&
              (r.Err? ==> r.error == ErrNoRollbackPath(current))
    ensures target.Some? && r.Err? ==>
              var n := target.value;
              (r.error == ErrRevisionNotFound(n) && (n >= current || forall s :: s in revs ==> s.number != n)) ||
              (r.error == ErrScanNotPassed(n) &&
               exists s :: s in revs && s.number == n < current && (!s.scanPassed || s.signatureRef == ""))
  {
    if target.Some? {
      var n := target.value;
      var i := 0;
      while i < |revs| && revs[i].number != n
        invariant 0 <= i <= |revs|
        invariant FindSnapshot(revs, n) == FindSnapshot(revs[i..], n)
        invariant forall k :: 0 <= k < i ==> revs[k].number != n
      {
        assert revs[i..][1..] == revs[i + 1..];
        i := i + 1;
      }
      if i == |revs| || revs[i].number >= current {
        return Err(ErrRevisionNotFound(n));
      }
      if !Eligible(revs[i]) {
        return Err(ErrScanNotPassed(n));
      }
      return Ok(revs[i]);
    }
    BestIsDefault(revs, current);
    var best: Option<Snapshot> := None;
    for i := 0 to |revs|
      invariant best == Best(revs[..i], current)
    {
      assert revs[..i + 1][..i] == revs[..i];
      if revs[i].number >= current || !Eligible(revs[i]) {
        continue;
      }
      if best.None? || revs[i].number > best.value.number {
        best := Some(revs[i]);
      }
    }
    assert revs[..|revs|] == revs;
    if best.None? {
      return Err(ErrNoRollbackPath(current));
    }
    return Ok(best.value);
  }

  // ---------------------------------------------------------------------
  // Rolling back again and again
  // ---------------------------------------------------------------------

  function Numbers(revs: seq<Snapshot>, current: int): set<int> {
    set k | 0 <= k < |revs| && Candidate(revs[k], current) :: revs[k].number
  }

  lemma NumbersBelow(revs: seq<Snapshot>, current: int, s: Snapshot)
    requires IsDefault(revs, current, s)
    ensures s.number in Numbers(revs, current) && s.number < current
    ensures forall m :: m in Numbers(revs, current) ==> m <= s.number
    ensures Numbers(revs, s.number) == Numbers(revs, current) - {s.number}
  {
    var i :| DefaultAt(revs, current, s, i);
    assert revs[i].number in Numbers(revs, current);
    forall m | m in Numbers(revs, current) - {s.number} ensures m in Numbers(revs, s.number) {
      var k :| 0 <= k < |revs| && Candidate(revs[k], current) && revs[k].number == m;
      assert Candidate(revs[k], s.number);
    }
    forall m | m in Numbers(revs, s.number) ensures m in Numbers(revs, current) {
      var k :| 0 <= k < |revs| && Candidate(revs[k], s.number) && revs[k].number == m;
      assert Candidate(revs[k], current);
    }
  }

  lemma DefaultStep(revs: seq<Snapshot>, current: int)
    ensures Best(revs, current).None? <==> Numbers(revs, current) == {}
    ensures Best(revs, current).Some? ==>
              var n := Best(revs, current).value.number;
              n in Numbers(revs, current) && n < current &&
              (forall m :: m in Numbers(revs, current) ==> m <= n) &&
              Numbers(revs, n) == Numbers(revs, current) - {n}
  {
    BestIsDefault(revs, current);
    if Best(revs, current).Some? {
      NumbersBelow(revs, current, Best(revs, current).value);
    }
  }

  /** The numbers reached by default rollbacks from `current` until there is none. */
  function Chain(revs: seq<Snapshot>, current: int): seq<int>
    decreases |Numbers(revs, current)|
  {
    DefaultStep(revs, current);
    var best := Best(revs, current);
    if best.None? then [] else [best.value.number] + Chain(revs, best.value.number)
  }

  predicate StrictlyDecreasing(xs: seq<int>) {
    forall i, j :: 0 <= i < j < |xs| ==> xs[i] > xs[j]
  }

  lemma ConsDecreasing(n: int, xs: seq<int>)
    requires StrictlyDecreasing(xs) && forall x :: x in xs ==> x < n
    ensures StrictlyDecreasing([n] + xs)
  {
    assert forall j :: 0 <= j < |xs| ==> xs[j] in xs;
  }

  /**
   Repeated default rollbacks visit every distinct eligible number below
   `current`, each once, in strictly decreasing order, and then end in
   ErrNoRollbackPath.
   */
  lemma {:induction false} ChainVisitsEveryCandidate(revs: seq<Snapshot>, current: int)
    ensures StrictlyDecreasing(Chain(revs, current))
    ensures forall n :: n in Chain(revs, current) <==> n in Numbers(revs, current)
    ensures var chain := Chain(revs, current);
            Default(revs, if chain == [] then current else chain[|chain| - 1]).Err?
    decreases |Numbers(revs, current)|
  {
    DefaultStep(revs, current);
    var best := Best(revs, current);
    if best.Some? {
      ChainVisitsEveryCandidate(revs, best.value.number);
      ConsDecreasing(best.value.number, Chain(revs, best.value.number));
    }
  }

  lemma {:induction false} FindIsFirst(revs: seq<Snapshot>, number: int)
    ensures FindSnapshot(revs, number).None? <==> forall k :: 0 <= k < |revs| ==> revs[k].number != number
    ensures FindSnapshot(revs, number).Some? ==>
              exists k :: 0 <= k < |revs| && revs[k] == FindSnapshot(revs, number).value &&
                          revs[k].number == number && forall j :: 0 <= j < k ==> revs[j].number != number
  {
    if revs != [] && revs[0].number != number {
      FindIsFirst(revs[1..], number);
      if FindSnapshot(revs[1..], number).Some? {
        var k :| 0 <= k < |revs[1..]| && revs[1..][k] == FindSnapshot(revs[1..], number).value &&
                 revs[1..][k].number == number && forall j :: 0 <= j < k ==> revs[1..][j].number != number;
        forall j | 0 <= j < k + 1 ensures revs[j].number != number {
          if j > 0 { assert revs[j] == revs[1..][j - 1]; }
        }
        assert revs[k + 1] == revs[1..][k];
      } else {
        forall k | 0 <= k < |revs| ensures revs[k].number != number {
          if k > 0 { assert revs[k] == revs[1..][k - 1]; }
        }
      }
    }
  }

  predicate DistinctNumbers(revs: seq<Snapshot>) {
    forall i, j :: 0 <= i < j < |revs| ==> revs[i].number != revs[j].number
  }

  /** Whether the first snapshot with this number cleared the gates; findSnapshot looks no further. */
  predicate FirstIsEligible(revs: seq<Snapshot>, number: int) {
    FindSnapshot(revs, number).Some? && Eligible(FindSnapshot(revs, number).value)
  }

  /**
   An explicit target succeeds exactly when it lies on the default chain and the
   first snapshot with its number is eligible, and then it returns the snapshot
   the default would return from one above.
   */
  lemma ExplicitIff(revs: seq<Snapshot>, current: int, target: int)
    ensures Explicit(revs, current, target).Ok? <==> target in Chain(revs, current) && FirstIsEligible(revs, target)
    ensures Explicit(revs, current, target).Ok? ==> Default(revs, target + 1) == Explicit(revs, current, target)
  {
    ChainVisitsEveryCandidate(revs, current);
    FindIsFirst(revs, target);
    if Explicit(revs, current, target).Ok? {
      var s := Explicit(revs, current, target).value;
      var k :| 0 <= k < |revs| && revs[k] == s && revs[k].number == target &&
               forall j :: 0 <= j < k ==> revs[j].number != target;
      assert target in Numbers(revs, current);
      BestIsDefault(revs, target + 1);
      assert Candidate(revs[k], target + 1);
      var i :| DefaultAt(revs, target + 1, Best(revs, target + 1).value, i);
      assert revs[i].number == target;
      assert i == k;
    }
  }

  /** With distinct numbers: an explicit target succeeds if and only if it lies on the default chain. */
  lemma DistinctExplicitIff(revs: seq<Snapshot>, current: int, target: int)
    requires DistinctNumbers(revs)
    ensures Explicit(revs, current, target).Ok? <==> target in Chain(revs, current)
  {
    ExplicitIff(revs, current, target);
    ChainVisitsEveryCandidate(revs, current);
    FindIsFirst(revs, target);
    if target in Chain(revs, current) {
      var i :| 0 <= i < |revs| && Candidate(revs[i], current) && revs[i].number == target;
      var k :| 0 <= k < |revs| && revs[k] == FindSnapshot(revs, target).value && revs[k].number == target;
      assert i == k;
    }
  }

  /** Two rows with one number, the first of them unscanned: on the chain, yet refused when asked for by number. */
  lemma DuplicateNumberRefused(ok: Snapshot)
    requires Eligible(ok)
    ensures var revs := [ok.(scanPassed := false), ok];
            ok.number in Chain(revs, ok.number + 1) &&
            Explicit(revs, ok.number + 1, ok.number) == Err(ErrScanNotPassed(ok.number))
  {
    var revs := [ok.(scanPassed := false), ok];
    ExplicitIff(revs, ok.number + 1, ok.number);
    ChainVisitsEveryCandidate(revs, ok.number + 1);
    assert Candidate(revs[1], ok.number + 1);
    assert revs[1].number in Numbers(revs, ok.number + 1);
  }

  // ---------------------------------------------------------------------
  // PlanRollback
  // ---------------------------------------------------------------------

  /** State move first, then target: either failure yields no event. */
  function PlanRollback(from: State, revs: seq<Snapshot>, current: int, target: Option<int>, at: real)
    : (r: Result<(AuditEvent, Snapshot), RollbackError>)
    ensures r.Ok? <==> CanTransition(from, RollingBack) && Resolve(revs, current, target).Ok?
    ensures r.Ok? ==> r.value.0 == AuditEvent(at, from, RollingBack, User)
    ensures r.Ok? ==> Ok(r.value.1) == Resolve(revs, current, target)
    ensures !CanTransition(from, RollingBack) ==> r == Err(ErrTransition(ErrIllegalTransition(from, RollingBack)))
  {
    var ev := Transition(from, RollingBack, User, at);
    if ev.Err? then Err(ErrTransition(ev.error))
    else
      var dest := Resolve(revs, current, target);
      if dest.Err? then Err(dest.error) else Ok((ev.value, dest.value))
  }

  /** A planned rollback lands on an eligible older revision, from a running or degraded app only. */
  lemma PlannedRollbackIsSafe(from: State, revs: seq<Snapshot>, current: int, target: Option<int>, at: real)
    requires PlanRollback(from, revs, current, target, at).Ok?
    ensures from == Running || from == Degraded
    ensures var dest := PlanRollback(from, revs, current, target, at).value.1;
            dest in revs && dest.scanPassed && dest.signatureRef != "" &&
            dest.number < current && dest.number in Chain(revs, current)
  {
    assert CanTransition(from, RollingBack);
    ChainVisitsEveryCandidate(revs, current);
    if target.Some? {
      FindIsFirst(revs, target.value);
      ExplicitIff(revs, current, target.value);
    } else {
      BestIsDefault(revs, current);
      NumbersBelow(revs, current, Best(revs, current).value);
    }
  }
}
