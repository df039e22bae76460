/** The deployment lifecycle: the transition table and the audit trail of one app. */
module DeployState {
  import opened Common

  /** `Other` is any state name missing from the table. */
  datatype State =
    | Planned | Building | Deploying | Verifying | Running | Degraded
    | Failed | RollingBack | Stopped | Deleting | Deleted | Other(name: string)

  datatype Actor = Controller | User

  datatype AuditEvent = AuditEvent(at: real, from: State, to: State, actor: Actor)

  datatype DeployError = ErrIllegalTransition(from: State, to: State)

  function Targets(from: State): set<State> {
    match from
    case Planned => {Building}
    case Building => {Deploying, Failed}
    case Deploying => {Verifying, Failed}
    case Verifying => {Running, Degraded, Failed}
    case Running => {Verifying, Degraded, RollingBack, Stopped, Deleting}
    case Degraded => {Verifying, RollingBack, Stopped, Failed, Deleting}
    case Failed => {Planned, Deleting}
    case RollingBack => {Verifying, Failed}
    case Stopped => {Planned, Deleting}
    case Deleting => {Deleted, Planned}
    case _ => {}
  }

  predicate CanTransition(from: State, to: State) {
    to in Targets(from)
  }

  function Transition(from: State, to: State, actor: Actor, at: real): (r: Result<AuditEvent, DeployError>)
    ensures r.Ok? <==> CanTransition(from, to)
    ensures r.Ok? ==> r.value == AuditEvent(at, from, to, actor)
    ensures r.Err? ==> r.error == ErrIllegalTransition(from, to)
  {
    if !CanTransition(from, to) then Err(ErrIllegalTransition(from, to))
    else Ok(AuditEvent(at, from, to, actor))
  }

  /** GuardStart asks the table for a move to PLANNED. */
  function GuardStart(from: State, at: real): Result<AuditEvent, DeployError> {
    Transition(from, Planned, User, at)
  }

  /** Besides a stopped app, a failed one and one being deleted can be started. */
  lemma StartIff(from: State, at: real)
    ensures GuardStart(from, at).Ok? <==> from == Stopped || from == Failed || from == Deleting
  {
  }

  /** GuardStop asks the table for a move to STOPPED. */
  function GuardStop(from: State, at: real): Result<AuditEvent, DeployError> {
    Transition(from, Stopped, User, at)
  }

  lemma StopIff(from: State, at: real)
    ensures GuardStop(from, at).Ok? <==> from == Running || from == Degraded
  {
  }

  // ---------------------------------------------------------------------
  // Runs of one app
  // ---------------------------------------------------------------------

  datatype Move = Move(to: State, actor: Actor, at: real)

  /** The state an app is in after asking for `moves` from PLANNED; refused moves leave it where it is. */
  function StateAfter(moves: seq<Move>): State {
    if moves == [] then Planned
    else
      var s, m := StateAfter(moves[..|moves| - 1]), moves[|moves| - 1];
      if Transition(s, m.to, m.actor, m.at).Ok? then m.to else s
  }

  /** The events the accepted moves produced. */
  function Trail(moves: seq<Move>): seq<AuditEvent> {
    if moves == [] then []
    else
      var front, m := moves[..|moves| - 1], moves[|moves| - 1];
      var r := Transition(StateAfter(front), m.to, m.actor, m.at);
      if r.Ok? then Trail(front) + [r.value] else Trail(front)
  }

  predicate Chained(trail: seq<AuditEvent>) {
    forall i :: 0 <= i < |trail| - 1 ==> trail[i].to == trail[i + 1].from
  }

  function Fold(start: State, trail: seq<AuditEvent>): State
    decreases |trail|
  {
    if trail == [] then start else Fold(trail[0].to, trail[1..])
  }

  lemma {:induction false} FoldAppend(start: State, trail: seq<AuditEvent>, e: AuditEvent)
    ensures Fold(start, trail + [e]) == e.to
    decreases |trail|
  {
    if trail != [] {
      assert (trail + [e])[1..] == trail[1..] + [e];
      FoldAppend(trail[0].to, trail[1..], e);
    }
  }

  /** The trail starts at PLANNED, ends in the current state, links head to tail and uses only table moves. */
  ghost predicate TrailOf(trail: seq<AuditEvent>, s: State) {
    Chained(trail) && (forall i :: 0 <= i < |trail| ==> CanTransition(trail[i].from, trail[i].to)) &&
    if trail == [] then s == Planned else trail[0].from == Planned && trail[|trail| - 1].to == s
  }

  lemma TrailGrows(trail: seq<AuditEvent>, s: State, e: AuditEvent)
    requires TrailOf(trail, s) && e.from == s && CanTransition(s, e.to)
    ensures TrailOf(trail + [e], e.to)
  {
  }

  lemma {:induction false} TrailDeterminesState(moves: seq<Move>)
    ensures TrailOf(Trail(moves), StateAfter(moves))
    ensures Fold(Planned, Trail(moves)) == StateAfter(moves)
  {
    if moves != [] {
      var front, m := moves[..|moves| - 1], moves[|moves| - 1];
      TrailDeterminesState(front);
      var r := Transition(StateAfter(front), m.to, m.actor, m.at);
      if r.Ok? {
        TrailGrows(Trail(front), StateAfter(front), r.value);
        FoldAppend(Planned, Trail(front), r.value);
      }
    }
  }

  // ---------------------------------------------------------------------
  // The moves that happen
  // ---------------------------------------------------------------------

  /** Who may enter each state. */
  function Sources(to: State): set<State> {
    match to
    case Planned => {Failed, Stopped, Deleting}
    case Building => {Planned}
    case Deploying => {Building}
    case Verifying => {Deploying, Running, Degraded, RollingBack}
    case Running => {Verifying}
    case Degraded => {Verifying, Running}
    case Failed => {Building, Deploying, Verifying, Degraded, RollingBack}
    case RollingBack => {Running, Degraded}
    case Stopped => {Running, Degraded}
    case Deleting => {Running, Degraded, Failed, Stopped}
    case Deleted => {Deleting}
    case Other(_) => {}
  }

  function Moves(to: seq<State>): seq<Move> {
    seq(|to|, i requires 0 <= i < |to| => Move(to[i], Controller, 0.0))
  }

  /** States to ask for, from PLANNED, to arrive in `s`. */
  function WayTo(s: State): seq<State> {
    match s
    case Planned => []
    case Building => [Building]
    case Deploying => [Building, Deploying]
    case Verifying => [Building, Deploying, Verifying]
    case Running => [Building, Deploying, Verifying, Running]
    case Degraded => [Building, Deploying, Verifying, Degraded]
    case Failed => [Building, Failed]
    case RollingBack => [Building, Deploying, Verifying, Running, RollingBack]
    case Stopped => [Building, Deploying, Verifying, Running, Stopped]
    case Deleting => [Building, Failed, Deleting]
    case _ => [Building, Failed, Deleting, Deleted]
  }

  /** Asking for table moves one after the other is granted every time. */
  lemma {:induction false} WalkIsGranted(to: seq<State>)
    requires Walk([Planned] + to)
    ensures StateAfter(Moves(to)) == ([Planned] + to)[|to|]
  {
    if to != [] {
      var front := to[..|to| - 1];
      assert Moves(to)[..|to| - 1] == Moves(front);
      forall i | 0 <= i < |front| ensures CanTransition(([Planned] + front)[i], ([Planned] + front)[i + 1]) {
        assert CanTransition(([Planned] + to)[i], ([Planned] + to)[i + 1]);
      }
      WalkIsGranted(front);
      assert CanTransition(([Planned] + to)[|to| - 1], ([Planned] + to)[|to|]);
    }
  }

  ghost predicate Happens(from: State, to: State) {
    exists moves, i: nat :: i < |Trail(moves)| && Trail(moves)[i].from == from && Trail(moves)[i].to == to
  }

  lemma WayIsWalk(s: State)
    requires InTable(s)
    ensures Walk([Planned] + WayTo(s)) && ([Planned] + WayTo(s))[|WayTo(s)|] == s
  {
  }

  lemma TableIsSources(from: State, to: State)
    ensures CanTransition(from, to) <==> from in Sources(to)
  {
  }

  /** Every state of the table is reached from PLANNED. */
  lemma Arrive(s: State) returns (moves: seq<Move>)
    requires InTable(s)
    ensures StateAfter(moves) == s
  {
    moves := Moves(WayTo(s));
    WayIsWalk(s);
    WalkIsGranted(WayTo(s));
  }

  lemma MoveHappens(from: State, to: State)
    requires CanTransition(from, to)
    ensures Happens(from, to)
  {
    var way := Arrive(from);
    LastMove(way, Move(to, Controller, 0.0));
    var moves := way + [Move(to, Controller, 0.0)];
    assert Trail(moves)[|Trail(way)|].from == from && Trail(moves)[|Trail(way)|].to == to;
  }

  lemma LastMove(moves: seq<Move>, m: Move)
    requires CanTransition(StateAfter(moves), m.to)
    ensures Trail(moves + [m]) == Trail(moves) + [AuditEvent(m.at, StateAfter(moves), m.to, m.actor)]
  {
    assert (moves + [m])[..|moves|] == moves;
  }

  /** The moves that occur on the trails of apps are exactly those of Sources, each of them on some trail. */
  lemma MovesOnTrailsIff(from: State, to: State)
    ensures Happens(from, to) <==> from in Sources(to)
  {
    if Happens(from, to) {
      var moves, i: nat :| i < |Trail(moves)| && Trail(moves)[i].from == from && Trail(moves)[i].to == to;
      TrailDeterminesState(moves);
      assert CanTransition(Trail(moves)[i].from, Trail(moves)[i].to);
    }
    TableIsSources(from, to);
    if CanTransition(from, to) {
      MoveHappens(from, to);
    }
  }

  // ---------------------------------------------------------------------
  // Nothing goes live unverified
  // ---------------------------------------------------------------------

  /** The states visited, PLANNED first. */
  function Visited(moves: seq<Move>): (path: seq<State>)
    ensures path != []
  {
    if moves == [] then [Planned]
    else
      var front := moves[..|moves| - 1];
      if StateAfter(moves) == StateAfter(front) then Visited(front) else Visited(front) + [StateAfter(moves)]
  }

  /** Position i is after the last PLANNED. */
  predicate SincePlanned(path: seq<State>, i: nat) {
    i < |path| && forall k :: i <= k < |path| ==> path[k] != Planned
  }

  ghost predicate BuiltAt(path: seq<State>, i: nat) {
    SincePlanned(path, i) && path[i] == Building
  }

  ghost predicate DeployedAt(path: seq<State>, i: nat, j: nat) {
    BuiltAt(path, i) && i < j < |path| && path[j] == Deploying
  }

  ghost predicate VerifiedAt(path: seq<State>, i: nat, j: nat, k: nat) {
    DeployedAt(path, i, j) && j < k < |path| && path[k] == Verifying
  }

  ghost predicate Built(path: seq<State>) {
    exists i: nat :: BuiltAt(path, i)
  }

  ghost predicate BuiltThenDeployed(path: seq<State>) {
    exists i: nat, j: nat :: DeployedAt(path, i, j)
  }

  ghost predicate BuiltDeployedVerified(path: seq<State>) {
    exists i: nat, j: nat, k: nat :: VerifiedAt(path, i, j, k)
  }

  predicate Live(s: State) {
    s == Verifying || s == Running || s == Degraded || s == RollingBack || s == Stopped
  }

  ghost predicate Earned(path: seq<State>)
    requires path != []
  {
    var s := path[|path| - 1];
    (s == Building ==> Built(path)) && (s == Deploying ==> BuiltThenDeployed(path)) &&
    (Live(s) ==> BuiltDeployedVerified(path))
  }

  lemma SinceStays(path: seq<State>, to: State, i: nat)
    requires SincePlanned(path, i) && to != Planned
    ensures SincePlanned(path + [to], i)
  {
  }

  lemma DeployingEarned(path: seq<State>)
    requires Built(path)
    ensures BuiltThenDeployed(path + [Deploying])
  {
    var i: nat :| BuiltAt(path, i);
    SinceStays(path, Deploying, i);
    assert DeployedAt(path + [Deploying], i, |path|);
  }

  lemma VerifyingEarned(path: seq<State>)
    requires BuiltThenDeployed(path)
    ensures BuiltDeployedVerified(path + [Verifying])
  {
    var i: nat, j: nat :| DeployedAt(path, i, j);
    SinceStays(path, Verifying, i);
    assert VerifiedAt(path + [Verifying], i, j, |path|);
  }

  lemma LiveEarned(path: seq<State>, to: State)
    requires BuiltDeployedVerified(path) && to != Planned
    ensures BuiltDeployedVerified(path + [to])
  {
    var i: nat, j: nat, k: nat :| VerifiedAt(path, i, j, k);
    SinceStays(path, to, i);
    assert VerifiedAt(path + [to], i, j, k);
  }

  lemma StepEarned(path: seq<State>, to: State)
    requires path != [] && Earned(path) && CanTransition(path[|path| - 1], to)
    ensures Earned(path + [to])
  {
    var s := path[|path| - 1];
    if to == Building {
      assert BuiltAt(path + [to], |path|);
    } else if to == Deploying {
      DeployingEarned(path);
    } else if Live(to) {
      if s == Deploying {
        VerifyingEarned(path);
      } else {
        assert Live(s);
        LiveEarned(path, to);
      }
    }
  }

  /**
   Whenever an app is VERIFYING, RUNNING, DEGRADED, ROLLING_BACK or STOPPED, the
   stretch since its last PLANNED holds BUILDING, then DEPLOYING, then VERIFYING.
   */
  lemma {:induction false} LiveWasBuiltDeployedVerified(moves: seq<Move>)
    ensures var path := Visited(moves);
            path[0] == Planned && path[|path| - 1] == StateAfter(moves) && Earned(path)
  {
    if moves != [] {
      var front, m := moves[..|moves| - 1], moves[|moves| - 1];
      LiveWasBuiltDeployedVerified(front);
      if StateAfter(moves) != StateAfter(front) {
        StepEarned(Visited(front), m.to);
      }
    }
  }

  // ---------------------------------------------------------------------
  // Deletion
  // ---------------------------------------------------------------------

  /** DELETED has no way out and one way in. */
  lemma DeletedIsTerminal(from: State, to: State)
    ensures !CanTransition(Deleted, to)
    ensures CanTransition(from, Deleted) <==> from == Deleting
  {
  }

  /** On every trail DELETED is entered from DELETING, and that event is the last. */
  lemma {:induction false} DeletionEndsTheTrail(moves: seq<Move>, i: nat)
    requires i < |Trail(moves)| && Trail(moves)[i].to == Deleted
    ensures Trail(moves)[i].from == Deleting
    ensures i == |Trail(moves)| - 1 && StateAfter(moves) == Deleted
  {
    var trail := Trail(moves);
    TrailDeterminesState(moves);
    DeletedIsTerminal(trail[i].from, Deleted);
    if i < |trail| - 1 {
      DeletedIsTerminal(trail[i + 1].from, trail[i + 1].to);
    }
  }

  /** Once deleted, whatever is asked next. */
  lemma {:induction false} DeletedStays(moves: seq<Move>, more: seq<Move>)
    requires StateAfter(moves) == Deleted
    ensures StateAfter(moves + more) == Deleted
  {
    if more == [] {
      assert moves + more == moves;
    } else {
      DeletedStays(moves, more[..|more| - 1]);
      assert (moves + more)[..|moves + more| - 1] == moves + more[..|more| - 1];
    }
  }

  /** `path` is a walk over the table. */
  predicate Walk(path: seq<State>) {
    path != [] && forall i :: 0 <= i < |path| - 1 ==> CanTransition(path[i], path[i + 1])
  }

  predicate InTable(s: State) {
    !s.Other? && s != Deleted
  }

  /** Deletion can be reached from every state of the table. */
  lemma DeletedIsReachable(s: State) returns (path: seq<State>)
    requires InTable(s)
    ensures Walk(path) && path[0] == s && path[|path| - 1] == Deleted
  {
    match s {
      case Planned => path := [Planned, Building, Failed, Deleting, Deleted];
      case Building => path := [Building, Failed, Deleting, Deleted];
      case Deploying => path := [Deploying, Failed, Deleting, Deleted];
      case Verifying => path := [Verifying, Running, Deleting, Deleted];
      case RollingBack => path := [RollingBack, Failed, Deleting, Deleted];
      case Deleting => path := [Deleting, Deleted];
      case _ => path := [s, Deleting, Deleted];
    }
  }
}
