/**
 The idempotency protocol as a transition system: any number of requests, each
 running the statements of `idem` one at a time, beside the hourly purge and a
 clock. Every interleaving is a sequence of labels.
 */
module IdemProtocol {
  import opened Common
  import opened IdemStore

  type ReqId = nat

  datatype Phase =
    | Arrived                       // hash computed, nothing sent to the store
    | Purged                        // expired row deleted, INSERT not sent
    | Refused                       // INSERT found a row, SELECT not sent
    | Running                       // claim won, handler has not returned
    | Finishing(response: Response) // handler returned, UPDATE not sent
    | Answered(reply: Reply)

  datatype Request = Request(slot: Slot, hash: string, phase: Phase, claimedAt: Option<real>)

  /** History of what mattered; the protocol never reads it. */
  datatype Event =
    | Claimed(id: ReqId, slot: Slot, hash: string, at: real)
    | Ran(id: ReqId, slot: Slot, hash: string, claimedAt: real, response: Response)
    | ReplaySent(id: ReqId, slot: Slot, hash: string, response: Response)

  /** `writers` remembers whose UPDATE last matched each slot. */
  datatype State = State(
    now: real, table: Table, requests: map<ReqId, Request>,
    log: seq<Event>, writers: map<Slot, ReqId>)

  datatype Label =
    | Tick(to: real)
    | Arrive(id: ReqId, slot: Slot, hash: string)
    | Purge(id: ReqId)
    | Insert(id: ReqId)
    | Load(id: ReqId)
    | Handle(id: ReqId, response: Response)
    | Complete(id: ReqId)
    | Fail(id: ReqId)   // the next statement of this request errors, without effect
    | Cleanup

  function Start(t0: real): State {
    State(t0, map[], map[], [], map[])
  }

  predicate Enabled(s: State, l: Label) {
    match l
    case Tick(to) => s.now <= to
    case Arrive(id, _, _) => id !in s.requests
    case Purge(id) => id in s.requests && s.requests[id].phase.Arrived?
    case Insert(id) => id in s.requests && s.requests[id].phase.Purged?
    case Load(id) => id in s.requests && s.requests[id].phase.Refused?
    case Handle(id, _) => id in s.requests && s.requests[id].phase.Running?
    case Complete(id) => id in s.requests && s.requests[id].phase.Finishing?
    case Fail(id) => id in s.requests && !s.requests[id].phase.Running? && !s.requests[id].phase.Answered?
    case Cleanup => true
  }

  function Move(s: State, id: ReqId, phase: Phase): map<ReqId, Request>
    requires id in s.requests
  {
    s.requests[id := s.requests[id].(phase := phase)]
  }

  function Apply(s: State, l: Label): State
    requires Enabled(s, l)
  {
    match l
    case Tick(to) => s.(now := to)
    case Arrive(id, slot, hash) => s.(requests := s.requests[id := Request(slot, hash, Arrived, None)])
    case Purge(id) => s.(table := PurgeSlot(s.table, s.requests[id].slot, s.now), requests := Move(s, id, Purged))
    case Insert(id) => ApplyInsert(s, id)
    case Load(id) => ApplyLoad(s, id)
    case Handle(id, response) =>
      var q := s.requests[id];
      s.(requests := Move(s, id, Finishing(response)),
         log := s.log + [Ran(id, q.slot, q.hash, if q.claimedAt.Some? then q.claimedAt.value else s.now, response)])
    case Complete(id) => ApplyComplete(s, id)
    case Fail(id) =>
      s.(requests := Move(s, id, Answered(match s.requests[id].phase
                                          case Finishing(r) => Fresh(r)
                                          case Refused => LookupFailed
                                          case _ => StoreFailed)))
    case Cleanup => s.(table := PurgeExpired(s.table, s.now))
  }

  function ApplyInsert(s: State, id: ReqId): State
    requires id in s.requests
  {
    var q := s.requests[id];
    if q.slot in s.table then
      s.(requests := Move(s, id, Refused))
    else
      s.(table := InsertIfAbsent(s.table, q.slot, q.hash, s.now),
         requests := s.requests[id := q.(phase := Running, claimedAt := Some(s.now))],
         log := s.log + [Claimed(id, q.slot, q.hash, s.now)])
  }

  function ApplyLoad(s: State, id: ReqId): State
    requires id in s.requests
  {
    var q := s.requests[id];
    var reply := LoadReply(s.table, q.slot, q.hash);
    s.(requests := Move(s, id, Answered(reply)),
       log := if reply.Replayed? then s.log + [ReplaySent(id, q.slot, q.hash, reply.response)] else s.log)
  }

  function ApplyComplete(s: State, id: ReqId): State
    requires id in s.requests && s.requests[id].phase.Finishing?
  {
    var q := s.requests[id];
    s.(table := Record(s.table, q.slot, q.phase.response),
       requests := Move(s, id, Answered(Fresh(q.phase.response))),
       writers := if q.slot in s.table then s.writers[q.slot := id] else s.writers)
  }

  /** The state after `ls`, or None where some label is not enabled when its turn comes. */
  function Exec(s: State, ls: seq<Label>): Option<State> {
    if ls == [] then Some(s)
    else
      var before, l := Exec(s, ls[..|ls| - 1]), ls[|ls| - 1];
      if before.Some? && Enabled(before.value, l) then Some(Apply(before.value, l)) else None
  }

  predicate Runs(s: State, ls: seq<Label>) {
    Exec(s, ls).Some?
  }

  function After(s: State, ls: seq<Label>): State
    requires Runs(s, ls)
  {
    Exec(s, ls).value
  }

  // ---------------------------------------------------------------------
  // What every step keeps
  // ---------------------------------------------------------------------

  ghost predicate ClaimsApart(log: seq<Event>) {
    forall i, j :: 0 <= i < j < |log| && log[i].Claimed? && log[j].Claimed? && log[i].slot == log[j].slot ==>
      log[i].at + TTL <= log[j].at
  }

  /** A claim younger than the TTL still has its row. */
  ghost predicate ClaimHolds(s: State, e: Event)
    requires e.Claimed?
  {
    e.at <= s.now &&
    (s.now < e.at + TTL ==>
       e.slot in s.table && s.table[e.slot].expiresAt == e.at + TTL && s.table[e.slot].hash == e.hash)
  }

  ghost predicate ClaimsHold(s: State) {
    forall i :: 0 <= i < |s.log| && s.log[i].Claimed? ==> ClaimHolds(s, s.log[i])
  }

  ghost predicate EventKnown(s: State, e: Event) {
    e.id in s.requests &&
    var q := s.requests[e.id];
    e.slot == q.slot && e.hash == q.hash &&
    match e
    case Claimed(_, _, _, at) => q.claimedAt == Some(at)
    case Ran(_, _, _, at, r) => q.claimedAt == Some(at) && (q.phase == Finishing(r) || q.phase == Answered(Fresh(r)))
    case ReplaySent(_, _, _, r) => q.phase == Answered(Replayed(r))
  }

  ghost predicate EventsKnown(s: State) {
    forall i :: 0 <= i < |s.log| ==> EventKnown(s, s.log[i])
  }

  ghost predicate RanOnce(log: seq<Event>) {
    forall i, j :: 0 <= i < j < |log| && log[i].Ran? && log[j].Ran? ==> log[i].id != log[j].id
  }

  /** The phase of a request is backed by the events it must have left. */
  ghost predicate Backed(s: State, id: ReqId)
    requires id in s.requests
  {
    var q := s.requests[id];
    && (q.claimedAt.Some? ==> Claimed(id, q.slot, q.hash, q.claimedAt.value) in s.log)
    && (q.phase.Running? || q.phase.Finishing? || (q.phase.Answered? && q.phase.reply.Fresh?) <==> q.claimedAt.Some?)
    && (q.phase.Finishing? ==> Ran(id, q.slot, q.hash, q.claimedAt.value, q.phase.response) in s.log)
    && (q.phase.Answered? && q.phase.reply.Fresh? ==>
          Ran(id, q.slot, q.hash, q.claimedAt.value, q.phase.reply.response) in s.log)
  }

  ghost predicate AllBacked(s: State) {
    forall id :: id in s.requests ==> Backed(s, id)
  }

  /** Every recorded outcome was recorded by a request that ran on that slot. */
  ghost predicate RecordedByARun(s: State) {
    forall slot :: slot in s.table && s.table[slot].response.Some? ==>
      slot in s.writers && s.writers[slot] in s.requests &&
      var q := s.requests[s.writers[slot]];
      q.slot == slot && q.phase.Answered? && q.phase.reply.Fresh? &&
      Stored(q.phase.reply.response) == s.table[slot].response.value
  }

  ghost predicate Inv(s: State) {
    ClaimsApart(s.log) && ClaimsHold(s) && EventsKnown(s) && RanOnce(s.log) && AllBacked(s) && RecordedByARun(s)
  }

  lemma RefusalKeepsInv(s: State, id: ReqId)
    requires Inv(s) && Enabled(s, Insert(id)) && s.requests[id].slot in s.table
    ensures Inv(Apply(s, Insert(id)))
  {
    var s' := Apply(s, Insert(id));
    assert Backed(s, id);
    forall x | x in s'.requests ensures Backed(s', x) {
      assert Backed(s, x);
    }
    forall i | 0 <= i < |s'.log| ensures EventKnown(s', s'.log[i]) {
      assert EventKnown(s, s.log[i]);
    }
  }

  lemma ClaimKeepsClaims(s: State, id: ReqId)
    requires Inv(s) && Enabled(s, Insert(id)) && s.requests[id].slot !in s.table
    ensures var s' := Apply(s, Insert(id)); ClaimsApart(s'.log) && ClaimsHold(s')
  {
  }

  lemma ClaimKeepsEvents(s: State, id: ReqId)
    requires Inv(s) && Enabled(s, Insert(id)) && s.requests[id].slot !in s.table
    ensures var s' := Apply(s, Insert(id)); EventsKnown(s') && RanOnce(s'.log) && AllBacked(s')
  {
    var s' := Apply(s, Insert(id));
    var q := s.requests[id];
    assert Backed(s, id);
    assert s'.log[|s.log|] == Claimed(id, q.slot, q.hash, s.now);
    forall i | 0 <= i < |s'.log| ensures EventKnown(s', s'.log[i]) {
      if i < |s.log| { assert EventKnown(s, s.log[i]); }
    }
    forall x | x in s'.requests ensures Backed(s', x) {
      assert Backed(s, x);
    }
  }

  lemma InsertKeepsInv(s: State, id: ReqId)
    requires Inv(s) && Enabled(s, Insert(id))
    ensures Inv(Apply(s, Insert(id)))
  {
    if s.requests[id].slot in s.table {
      RefusalKeepsInv(s, id);
    } else {
      ClaimKeepsClaims(s, id);
      ClaimKeepsEvents(s, id);
    }
  }

  lemma LoadKeepsClaims(s: State, id: ReqId)
    requires Inv(s) && Enabled(s, Load(id))
    ensures var s' := Apply(s, Load(id)); ClaimsApart(s'.log) && RanOnce(s'.log) && ClaimsHold(s')
  {
    var s' := Apply(s, Load(id));
    assert forall i :: |s.log| <= i < |s'.log| ==> s'.log[i].ReplaySent?;
    forall i | 0 <= i < |s'.log| && s'.log[i].Claimed? ensures ClaimHolds(s', s'.log[i]) {
      assert ClaimHolds(s, s.log[i]);
    }
  }

  lemma LoadKeepsEvents(s: State, id: ReqId)
    requires Inv(s) && Enabled(s, Load(id))
    ensures var s' := Apply(s, Load(id)); EventsKnown(s') && AllBacked(s')
  {
    var s' := Apply(s, Load(id));
    assert Backed(s, id);
    forall x | x in s'.requests ensures Backed(s', x) {
      assert Backed(s, x);
    }
    forall i | 0 <= i < |s'.log| ensures EventKnown(s', s'.log[i]) {
      if i < |s.log| { assert EventKnown(s, s.log[i]); }
    }
  }

  lemma LoadKeepsInv(s: State, id: ReqId)
    requires Inv(s) && Enabled(s, Load(id))
    ensures Inv(Apply(s, Load(id)))
  {
    LoadKeepsClaims(s, id);
    LoadKeepsEvents(s, id);
    assert Backed(s, id);
  }

  lemma HandleKeepsLog(s: State, id: ReqId, r: Response)
    requires Inv(s) && Enabled(s, Handle(id, r))
    ensures var s' := Apply(s, Handle(id, r)); ClaimsApart(s'.log) && ClaimsHold(s') && RanOnce(s'.log)
  {
    var s' := Apply(s, Handle(id, r));
    forall i | 0 <= i < |s.log| && s.log[i].Ran? ensures s.log[i].id != id {
      assert EventKnown(s, s.log[i]);
    }
    forall i | 0 <= i < |s'.log| && s'.log[i].Claimed? ensures ClaimHolds(s', s'.log[i]) {
      assert ClaimHolds(s, s.log[i]);
    }
  }

  lemma HandleKeepsEvents(s: State, id: ReqId, r: Response)
    requires Inv(s) && Enabled(s, Handle(id, r))
    ensures var s' := Apply(s, Handle(id, r)); EventsKnown(s') && AllBacked(s')
  {
  }

  lemma HandleKeepsInv(s: State, id: ReqId, r: Response)
    requires Inv(s) && Enabled(s, Handle(id, r))
    ensures Inv(Apply(s, Handle(id, r)))
  {
    HandleKeepsLog(s, id, r);
    HandleKeepsEvents(s, id, r);
    assert Backed(s, id);
  }

  lemma CompleteKeepsInv(s: State, id: ReqId)
    requires Inv(s) && Enabled(s, Complete(id))
    ensures Inv(Apply(s, Complete(id)))
  {
    var s' := Apply(s, Complete(id));
    forall x | x in s'.requests ensures Backed(s', x) {
      assert Backed(s, x);
    }
    forall i | 0 <= i < |s'.log| ensures EventKnown(s', s'.log[i]) {
      assert EventKnown(s, s.log[i]);
    }
  }

  /** The clock and the hourly purge touch no request. */
  lemma ClockKeepsInv(s: State, l: Label)
    requires Inv(s) && Enabled(s, l) && (l.Tick? || l.Cleanup?)
    ensures Inv(Apply(s, l))
  {
  }

  lemma ArriveKeepsInv(s: State, l: Label)
    requires Inv(s) && Enabled(s, l) && l.Arrive?
    ensures Inv(Apply(s, l))
  {
  }

  /** Purge and Fail move one request and leave no event. */
  lemma PhaseKeepsInv(s: State, l: Label)
    requires Inv(s) && Enabled(s, l) && (l.Purge? || l.Fail?)
    ensures Inv(Apply(s, l))
  {
    var s' := Apply(s, l);
    assert Backed(s, l.id);
    forall x | x in s'.requests ensures Backed(s', x) {
      assert Backed(s, x);
    }
    forall i | 0 <= i < |s'.log| ensures EventKnown(s', s'.log[i]) {
      assert EventKnown(s, s.log[i]);
    }
    forall i | 0 <= i < |s'.log| && s'.log[i].Claimed? ensures ClaimHolds(s', s'.log[i]) {
      assert ClaimHolds(s, s.log[i]);
    }
  }

  lemma StepKeepsInv(s: State, l: Label)
    requires Inv(s) && Enabled(s, l)
    ensures Inv(Apply(s, l))
  {
    match l
    case Insert(id) => InsertKeepsInv(s, id);
    case Load(id) => LoadKeepsInv(s, id);
    case Handle(id, r) => HandleKeepsInv(s, id, r);
    case Complete(id) => CompleteKeepsInv(s, id);
    case Arrive(_, _, _) => ArriveKeepsInv(s, l);
    case Purge(_) => PhaseKeepsInv(s, l);
    case Fail(_) => PhaseKeepsInv(s, l);
    case _ => ClockKeepsInv(s, l);
  }

  lemma {:induction false} RunKeepsInv(t0: real, ls: seq<Label>)
    requires Runs(Start(t0), ls)
    ensures Inv(After(Start(t0), ls))
  {
    if ls != [] {
      RunKeepsInv(t0, ls[..|ls| - 1]);
      StepKeepsInv(After(Start(t0), ls[..|ls| - 1]), ls[|ls| - 1]);
    }
  }

  // ---------------------------------------------------------------------
  // At most one execution per TTL window
  // ---------------------------------------------------------------------

  /** In every interleaving, two successful claims of one (key, org) are at least one TTL apart. */
  lemma ClaimsAreTtlApart(t0: real, ls: seq<Label>, i: nat, j: nat)
    requires Runs(Start(t0), ls)
    requires i < j < |After(Start(t0), ls).log|
    requires var log := After(Start(t0), ls).log;
             log[i].Claimed? && log[j].Claimed? && log[i].slot == log[j].slot
    ensures After(Start(t0), ls).log[i].at + 24.0 <= After(Start(t0), ls).log[j].at
  {
    RunKeepsInv(t0, ls);
  }

  /**
   Two handler executions for one (key, org) belong to different claims, at
   least one TTL apart; so at most one is started per TTL window.
   */
  lemma ExecutionsAreTtlApart(t0: real, ls: seq<Label>, i: nat, j: nat)
    requires Runs(Start(t0), ls)
    requires i < j < |After(Start(t0), ls).log|
    requires var log := After(Start(t0), ls).log; log[i].Ran? && log[j].Ran? && log[i].slot == log[j].slot
    ensures var log := After(Start(t0), ls).log;
            log[i].claimedAt + 24.0 <= log[j].claimedAt || log[j].claimedAt + 24.0 <= log[i].claimedAt
  {
    RunKeepsInv(t0, ls);
    var s := After(Start(t0), ls);
    var e, f := s.log[i], s.log[j];
    assert EventKnown(s, e) && EventKnown(s, f);
    assert Backed(s, e.id) && Backed(s, f.id);
    var a :| 0 <= a < |s.log| && s.log[a] == Claimed(e.id, e.slot, e.hash, e.claimedAt);
    var b :| 0 <= b < |s.log| && s.log[b] == Claimed(f.id, f.slot, f.hash, f.claimedAt);
    assert a != b;
    if a < b {
      assert s.log[a].at + TTL <= s.log[b].at;
    } else {
      assert s.log[b].at + TTL <= s.log[a].at;
    }
  }

  /** The row was opened by a claim in the log, with that claim's hash and expiry. */
  ghost predicate RowClaimed(log: seq<Event>, slot: Slot, row: Row) {
    exists i :: 0 <= i < |log| && log[i].Claimed? && log[i].slot == slot && log[i].hash == row.hash &&
                row.expiresAt == log[i].at + TTL
  }

  ghost predicate RowsClaimed(s: State) {
    forall slot :: slot in s.table ==> RowClaimed(s.log, slot, s.table[slot])
  }

  lemma StepKeepsRowsClaimed(s: State, l: Label)
    requires RowsClaimed(s) && Enabled(s, l)
    ensures RowsClaimed(Apply(s, l))
  {
    var s' := Apply(s, l);
    forall slot | slot in s'.table ensures RowClaimed(s'.log, slot, s'.table[slot]) {
      if slot in s.table {
        assert RowClaimed(s.log, slot, s.table[slot]);
        var i :| 0 <= i < |s.log| && s.log[i].Claimed? && s.log[i].slot == slot &&
                 s.log[i].hash == s.table[slot].hash && s.table[slot].expiresAt == s.log[i].at + TTL;
        assert s'.log[i] == s.log[i];
      } else {
        assert s'.log[|s.log|].Claimed?;
      }
    }
  }

  lemma {:induction false} RunKeepsRowsClaimed(t0: real, ls: seq<Label>)
    requires Runs(Start(t0), ls)
    ensures RowsClaimed(After(Start(t0), ls))
  {
    if ls != [] {
      RunKeepsRowsClaimed(t0, ls[..|ls| - 1]);
      StepKeepsRowsClaimed(After(Start(t0), ls[..|ls| - 1]), ls[|ls| - 1]);
    }
  }

  ghost predicate ClaimedWithinTtl(s: State, slot: Slot) {
    exists i :: 0 <= i < |s.log| && s.log[i].Claimed? && s.log[i].slot == slot && s.now < s.log[i].at + TTL
  }

  /**
   A claim whose two statements run back to back wins exactly when its key has
   no claim younger than the TTL, whatever has happened before.
   */
  lemma ClaimWinsIff(t0: real, ls: seq<Label>, id: ReqId)
    requires Runs(Start(t0), ls)
    requires id in After(Start(t0), ls).requests && After(Start(t0), ls).requests[id].phase.Arrived?
    ensures Runs(Start(t0), ls + [Purge(id)] + [Insert(id)])
    ensures var s, s' := After(Start(t0), ls), After(Start(t0), ls + [Purge(id)] + [Insert(id)]);
            id in s'.requests && (s'.requests[id].phase.Running? <==> !ClaimedWithinTtl(s, s.requests[id].slot))
  {
    var s := After(Start(t0), ls);
    var slot := s.requests[id].slot;
    RunKeepsInv(t0, ls);
    RunKeepsRowsClaimed(t0, ls);
    var ls1 := Take(Start(t0), ls, Purge(id));
    var ls2 := Take(Start(t0), ls1, Insert(id));
    if ClaimedWithinTtl(s, slot) {
      var i :| 0 <= i < |s.log| && s.log[i].Claimed? && s.log[i].slot == slot && s.now < s.log[i].at + TTL;
      assert ClaimHolds(s, s.log[i]);
    } else if slot in s.table {
      assert RowClaimed(s.log, slot, s.table[slot]);
    }
  }

  /**
   A repeat whose statements follow each other while a claim on its key is
   younger than the TTL runs nothing: another payload is answered 422, the same
   one 409 until an outcome is recorded and then that outcome.
   */
  lemma RepeatWithinTtl(t0: real, ls: seq<Label>, id: ReqId, i: nat)
    requires Runs(Start(t0), ls)
    requires var s := After(Start(t0), ls);
             id in s.requests && s.requests[id].phase.Arrived? && i < |s.log| && s.log[i].Claimed? &&
             s.log[i].slot == s.requests[id].slot && s.now < s.log[i].at + 24.0
    ensures var s, ls' := After(Start(t0), ls), ls + [Purge(id), Insert(id), Load(id)];
            var slot := s.requests[id].slot;
            slot in s.table && Runs(Start(t0), ls') && After(Start(t0), ls').table == s.table &&
            id in After(Start(t0), ls').requests &&
            var phase := After(Start(t0), ls').requests[id].phase;
            phase.Answered? &&
            if s.requests[id].hash != s.log[i].hash then StatusOf(phase.reply) == 422
            else if s.table[slot].response.None? then StatusOf(phase.reply) == 409
            else phase.reply == Replayed(s.table[slot].response.value)
  {
    var s := After(Start(t0), ls);
    RunKeepsInv(t0, ls);
    assert ClaimHolds(s, s.log[i]);
    var ls1 := Take(Start(t0), ls, Purge(id));
    ls1 := Take(Start(t0), ls1, Insert(id));
    ls1 := Take(Start(t0), ls1, Load(id));
    assert ls1 == ls + [Purge(id), Insert(id), Load(id)];
  }

  /**
   A statement that fails changes no row. Its request is answered 500, unless it
   was to record an outcome: then the caller still gets that outcome.
   */
  lemma FailureAnswers(t0: real, ls: seq<Label>, id: ReqId)
    requires Runs(Start(t0), ls) && Enabled(After(Start(t0), ls), Fail(id))
    ensures Runs(Start(t0), ls + [Fail(id)])
    ensures var s, s' := After(Start(t0), ls), After(Start(t0), ls + [Fail(id)]);
            s'.table == s.table && id in s'.requests &&
            match s.requests[id].phase
            case Finishing(r) => s'.requests[id].phase == Answered(Fresh(r))
            case _ => s'.requests[id].phase.Answered? && StatusOf(s'.requests[id].phase.reply) == 500
  {
    var ls' := Take(Start(t0), ls, Fail(id));
  }

  /**
   The hourly purge leaves exactly the unexpired rows, and the claim that follows
   goes as it would have gone without the purge.
   */
  lemma CleanupIsInvisible(t0: real, ls: seq<Label>, id: ReqId)
    requires Runs(Start(t0), ls) && Enabled(After(Start(t0), ls), Purge(id))
    ensures var s := After(Start(t0), ls); var slot := s.requests[id].slot;
            var with, without := ls + [Cleanup, Purge(id), Insert(id)], ls + [Purge(id), Insert(id)];
            Runs(Start(t0), ls + [Cleanup]) && Runs(Start(t0), with) && Runs(Start(t0), without) &&
            (forall x :: x in After(Start(t0), ls + [Cleanup]).table <==>
                         x in s.table && s.now < s.table[x].expiresAt) &&
            After(Start(t0), with).requests == After(Start(t0), without).requests &&
            slot in After(Start(t0), with).table && slot in After(Start(t0), without).table &&
            After(Start(t0), with).table[slot] == After(Start(t0), without).table[slot]
  {
    var s := After(Start(t0), ls);
    var one := Take(Start(t0), ls, Purge(id));
    one := Take(Start(t0), one, Insert(id));
    assert one == ls + [Purge(id), Insert(id)];
    var two := Take(Start(t0), ls, Cleanup);
    two := Take(Start(t0), two, Purge(id));
    two := Take(Start(t0), two, Insert(id));
    assert two == ls + [Cleanup, Purge(id), Insert(id)];
  }

  // ---------------------------------------------------------------------
  // Replay fidelity
  // ---------------------------------------------------------------------

  /** Every recorded outcome comes from a request whose payload hash is the row's. */
  ghost predicate Faithful(s: State) {
    forall slot :: slot in s.table && s.table[slot].response.Some? ==>
      slot in s.writers && s.writers[slot] in s.requests && s.requests[s.writers[slot]].hash == s.table[slot].hash
  }

  /** What can be read off the table before the UPDATE is sent. */
  predicate SafeComplete(s: State, id: ReqId)
    requires id in s.requests
  {
    var q := s.requests[id];
    q.slot in s.table ==> s.table[q.slot].hash == q.hash
  }

  predicate OnTime(s: State, id: ReqId)
    requires id in s.requests
  {
    s.requests[id].claimedAt.Some? && s.now < s.requests[id].claimedAt.value + TTL
  }

  /** A completion sent before its own row expires always finds that row. */
  lemma OnTimeIsSafe(s: State, id: ReqId)
    requires Inv(s) && id in s.requests && OnTime(s, id)
    ensures SafeComplete(s, id)
    ensures var q := s.requests[id];
            q.slot in s.table && s.table[q.slot].hash == q.hash &&
            s.table[q.slot].expiresAt == q.claimedAt.value + TTL
  {
  }

  /** One step keeps the table faithful exactly when it is not an unsafe completion. */
  lemma FaithfulStepIff(s: State, l: Label)
    requires Inv(s) && Faithful(s) && Enabled(s, l)
    ensures Faithful(Apply(s, l)) <==> (l.Complete? ==> SafeComplete(s, l.id))
  {
    var s' := Apply(s, l);
    if l.Complete? {
      var q := s.requests[l.id];
      if q.slot in s.table {
        assert s'.writers[q.slot] == l.id && s'.table[q.slot].hash == s.table[q.slot].hash;
        assert s'.requests[l.id].hash == q.hash;
      }
    }
  }

  ghost predicate SafeRun(s: State, ls: seq<Label>)
    requires Runs(s, ls)
  {
    ls == [] ||
    (SafeRun(s, ls[..|ls| - 1]) &&
     (ls[|ls| - 1].Complete? ==> SafeComplete(After(s, ls[..|ls| - 1]), ls[|ls| - 1].id)))
  }

  ghost predicate OnTimeRun(s: State, ls: seq<Label>)
    requires Runs(s, ls)
  {
    ls == [] ||
    (OnTimeRun(s, ls[..|ls| - 1]) &&
     (ls[|ls| - 1].Complete? ==> OnTime(After(s, ls[..|ls| - 1]), ls[|ls| - 1].id)))
  }

  ghost predicate AlwaysFaithful(s: State, ls: seq<Label>)
    requires Runs(s, ls)
  {
    Faithful(After(s, ls)) && (ls == [] || AlwaysFaithful(s, ls[..|ls| - 1]))
  }

  /** A run stays faithful throughout exactly when each of its completions is safe. */
  lemma {:induction false} FaithfulRunIff(t0: real, ls: seq<Label>)
    requires Runs(Start(t0), ls)
    ensures AlwaysFaithful(Start(t0), ls) <==> SafeRun(Start(t0), ls)
    ensures SafeRun(Start(t0), ls) ==> Faithful(After(Start(t0), ls))
  {
    if ls != [] {
      var front := ls[..|ls| - 1];
      FaithfulRunIff(t0, front);
      RunKeepsInv(t0, front);
      if SafeRun(Start(t0), front) {
        FaithfulStepIff(After(Start(t0), front), ls[|ls| - 1]);
      }
    }
  }

  lemma {:induction false} OnTimeRunIsSafe(t0: real, ls: seq<Label>)
    requires Runs(Start(t0), ls) && OnTimeRun(Start(t0), ls)
    ensures SafeRun(Start(t0), ls)
  {
    if ls != [] {
      var front := ls[..|ls| - 1];
      OnTimeRunIsSafe(t0, front);
      RunKeepsInv(t0, front);
      if ls[|ls| - 1].Complete? {
        OnTimeIsSafe(After(Start(t0), front), ls[|ls| - 1].id);
      }
    }
  }

  /** The replay repeats the outcome of an execution in the log of the same payload under the same key. */
  ghost predicate Justified(log: seq<Event>, e: Event)
    requires e.ReplaySent?
  {
    exists i :: 0 <= i < |log| && log[i].Ran? && log[i].slot == e.slot && log[i].hash == e.hash &&
                Repeats(e.response, log[i].response)
  }

  /** Some execution of this payload under the slot had this outcome, "" and "{}" taken for one body. */
  ghost predicate Produced(log: seq<Event>, slot: Slot, hash: string, r: Response) {
    exists i :: 0 <= i < |log| && log[i].Ran? && log[i].slot == slot && log[i].hash == hash &&
                log[i].response.status == r.status &&
                (log[i].response.body == r.body || (log[i].response.body in {"", "{}"} && r.body in {"", "{}"}))
  }

  /** Every replay is justified by what was in the log before it. */
  ghost predicate ReplaysJustified(log: seq<Event>) {
    forall i :: 0 <= i < |log| && log[i].ReplaySent? ==> Justified(log[..i], log[i])
  }

  lemma JustifiedGrows(log: seq<Event>, e: Event)
    requires ReplaysJustified(log) && (e.ReplaySent? ==> Justified(log, e))
    ensures ReplaysJustified(log + [e])
  {
    var all := log + [e];
    forall i | 0 <= i < |all| && all[i].ReplaySent? ensures Justified(all[..i], all[i]) {
      assert all[..i] == log[..i];
      assert i == |log| ==> log[..i] == log;
    }
  }

  lemma LoadIsJustified(s: State, id: ReqId)
    requires Inv(s) && Faithful(s) && Enabled(s, Load(id)) && ReplaysJustified(s.log)
    ensures ReplaysJustified(Apply(s, Load(id)).log)
  {
    var q := s.requests[id];
    var reply := LoadReply(s.table, q.slot, q.hash);
    if reply.Replayed? {
      var w := s.writers[q.slot];
      assert Backed(s, w);
      var ran := Ran(w, q.slot, q.hash, s.requests[w].claimedAt.value, s.requests[w].phase.reply.response);
      assert ran in s.log;
      JustifiedGrows(s.log, ReplaySent(id, q.slot, q.hash, reply.response));
    }
  }

  lemma {:induction false} SafeReplaysAreFaithful(t0: real, ls: seq<Label>)
    requires Runs(Start(t0), ls) && SafeRun(Start(t0), ls)
    ensures ReplaysJustified(After(Start(t0), ls).log)
  {
    if ls != [] {
      var front, l := ls[..|ls| - 1], ls[|ls| - 1];
      SafeReplaysAreFaithful(t0, front);
      RunKeepsInv(t0, front);
      FaithfulRunIff(t0, front);
      var s := After(Start(t0), front);
      match l {
        case Load(id) => LoadIsJustified(s, id);
        case Insert(id) => JustifiedGrows(s.log, Claimed(id, s.requests[id].slot, s.requests[id].hash, s.now));
        case Handle(id, r) => JustifiedGrows(s.log, Apply(s, l).log[|s.log|]);
        case _ =>
      }
    }
  }

  /**
   If every execution completes before its row expires, every replay carries the
   recorded outcome of an execution with the same key, org and payload hash,
   whatever happened between the claim and the load.
   */
  lemma ReplaysAreFaithful(t0: real, ls: seq<Label>)
    requires Runs(Start(t0), ls) && OnTimeRun(Start(t0), ls)
    ensures ReplaysJustified(After(Start(t0), ls).log)
  {
    OnTimeRunIsSafe(t0, ls);
    SafeReplaysAreFaithful(t0, ls);
  }

  // ---------------------------------------------------------------------
  // A late completion breaks it
  // ---------------------------------------------------------------------

  lemma Take(s: State, ls: seq<Label>, l: Label) returns (ls': seq<Label>)
    requires Runs(s, ls) && Enabled(After(s, ls), l)
    ensures ls' == ls + [l]
    ensures Runs(s, ls') && After(s, ls') == Apply(After(s, ls), l)
  {
    ls' := ls + [l];
    assert ls'[..|ls|] == ls;
  }

  /** A repeat of payload `hash`, arriving as `again` right after the completion of `id`, up to its SELECT. */
  function Probe(id: ReqId, again: ReqId, slot: Slot, hash: string): seq<Label> {
    [Complete(id), Arrive(again, slot, hash), Purge(again), Insert(again), Load(again)]
  }

  /** On an unexpired row the repeat is replayed the outcome just recorded, whoever owns the row. */
  lemma ProbeRuns(s0: State, ls: seq<Label>, id: ReqId, again: ReqId)
    requires Runs(s0, ls) && Enabled(After(s0, ls), Complete(id)) && again !in After(s0, ls).requests
    requires var s := After(s0, ls); var slot := s.requests[id].slot;
             slot in s.table && s.now < s.table[slot].expiresAt
    ensures var s := After(s0, ls); var q := s.requests[id]; var hash := s.table[q.slot].hash;
            var ls' := ls + Probe(id, again, q.slot, hash);
            Runs(s0, ls') &&
            After(s0, ls').log == s.log + [ReplaySent(again, q.slot, hash, Stored(q.phase.response))]
  {
    var s := After(s0, ls);
    var slot := s.requests[id].slot;
    var hash := s.table[slot].hash;
    var ls1 := Take(s0, ls, Complete(id));
    ls1 := Take(s0, ls1, Arrive(again, slot, hash));
    ls1 := Take(s0, ls1, Purge(again));
    ls1 := Take(s0, ls1, Insert(again));
    ls1 := Take(s0, ls1, Load(again));
    assert ls1 == ls + Probe(id, again, slot, hash);
  }

  /**
   What an unsafe completion does to replays: after any run with justified
   replays, the repeat of the row's payload that follows a completion is
   justified exactly when some execution of that payload had the recorded
   outcome. A safe completion always meets that; an unsafe one misleads the
   repeat unless the two payloads happened to have equal outcomes.
   */
  lemma UnsafeCompletionMisleadsIff(t0: real, ls: seq<Label>, id: ReqId, again: ReqId)
    requires Runs(Start(t0), ls) && ReplaysJustified(After(Start(t0), ls).log)
    requires Enabled(After(Start(t0), ls), Complete(id)) && again !in After(Start(t0), ls).requests
    requires var s := After(Start(t0), ls); var slot := s.requests[id].slot;
             slot in s.table && s.now < s.table[slot].expiresAt
    ensures var s := After(Start(t0), ls); var q := s.requests[id]; var hash := s.table[q.slot].hash;
            var ls' := ls + Probe(id, again, q.slot, hash);
            Runs(Start(t0), ls') &&
            (ReplaysJustified(After(Start(t0), ls').log) <==> Produced(s.log, q.slot, hash, q.phase.response)) &&
            (SafeComplete(s, id) ==> Produced(s.log, q.slot, hash, q.phase.response))
  {
    var s := After(Start(t0), ls);
    var q := s.requests[id];
    var e := ReplaySent(again, q.slot, s.table[q.slot].hash, Stored(q.phase.response));
    ProbeRuns(Start(t0), ls, id, again);
    RunKeepsInv(t0, ls);
    assert Backed(s, id);
    if Produced(s.log, q.slot, e.hash, q.phase.response) {
      JustifiedGrows(s.log, e);
    } else {
      assert (s.log + [e])[|s.log|] == e && (s.log + [e])[..|s.log|] == s.log;
      assert !Justified(s.log, e);
    }
  }

  /** Request 1 claims and runs; its row then expires before the UPDATE is sent. */
  lemma StalledRun(t0: real, slot: Slot, r: Response) returns (ls: seq<Label>)
    ensures Runs(Start(t0), ls)
    ensures After(Start(t0), ls) ==
            State(t0 + TTL, map[slot := Row("a", None, t0 + TTL)],
                  map[1 := Request(slot, "a", Finishing(r), Some(t0))],
                  [Claimed(1, slot, "a", t0), Ran(1, slot, "a", t0, r)], map[])
  {
    var s := Start(t0);
    ls := Take(s, [], Arrive(1, slot, "a"));
    ls := Take(s, ls, Purge(1));
    ls := Take(s, ls, Insert(1));
    ls := Take(s, ls, Handle(1, r));
    ls := Take(s, ls, Tick(t0 + TTL));
  }

  /**
   Request 1 finishes its handler, but its UPDATE arrives after the row has
   expired and request 2 has claimed the key with another payload. Request 3
   repeats request 2's payload and is replayed request 1's outcome, although no
   execution of that payload has happened.
   */
  lemma LateCompletionMisleads(t0: real, slot: Slot, r: Response) returns (ls: seq<Label>)
    ensures Runs(Start(t0), ls) && !SafeRun(Start(t0), ls)
    ensures After(Start(t0), ls).log ==
            [Claimed(1, slot, "a", t0), Ran(1, slot, "a", t0, r), Claimed(2, slot, "b", t0 + TTL),
             ReplaySent(3, slot, "b", Stored(r))]
    ensures !ReplaysJustified(After(Start(t0), ls).log)
  {
    var s := Start(t0);
    ls := StalledRun(t0, slot, r);
    ls := Take(s, ls, Arrive(2, slot, "b"));
    ls := Take(s, ls, Purge(2));
    ls := Take(s, ls, Insert(2));
    var late := ls;
    assert After(s, late).table == map[slot := Row("b", None, t0 + TTL + TTL)];
    ls := Take(s, ls, Complete(1));
    ls := Take(s, ls, Arrive(3, slot, "b"));
    ls := Take(s, ls, Purge(3));
    ls := Take(s, ls, Insert(3));
    ls := Take(s, ls, Load(3));
    var log := After(s, ls).log;
    assert log[3] == ReplaySent(3, slot, "b", Stored(r));
    assert !Justified(log[..3], log[3]);
    SafeReplaysAreFaithfulContra(t0, ls);
  }

  /** An unjustified replay proves that some completion of the run was unsafe. */
  lemma SafeReplaysAreFaithfulContra(t0: real, ls: seq<Label>)
    requires Runs(Start(t0), ls) && !ReplaysJustified(After(Start(t0), ls).log)
    ensures !SafeRun(Start(t0), ls)
  {
    if SafeRun(Start(t0), ls) {
      SafeReplaysAreFaithful(t0, ls);
    }
  }
}
