/**
 The GitHub webhook of preview environments: a replay map that is pruned on
 every call, in front of the open and close hooks. Time is `real`.
 */
module Webhook {
  import opened Common

  type Seen = map<string, real>

  function Pruned(seen: Seen, ttl: real, now: real): Seen {
    map id | id in seen && now - seen[id] <= ttl :: seen[id]
  }

  predicate Admits(seen: Seen, ttl: real, delivery: string, now: real) {
    delivery != "" && delivery !in Pruned(seen, ttl, now)
  }

  function SeenNext(seen: Seen, ttl: real, delivery: string, now: real): Seen {
    if delivery == "" then seen
    else
      var kept := Pruned(seen, ttl, now);
      if delivery in kept then kept else kept[delivery := now]
  }

  class ReplayGuard {
    const ttl: real
    var seen: Seen

    constructor (ttl: real)
      ensures this.ttl == ttl && seen == map[]
    {
      this.ttl := ttl;
      seen := map[];
    }

    /** The map is walked in any order while expired entries are deleted from it. */
    method Allow(delivery: string, now: real) returns (ok: bool)
      modifies this
      ensures ok == Admits(old(seen), ttl, delivery, now)
      ensures seen == SeenNext(old(seen), ttl, delivery, now)
      ensures ok <==> delivery != "" && (delivery !in old(seen) || now - old(seen)[delivery] > ttl)
      ensures delivery == "" ==> seen == old(seen)
      ensures delivery != "" ==>
                forall id :: id in seen <==> id == delivery || (id in old(seen) && now - old(seen)[id] <= ttl)
      ensures forall id :: id in seen ==> seen[id] == if ok && id == delivery then now else old(seen)[id]
    {
      if delivery == "" {
        return false;
      }
      var todo := seen.Keys;
      while todo != {}
        invariant todo <= seen.Keys <= old(seen).Keys
        invariant forall id :: id in seen ==> seen[id] == old(seen)[id]
        invariant forall id :: id in old(seen) && id !in todo ==> (id in seen <==> now - old(seen)[id] <= ttl)
        decreases |todo|
      {
        var id :| id in todo;
        todo := todo - {id};
        if now - seen[id] > ttl {
          seen := seen - {id};
        }
      }
      assert seen == Pruned(old(seen), ttl, now);
      if delivery in seen {
        return false;
      }
      seen := seen[delivery := now];
      return true;
    }
  }

  // ---------------------------------------------------------------------
  // The full-history rule
  // ---------------------------------------------------------------------

  datatype Delivery = Delivery(id: string, at: real)

  predicate Ordered(ds: seq<Delivery>) {
    forall i, j :: 0 <= i <= j < |ds| ==> ds[i].at <= ds[j].at
  }

  function SeenAfter(ttl: real, ds: seq<Delivery>): Seen {
    if ds == [] then map[]
    else
      var d := ds[|ds| - 1];
      SeenNext(SeenAfter(ttl, ds[..|ds| - 1]), ttl, d.id, d.at)
  }

  /** What the guard answers to each delivery. */
  function Answers(ttl: real, ds: seq<Delivery>): seq<bool> {
    if ds == [] then []
    else
      var front, d := ds[..|ds| - 1], ds[|ds| - 1];
      Answers(ttl, front) + [Admits(SeenAfter(ttl, front), ttl, d.id, d.at)]
  }

  /** Never forgetting anything: non-empty, and not admitted within the last ttl. */
  predicate FreshByHistory(ttl: real, admitted: seq<Delivery>, d: Delivery) {
    d.id != "" && forall k :: 0 <= k < |admitted| && admitted[k].id == d.id ==> d.at - admitted[k].at > ttl
  }

  function Admitted(ttl: real, ds: seq<Delivery>): seq<Delivery> {
    if ds == [] then []
    else
      var admitted, d := Admitted(ttl, ds[..|ds| - 1]), ds[|ds| - 1];
      if FreshByHistory(ttl, admitted, d) then admitted + [d] else admitted
  }

  function HistoryAnswers(ttl: real, ds: seq<Delivery>): seq<bool> {
    if ds == [] then []
    else
      var front := ds[..|ds| - 1];
      HistoryAnswers(ttl, front) + [FreshByHistory(ttl, Admitted(ttl, front), ds[|ds| - 1])]
  }

  /** The map holds every admission that is still within ttl, and only admissions. */
  ghost predicate Remembers(seen: Seen, ttl: real, admitted: seq<Delivery>, now: real) {
    (forall id :: id in seen ==> Delivery(id, seen[id]) in admitted) &&
    (forall k :: 0 <= k < |admitted| && now - admitted[k].at <= ttl ==>
       admitted[k].id in seen && seen[admitted[k].id] == admitted[k].at) &&
    (forall k :: 0 <= k < |admitted| ==> admitted[k].at <= now)
  }

  lemma StepAgrees(seen: Seen, ttl: real, admitted: seq<Delivery>, now: real, d: Delivery)
    requires Remembers(seen, ttl, admitted, now) && now <= d.at
    ensures Admits(seen, ttl, d.id, d.at) <==> FreshByHistory(ttl, admitted, d)
    ensures Remembers(SeenNext(seen, ttl, d.id, d.at), ttl,
                      if FreshByHistory(ttl, admitted, d) then admitted + [d] else admitted, d.at)
  {
    if d.id in Pruned(seen, ttl, d.at) {
      var k :| 0 <= k < |admitted| && admitted[k] == Delivery(d.id, seen[d.id]);
      assert !FreshByHistory(ttl, admitted, d);
    }
  }

  /** On every run with a nondecreasing clock, pruning never changes an answer. */
  lemma {:induction false} PruningIsInvisible(ttl: real, ds: seq<Delivery>)
    requires Ordered(ds)
    ensures Answers(ttl, ds) == HistoryAnswers(ttl, ds)
    ensures ds != [] ==> Remembers(SeenAfter(ttl, ds), ttl, Admitted(ttl, ds), ds[|ds| - 1].at)
  {
    if ds != [] {
      var front, d := ds[..|ds| - 1], ds[|ds| - 1];
      PruningIsInvisible(ttl, front);
      var now := if front == [] then d.at else front[|front| - 1].at;
      StepAgrees(SeenAfter(ttl, front), ttl, Admitted(ttl, front), now, d);
    }
  }

  lemma AdmittedSnoc(ttl: real, ds: seq<Delivery>, d: Delivery)
    ensures Admitted(ttl, ds + [d]) ==
            if FreshByHistory(ttl, Admitted(ttl, ds), d) then Admitted(ttl, ds) + [d] else Admitted(ttl, ds)
  {
    assert (ds + [d])[..|ds|] == ds;
  }

  lemma {:induction false} RefusedLeavesHistory(ttl: real, before: seq<Delivery>, d: Delivery, after: seq<Delivery>)
    requires !FreshByHistory(ttl, Admitted(ttl, before), d)
    ensures Admitted(ttl, before + [d] + after) == Admitted(ttl, before + after)
  {
    if after == [] {
      assert before + after == before && before + [d] + after == before + [d];
      AdmittedSnoc(ttl, before, d);
    } else {
      var rest, e := after[..|after| - 1], after[|after| - 1];
      RefusedLeavesHistory(ttl, before, d, rest);
      assert before + [d] + after == (before + [d] + rest) + [e];
      assert before + after == (before + rest) + [e];
      AdmittedSnoc(ttl, before + [d] + rest, e);
      AdmittedSnoc(ttl, before + rest, e);
    }
  }

  lemma AnswerByHistory(ttl: real, ds: seq<Delivery>, e: Delivery)
    requires Ordered(ds + [e])
    ensures Admits(SeenAfter(ttl, ds), ttl, e.id, e.at) <==> FreshByHistory(ttl, Admitted(ttl, ds), e)
  {
    var all := ds + [e];
    assert forall i :: 0 <= i < |ds| ==> all[i] == ds[i];
    assert all[|ds|] == e;
    PruningIsInvisible(ttl, ds);
    var now := if ds == [] then e.at else ds[|ds| - 1].at;
    StepAgrees(SeenAfter(ttl, ds), ttl, Admitted(ttl, ds), now, e);
  }

  /** A refused delivery extends no window: every later answer is what it would be without it. */
  lemma RefusalsLeaveNoTrace(ttl: real, before: seq<Delivery>, d: Delivery, after: seq<Delivery>, e: Delivery)
    requires Ordered(before + [d] + after + [e])
    requires !Admits(SeenAfter(ttl, before), ttl, d.id, d.at)
    ensures Admits(SeenAfter(ttl, before + [d] + after), ttl, e.id, e.at) <==>
            Admits(SeenAfter(ttl, before + after), ttl, e.id, e.at)
  {
    var all, n := before + [d] + after + [e], |before|;
    assert forall i :: 0 <= i < n + 1 ==> (before + [d])[i] == all[i];
    assert forall i :: 0 <= i < |before + after + [e]| ==>
      (before + after + [e])[i] == all[if i < n then i else i + 1];
    AnswerByHistory(ttl, before, d);
    AnswerByHistory(ttl, before + [d] + after, e);
    AnswerByHistory(ttl, before + after, e);
    RefusedLeavesHistory(ttl, before, d, after);
  }

  // ---------------------------------------------------------------------
  // The handler
  // ---------------------------------------------------------------------

  datatype PRAction = ActionOpen | ActionClose | ActionIgnore

  function DecidePRAction(action: string, merged: bool): PRAction {
    if action == "opened" || action == "reopened" then ActionOpen
    else if action == "closed" then ActionClose
    else ActionIgnore
  }

  /** pullRequest carries the merged flag. */
  datatype Payload = Payload(action: string, number: int, pullRequest: Option<bool>)

  /**
   `readable`: the body could be read; `signed`: VerifySignature accepted it;
   `payload`: None when it is not JSON; `hookOk`: the hook, if any, succeeds.
   */
  datatype HookRequest = HookRequest(
    readable: bool, signed: bool, delivery: string, at: real, payload: Option<Payload>, hookOk: bool)

  /** Which hooks are installed. */
  datatype Hooks = Hooks(onOpen: bool, onClose: bool)

  datatype HookCall = HookCall(delivery: string, at: real, action: PRAction, number: int)

  predicate ReachesGuard(req: HookRequest) {
    req.readable && req.signed
  }

  predicate WellFormed(req: HookRequest) {
    req.payload.Some? && req.payload.value.pullRequest.Some? && req.payload.value.number > 0
  }

  /** The hook a request fires once the guard has let it through. */
  function HookOf(hooks: Hooks, req: HookRequest): Option<HookCall> {
    if !WellFormed(req) then None
    else
      var p := req.payload.value;
      var action := DecidePRAction(p.action, p.pullRequest.value);
      if (action.ActionOpen? && hooks.onOpen) || (action.ActionClose? && hooks.onClose)
      then Some(HookCall(req.delivery, req.at, action, p.number))
      else None
  }

  function FiredBy(hooks: Hooks, seen: Seen, ttl: real, req: HookRequest): seq<HookCall> {
    if ReachesGuard(req) && Admits(seen, ttl, req.delivery, req.at) && HookOf(hooks, req).Some?
    then [HookOf(hooks, req).value] else []
  }

  /** The request is genuine, no replay, and carries a usable pull request. */
  ghost predicate Passes(seen: Seen, ttl: real, req: HookRequest) {
    ReachesGuard(req) && Admits(seen, ttl, req.delivery, req.at) &&
    req.payload.Some? && req.payload.value.pullRequest.Some? && req.payload.value.number > 0
  }

  /** Opened and reopened open, closed closes, merged or not, and nothing else fires; each hook only if installed. */
  ghost predicate Calls(hooks: Hooks, req: HookRequest, c: HookCall)
    requires req.payload.Some?
  {
    var p := req.payload.value;
    c.delivery == req.delivery && c.at == req.at && c.number == p.number &&
    ((c.action == ActionOpen && hooks.onOpen && p.action in {"opened", "reopened"}) ||
     (c.action == ActionClose && hooks.onClose && p.action == "closed"))
  }

  class Handler {
    const guard: ReplayGuard
    const hooks: Hooks
    var fired: seq<HookCall>

    constructor (guard: ReplayGuard, hooks: Hooks)
      ensures this.guard == guard && this.hooks == hooks && fired == []
    {
      this.guard, this.hooks := guard, hooks;
      fired := [];
    }

    method ServeHTTP(req: HookRequest) returns (status: int)
      modifies this, guard
      ensures fired == old(fired) + FiredBy(hooks, old(guard.seen), guard.ttl, req)
      ensures Passes(old(guard.seen), guard.ttl, req) && (exists c :: Calls(hooks, req, c)) ==>
                |fired| == |old(fired)| + 1 && old(fired) <= fired && Calls(hooks, req, fired[|old(fired)|])
      ensures !(Passes(old(guard.seen), guard.ttl, req) && exists c :: Calls(hooks, req, c)) ==> fired == old(fired)
      ensures guard.seen == if ReachesGuard(req) then SeenNext(old(guard.seen), guard.ttl, req.delivery, req.at)
                            else old(guard.seen)
      ensures status == 400 <==>
              !req.readable ||
              (req.signed && Admits(old(guard.seen), guard.ttl, req.delivery, req.at) &&
               !Passes(old(guard.seen), guard.ttl, req))
      ensures status == 401 <==> req.readable && !req.signed
      ensures status == 409 <==> ReachesGuard(req) && !Admits(old(guard.seen), guard.ttl, req.delivery, req.at)
      ensures status == 500 <==> fired != old(fired) && !req.hookOk
      ensures status in {202, 400, 401, 409, 500}
    {
      if !req.readable {
        return 400;
      }
      if !req.signed {
        return 401;
      }
      var ok := guard.Allow(req.delivery, req.at);
      if !ok {
        return 409;
      }
      if req.payload.None? || req.payload.value.pullRequest.None? || req.payload.value.number <= 0 {
        return 400;
      }
      var p := req.payload.value;
      match DecidePRAction(p.action, p.pullRequest.value) {
        case ActionOpen =>
          if hooks.onOpen {
            fired := fired + [HookCall(req.delivery, req.at, ActionOpen, p.number)];
            assert Calls(hooks, req, fired[|old(fired)|]);
            if !req.hookOk {
              return 500;
            }
          }
        case ActionClose =>
          if hooks.onClose {
            fired := fired + [HookCall(req.delivery, req.at, ActionClose, p.number)];
            assert Calls(hooks, req, fired[|old(fired)|]);
            if !req.hookOk {
              return 500;
            }
          }
        case ActionIgnore =>
      }
      return 202;
    }
  }

  /** The deliveries that get as far as the guard. */
  function Guarded(reqs: seq<HookRequest>): seq<Delivery> {
    if reqs == [] then []
    else
      var r := reqs[|reqs| - 1];
      Guarded(reqs[..|reqs| - 1]) + if ReachesGuard(r) then [Delivery(r.delivery, r.at)] else []
  }

  /** Every hook call of a whole sequence of requests. */
  function FiredAfter(hooks: Hooks, ttl: real, reqs: seq<HookRequest>): seq<HookCall> {
    if reqs == [] then []
    else
      var front := reqs[..|reqs| - 1];
      FiredAfter(hooks, ttl, front) + FiredBy(hooks, SeenAfter(ttl, Guarded(front)), ttl, reqs[|reqs| - 1])
  }

  predicate OrderedRequests(reqs: seq<HookRequest>) {
    forall i, j :: 0 <= i <= j < |reqs| ==> reqs[i].at <= reqs[j].at
  }

  lemma {:induction false} GuardedOrdered(reqs: seq<HookRequest>)
    requires OrderedRequests(reqs)
    ensures Ordered(Guarded(reqs))
    ensures forall i :: 0 <= i < |Guarded(reqs)| ==> reqs != [] && Guarded(reqs)[i].at <= reqs[|reqs| - 1].at
  {
    if reqs != [] {
      GuardedOrdered(reqs[..|reqs| - 1]);
    }
  }

  ghost predicate FiredFromAdmitted(fired: seq<HookCall>, admitted: seq<Delivery>) {
    forall k :: 0 <= k < |fired| ==> Delivery(fired[k].delivery, fired[k].at) in admitted
  }

  ghost predicate FiredApart(ttl: real, fired: seq<HookCall>) {
    forall i, j :: 0 <= i < j < |fired| && fired[i].delivery == fired[j].delivery ==> fired[j].at - fired[i].at > ttl
  }

  /** One delivery through the guard, with or without a hook call. */
  lemma FiringStep(ttl: real, fired: seq<HookCall>, admitted: seq<Delivery>, d: Delivery, c: Option<HookCall>)
    requires FiredFromAdmitted(fired, admitted) && FiredApart(ttl, fired)
    requires c.Some? ==> c.value.delivery == d.id && c.value.at == d.at && FreshByHistory(ttl, admitted, d)
    ensures var fired' := fired + if c.Some? then [c.value] else [];
            FiredApart(ttl, fired') &&
            FiredFromAdmitted(fired', if FreshByHistory(ttl, admitted, d) then admitted + [d] else admitted)
  {
    if c.Some? {
      forall i | 0 <= i < |fired| && fired[i].delivery == d.id ensures d.at - fired[i].at > ttl {
        var k :| 0 <= k < |admitted| && admitted[k] == Delivery(fired[i].delivery, fired[i].at);
      }
    }
  }

  /** What the last request of a run adds to the guard's deliveries and to the hook calls. */
  lemma LastRequest(hooks: Hooks, ttl: real, reqs: seq<HookRequest>, ds: seq<Delivery>, fired: seq<HookCall>)
    requires reqs != []
    requires ds == Guarded(reqs[..|reqs| - 1]) && fired == FiredAfter(hooks, ttl, reqs[..|reqs| - 1])
    ensures var r := reqs[|reqs| - 1];
            if !ReachesGuard(r) then Guarded(reqs) == ds && FiredAfter(hooks, ttl, reqs) == fired
            else
              Guarded(reqs) == ds + [Delivery(r.delivery, r.at)] &&
              var c := if Admits(SeenAfter(ttl, ds), ttl, r.delivery, r.at) then HookOf(hooks, r) else None;
              FiredAfter(hooks, ttl, reqs) == fired + if c.Some? then [c.value] else []
  {
  }

  lemma {:induction false} FiredWasAdmitted(hooks: Hooks, ttl: real, reqs: seq<HookRequest>)
    requires OrderedRequests(reqs)
    ensures FiredFromAdmitted(FiredAfter(hooks, ttl, reqs), Admitted(ttl, Guarded(reqs)))
    ensures FiredApart(ttl, FiredAfter(hooks, ttl, reqs))
  {
    if reqs != [] {
      var front, r := reqs[..|reqs| - 1], reqs[|reqs| - 1];
      FiredWasAdmitted(hooks, ttl, front);
      GuardedOrdered(front);
      var ds, fired := Guarded(front), FiredAfter(hooks, ttl, front);
      LastRequest(hooks, ttl, reqs, ds, fired);
      if ReachesGuard(r) {
        var d := Delivery(r.delivery, r.at);
        assert (ds + [d])[..|ds|] == ds;
        AnswerByHistory(ttl, ds, d);
        var c := if Admits(SeenAfter(ttl, ds), ttl, d.id, d.at) then HookOf(hooks, r) else None;
        FiringStep(ttl, fired, Admitted(ttl, ds), d, c);
      }
    }
  }

  /** Every hook call answers a genuine request for that action, of which the hook is installed. */
  lemma {:induction false} EveryCallWasAskedFor(hooks: Hooks, ttl: real, reqs: seq<HookRequest>, k: nat)
    requires k < |FiredAfter(hooks, ttl, reqs)|
    ensures exists i :: 0 <= i < |reqs| && reqs[i].readable && reqs[i].signed && reqs[i].payload.Some? &&
                        Calls(hooks, reqs[i], FiredAfter(hooks, ttl, reqs)[k])
  {
    var front, r := reqs[..|reqs| - 1], reqs[|reqs| - 1];
    var before := FiredAfter(hooks, ttl, front);
    if k < |before| {
      EveryCallWasAskedFor(hooks, ttl, front, k);
      var i :| 0 <= i < |front| && front[i].readable && front[i].signed && front[i].payload.Some? &&
               Calls(hooks, front[i], before[k]);
      assert reqs[i] == front[i];
    } else {
      assert Calls(hooks, r, HookOf(hooks, r).value);
    }
  }

  /** For one delivery id, hooks fire more than one ttl apart, so at most once per ttl window. */
  lemma HooksFireOncePerWindow(hooks: Hooks, ttl: real, reqs: seq<HookRequest>, i: nat, j: nat)
    requires OrderedRequests(reqs)
    requires i < j < |FiredAfter(hooks, ttl, reqs)|
    requires FiredAfter(hooks, ttl, reqs)[i].delivery == FiredAfter(hooks, ttl, reqs)[j].delivery
    ensures FiredAfter(hooks, ttl, reqs)[j].at - FiredAfter(hooks, ttl, reqs)[i].at > ttl
  {
    FiredWasAdmitted(hooks, ttl, reqs);
  }
}
