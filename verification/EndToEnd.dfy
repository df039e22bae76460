/**
 One SDK call against an `idem`-wrapped route: the client's retry loop on one
 side, every interleaving of the server on the other.
 */
module EndToEnd {
  import opened Common
  import opened IdemStore
  import opened IdemProtocol
  import Cron
  import C = RetryClient

  // ---------------------------------------------------------------------
  // One key, one payload, one TTL
  // ---------------------------------------------------------------------

  /** Only this payload is ever sent under the slot. */
  ghost predicate OwnKey(ls: seq<Label>, slot: Slot, hash: string) {
    forall k :: 0 <= k < |ls| && ls[k].Arrive? && ls[k].slot == slot ==> ls[k].hash == hash
  }

  /** No statement of a request on this slot fails. */
  ghost predicate NoStoreFailure(s: State, ls: seq<Label>, slot: Slot)
    requires Runs(s, ls)
  {
    forall k :: 0 <= k < |ls| && ls[k].Fail? && ls[k].id in After(s, ls).requests ==>
      After(s, ls).requests[ls[k].id].slot != slot
  }

  /** Requests on this slot arrive only after `horizon - TTL`. */
  ghost predicate ArriveAfter(s: State, ls: seq<Label>, slot: Slot, horizon: real)
    requires Runs(s, ls)
  {
    ls == [] ||
    (ArriveAfter(s, ls[..|ls| - 1], slot, horizon) &&
     (ls[|ls| - 1].Arrive? && ls[|ls| - 1].slot == slot ==> horizon < After(s, ls[..|ls| - 1]).now + TTL))
  }

  /** Every request on this slot arrives less than one TTL before the end of the run. */
  ghost predicate WithinOneTtl(s: State, ls: seq<Label>, slot: Slot)
    requires Runs(s, ls)
  {
    ArriveAfter(s, ls, slot, After(s, ls).now)
  }

  /** What the caller of a request has been sent so far. */
  function Seen(phase: Phase): Option<Reply> {
    match phase
    case Finishing(r) => Some(Fresh(r))
    case Answered(reply) => Some(reply)
    case _ => None
  }

  ghost predicate ClaimsSlot(s: State, id: ReqId, slot: Slot) {
    id in s.requests && s.requests[id].slot == slot && s.requests[id].claimedAt.Some?
  }

  ghost predicate RecordedBy(s: State, slot: Slot, r: Response) {
    exists w :: ClaimsSlot(s, w, slot) && s.requests[w].phase.Answered? && s.requests[w].phase.reply.Fresh? &&
                Stored(s.requests[w].phase.reply.response) == r
  }

  ghost predicate RequestInv(s: State, id: ReqId, slot: Slot, hash: string, horizon: real)
    requires id in s.requests && s.requests[id].slot == slot
  {
    var q := s.requests[id];
    q.hash == hash && horizon < s.now + TTL &&
    (q.phase.Refused? || q.claimedAt.Some? ==> slot in s.table) &&
    (q.phase.Answered? ==>
       match q.phase.reply
       case Fresh(_) => true
       case InFlight => true
       case Replayed(r) => RecordedBy(s, slot, r)
       case _ => false)
  }

  ghost predicate SlotInv(s: State, slot: Slot, hash: string, horizon: real) {
    && (forall id :: id in s.requests && s.requests[id].slot == slot ==> RequestInv(s, id, slot, hash, horizon))
    && (forall a, b :: ClaimsSlot(s, a, slot) && ClaimsSlot(s, b, slot) ==> a == b)
    && (slot in s.table ==>
          s.table[slot].hash == hash && horizon < s.table[slot].expiresAt &&
          (s.table[slot].response.Some? ==> RecordedBy(s, slot, s.table[slot].response.value)))
  }

  lemma RecordedByStays(s: State, l: Label, slot: Slot, r: Response)
    requires Enabled(s, l) && RecordedBy(s, slot, r)
    ensures RecordedBy(Apply(s, l), slot, r)
  {
    var w :| ClaimsSlot(s, w, slot) && s.requests[w].phase.Answered? && s.requests[w].phase.reply.Fresh? &&
             Stored(s.requests[w].phase.reply.response) == r;
    assert ClaimsSlot(Apply(s, l), w, slot);
  }

  /** What SlotRun knows about the label it takes. */
  predicate Calm(s: State, l: Label, slot: Slot, hash: string, horizon: real) {
    Enabled(s, l) && Apply(s, l).now <= horizon &&
    (l.Arrive? && l.slot == slot ==> l.hash == hash && horizon < s.now + TTL) &&
    (l.Fail? ==> s.requests[l.id].slot != slot)
  }

  lemma RowStays(s: State, l: Label, slot: Slot, hash: string, horizon: real)
    requires Calm(s, l, slot, hash, horizon) && SlotInv(s, slot, hash, horizon)
    ensures slot in s.table ==> slot in Apply(s, l).table
    ensures slot in Apply(s, l).table ==>
              Apply(s, l).table[slot].hash == hash && horizon < Apply(s, l).table[slot].expiresAt
  {
  }

  lemma RequestStep(s: State, l: Label, id: ReqId, slot: Slot, hash: string, horizon: real)
    requires Inv(s) && SlotInv(s, slot, hash, horizon) && Calm(s, l, slot, hash, horizon)
    requires id in Apply(s, l).requests && Apply(s, l).requests[id].slot == slot
    ensures RequestInv(Apply(s, l), id, slot, hash, horizon)
  {
    var s' := Apply(s, l);
    RowStays(s, l, slot, hash, horizon);
    if id in s.requests {
      assert RequestInv(s, id, slot, hash, horizon) && Backed(s, id);
      if s'.requests[id].phase.Answered? && s'.requests[id].phase.reply.Replayed? {
        RecordedByStays(s, l, slot, s'.requests[id].phase.reply.response);
      }
    }
  }

  lemma OneClaimStep(s: State, l: Label, slot: Slot, hash: string, horizon: real)
    requires Inv(s) && SlotInv(s, slot, hash, horizon) && Enabled(s, l)
    ensures forall a, b :: ClaimsSlot(Apply(s, l), a, slot) && ClaimsSlot(Apply(s, l), b, slot) ==> a == b
  {
    var s' := Apply(s, l);
    forall a | ClaimsSlot(s', a, slot)
      ensures ClaimsSlot(s, a, slot) || (l.Insert? && l.id == a && slot !in s.table)
    {
    }
    forall a | ClaimsSlot(s, a, slot) ensures slot in s.table {
      assert RequestInv(s, a, slot, hash, horizon);
    }
  }

  lemma SlotStep(s: State, l: Label, slot: Slot, hash: string, horizon: real)
    requires Inv(s) && SlotInv(s, slot, hash, horizon) && Calm(s, l, slot, hash, horizon)
    ensures SlotInv(Apply(s, l), slot, hash, horizon)
  {
    var s' := Apply(s, l);
    RowStays(s, l, slot, hash, horizon);
    OneClaimStep(s, l, slot, hash, horizon);
    forall id | id in s'.requests && s'.requests[id].slot == slot ensures RequestInv(s', id, slot, hash, horizon) {
      RequestStep(s, l, id, slot, hash, horizon);
    }
    if slot in s'.table && s'.table[slot].response.Some? {
      if l.Complete? && s.requests[l.id].slot == slot {
        assert Backed(s, l.id) && ClaimsSlot(s', l.id, slot);
      } else {
        RecordedByStays(s, l, slot, s'.table[slot].response.value);
      }
    }
  }

  lemma {:induction false} SlotRun(t0: real, ls: seq<Label>, slot: Slot, hash: string, horizon: real)
    requires Runs(Start(t0), ls) && After(Start(t0), ls).now <= horizon
    requires OwnKey(ls, slot, hash) && NoStoreFailure(Start(t0), ls, slot)
    requires ArriveAfter(Start(t0), ls, slot, horizon)
    ensures SlotInv(After(Start(t0), ls), slot, hash, horizon)
  {
    if ls != [] {
      var front, l := ls[..|ls| - 1], ls[|ls| - 1];
      var s := After(Start(t0), front);
      assert forall k :: 0 <= k < |front| ==> front[k] == ls[k];
      assert forall id :: id in s.requests ==>
        id in Apply(s, l).requests && Apply(s, l).requests[id].slot == s.requests[id].slot;
      SlotRun(t0, front, slot, hash, horizon);
      RunKeepsInv(t0, front);
      SlotStep(s, l, slot, hash, horizon);
    }
  }

  predicate RunOn(e: Event, slot: Slot) {
    e.Ran? && e.slot == slot
  }

  ghost predicate RanAtMostOnce(log: seq<Event>, slot: Slot) {
    forall i, j :: 0 <= i < |log| && 0 <= j < |log| && RunOn(log[i], slot) && RunOn(log[j], slot) ==> i == j
  }

  predicate ClaimedOn(e: Event, slot: Slot) {
    e.Claimed? && e.slot == slot
  }

  /** A handler starts with a claim, so this also counts the ones that have not returned. */
  ghost predicate ClaimedAtMostOnce(log: seq<Event>, slot: Slot) {
    forall i, j :: 0 <= i < |log| && 0 <= j < |log| && ClaimedOn(log[i], slot) && ClaimedOn(log[j], slot) ==> i == j
  }

  lemma OneClaim(s: State, slot: Slot, hash: string)
    requires Inv(s) && SlotInv(s, slot, hash, s.now)
    ensures ClaimedAtMostOnce(s.log, slot)
  {
    forall i, j | 0 <= i < |s.log| && 0 <= j < |s.log| && ClaimedOn(s.log[i], slot) && ClaimedOn(s.log[j], slot)
      ensures i == j
    {
      assert EventKnown(s, s.log[i]) && EventKnown(s, s.log[j]);
      assert ClaimsSlot(s, s.log[i].id, slot) && ClaimsSlot(s, s.log[j].id, slot);
      assert s.log[i].at == s.log[j].at;
    }
  }

  /**
   For all requests on one slot with one payload, inside one TTL and without
   store failures: at most one claim, so at most one handler is ever started, at
   most one execution returns, and every answer sent is that
   execution's own outcome, its recorded copy, or the 409 in-flight problem.
   */
  lemma OneExecution(t0: real, ls: seq<Label>, slot: Slot, hash: string)
    requires Runs(Start(t0), ls)
    requires OwnKey(ls, slot, hash) && NoStoreFailure(Start(t0), ls, slot) && WithinOneTtl(Start(t0), ls, slot)
    ensures ClaimedAtMostOnce(After(Start(t0), ls).log, slot) && RanAtMostOnce(After(Start(t0), ls).log, slot)
    ensures var s := After(Start(t0), ls);
            forall id :: id in s.requests && s.requests[id].slot == slot && Seen(s.requests[id].phase).Some? ==>
              ExplainedBy(s.log, id, slot, hash, Seen(s.requests[id].phase).value)
  {
    var s := After(Start(t0), ls);
    SlotRun(t0, ls, slot, hash, s.now);
    RunKeepsInv(t0, ls);
    OneClaim(s, slot, hash);
    forall i, j | 0 <= i < |s.log| && 0 <= j < |s.log| && RunOn(s.log[i], slot) && RunOn(s.log[j], slot)
      ensures i == j
    {
      assert EventKnown(s, s.log[i]) && EventKnown(s, s.log[j]);
      assert ClaimsSlot(s, s.log[i].id, slot) && ClaimsSlot(s, s.log[j].id, slot);
      assert s.log[i].id == s.log[j].id;
    }
    forall id | id in s.requests && s.requests[id].slot == slot && Seen(s.requests[id].phase).Some?
      ensures ExplainedBy(s.log, id, slot, hash, Seen(s.requests[id].phase).value)
    {
      assert RequestInv(s, id, slot, hash, s.now) && Backed(s, id);
      var reply := Seen(s.requests[id].phase).value;
      if reply.Replayed? {
        var w :| ClaimsSlot(s, w, slot) && s.requests[w].phase.Answered? && s.requests[w].phase.reply.Fresh? &&
                 Stored(s.requests[w].phase.reply.response) == reply.response;
        assert Backed(s, w) && RequestInv(s, w, slot, hash, s.now);
      }
    }
  }

  /** The reply is this request's own execution, a copy of the recorded one, or 409. */
  ghost predicate ExplainedBy(log: seq<Event>, id: ReqId, slot: Slot, hash: string, reply: Reply) {
    match reply
    case Fresh(r) => exists at :: Ran(id, slot, hash, at, r) in log
    case Replayed(r) => exists w, at, r0 :: Ran(w, slot, hash, at, r0) in log && Repeats(r, r0)
    case InFlight => true
    case _ => false
  }

  // ---------------------------------------------------------------------
  // The client's view
  // ---------------------------------------------------------------------

  /** Where an answer came from: the idem-wrapped route, or something in front of it. */
  datatype Origin = Gateway | Route(id: ReqId)

  function Render(reply: Reply): C.Answer {
    match reply
    case Fresh(r) => C.Answer(r.status, r.body)
    case Replayed(r) => C.Answer(r.status, r.body)
    case _ => C.Answer(StatusOf(reply), "")   // problem document, text not modelled
  }

  predicate HttpSpace(c: char) {
    c == ' ' || c == '\t' || c == '\n' || c == '\r'
  }

  /** A header value as it arrives: fetch strips white space at both ends. */
  function HeaderValue(s: string): string {
    if s == "" then ""
    else if HttpSpace(s[0]) then HeaderValue(s[1..])
    else if HttpSpace(s[|s| - 1]) then HeaderValue(s[..|s| - 1])
    else s
  }

  predicate Trimmed(s: string) {
    s == "" || (s[0] !in " \t\n\r" && s[|s| - 1] !in " \t\n\r")
  }

  predicate Spaces(s: string) {
    forall i :: 0 <= i < |s| ==> s[i] in " \t\n\r"
  }

  lemma {:induction false} TailIsTrimmed(value: string, after: string)
    requires Trimmed(value) && Spaces(after)
    ensures HeaderValue(value + after) == value
    decreases |after|
  {
    var s := value + after;
    if after == "" {
      assert s == value;
    } else if value == "" {
      TailIsTrimmed("", after[1..]);
      assert s[1..] == "" + after[1..];
    } else {
      var front := after[..|after| - 1];
      TailIsTrimmed(value, front);
      assert s[..|s| - 1] == value + front;
    }
  }

  /** Whatever white space surrounds a trimmed value, the server reads that value. */
  lemma {:induction false} HeaderIsTrimmed(before: string, value: string, after: string)
    requires Spaces(before) && Trimmed(value) && Spaces(after)
    ensures HeaderValue(before + value + after) == value
    decreases |before|
  {
    var s := before + value + after;
    if before != "" {
      HeaderIsTrimmed(before[1..], value, after);
      assert s[1..] == before[1..] + value + after;
    } else {
      assert s == value + after;
      TailIsTrimmed(value, after);
    }
  }

  /** The part of a request target before its first '#', which is never sent. */
  function Unfragmented(target: string): string {
    target[..Cron.IndexOf(target, '#')]
  }

  function PathOf(target: string): string {
    var sent := Unfragmented(target);
    sent[..Cron.IndexOf(sent, '?')]
  }

  function QueryOf(target: string): string {
    var sent := Unfragmented(target);
    sent[Cron.IndexOf(sent, '?')..]
  }

  /** A target is cut at its first '?' or '#'. */
  lemma TargetIsCut(path: string, query: string, fragment: string)
    requires '?' !in path && '#' !in path + query && (query == "" || query[0] == '?')
    requires fragment == "" || fragment[0] == '#'
    ensures PathOf(path + query + fragment) == path && QueryOf(path + query + fragment) == query
  {
    var sent := path + query;
    if fragment == "" {
      Cron.IndexOfAbsent(sent, '#');
      assert sent + fragment == sent;
    } else {
      Cron.IndexOfFirst(sent, '#', fragment[1..]);
      assert sent + fragment == sent + ['#'] + fragment[1..];
    }
    assert Unfragmented(sent + fragment) == sent;
    if query == "" {
      Cron.IndexOfAbsent(path, '?');
      assert sent == path;
    } else {
      Cron.IndexOfFirst(path, '?', query[1..]);
      assert sent == path + ['?'] + query[1..];
    }
  }

  function AsRequest(m: C.Sent, org: string): HttpRequest {
    HttpRequest(m.verb, PathOf(m.path), QueryOf(m.path),
                if m.key.Some? then HeaderValue(m.key.value) else "", Some(org),
                Some(if m.body.Some? then m.body.value else ""))
  }

  /** What the caller hands to the SDK. `verb0` is as written, before upper-casing. */
  datatype Call = Call(verb0: string, path: string, body: Option<string>, explicitKey: Option<string>)

  /** The key as the server reads it. */
  function KeyOf(call: Call, freshKey: string): string {
    HeaderValue(if call.explicitKey.Some? then call.explicitKey.value else freshKey)
  }

  function HashOf(call: Call, digest: string -> string): string {
    digest(C.Upper(call.verb0) + PathOf(call.path) + (if call.body.Some? then call.body.value else ""))
  }

  function GateOf(m: C.Sent, org: string, digest: string -> string): Gate {
    Classify(AsRequest(m, org), digest)
  }

  function Attempt(call: Call, freshKey: string): C.Sent {
    var verb := C.Upper(call.verb0);
    C.Sent(verb, call.path, C.KeyFor(verb, call.explicitKey, freshKey), call.body)
  }

  /** With a key, every attempt of a mutating call is guarded, on one slot and hash; a blank one bypasses the table. */
  lemma AttemptsShareSlot(call: Call, freshKey: string, org: string, digest: string -> string)
    requires C.Upper(call.verb0) in C.MUTATING_METHODS
    ensures var gate := GateOf(Attempt(call, freshKey), org, digest);
            (gate.Guarded? <==> KeyOf(call, freshKey) != "") && (gate.Bypass? <==> KeyOf(call, freshKey) == "") &&
            (gate.Guarded? ==> gate == Guarded(Slot(KeyOf(call, freshKey), org), HashOf(call, digest)))
  {
  }

  /** The server side of one call: only this payload under its key, one TTL, no store failure. */
  ghost predicate Served(t0: real, ls: seq<Label>, slot: Slot, hash: string) {
    Runs(Start(t0), ls) && OwnKey(ls, slot, hash) && NoStoreFailure(Start(t0), ls, slot) &&
    WithinOneTtl(Start(t0), ls, slot)
  }

  /** `a` is what the request `id` on `slot` has been sent. */
  ghost predicate AnsweredBy(s: State, slot: Slot, id: ReqId, a: C.Answer) {
    id in s.requests && s.requests[id].slot == slot && Seen(s.requests[id].phase).Some? &&
    a == Render(Seen(s.requests[id].phase).value)
  }

  /** Every answer that arrives comes from the gateway or is what that attempt's own request was sent. */
  ghost predicate Exchange(s: State, slot: Slot, net: nat -> Option<C.Answer>, origin: nat -> Origin) {
    (forall i: nat :: origin(i).Route? && net(i).Some? ==> AnsweredBy(s, slot, origin(i).id, net(i).value)) &&
    (forall i: nat, j: nat :: origin(i).Route? && origin(i) == origin(j) ==> i == j)
  }

  ghost predicate Executed(log: seq<Event>, slot: Slot, id: ReqId) {
    exists e :: e in log && RunOn(e, slot) && e.id == id
  }

  /** `a` is the outcome of the execution by `id`, as it was. */
  ghost predicate OwnOutcome(log: seq<Event>, slot: Slot, id: ReqId, a: C.Answer) {
    exists e :: e in log && RunOn(e, slot) && e.id == id && a == C.Answer(e.response.status, e.response.body)
  }

  /** `a` is the outcome of an execution on the slot, 5xx included, with an empty body recorded as "{}". */
  ghost predicate RecordedOutcome(log: seq<Event>, slot: Slot, a: C.Answer) {
    exists e :: e in log && RunOn(e, slot) && a.status == e.response.status &&
                a.text == if e.response.body == "" then "{}" else e.response.body
  }

  /** What one routed answer can be, given whether its own request is the one that ran the handler. */
  ghost predicate Explained(log: seq<Event>, slot: Slot, id: ReqId, a: C.Answer) {
    if Executed(log, slot, id) then OwnOutcome(log, slot, id, a)
    else a.status == 409 || RecordedOutcome(log, slot, a)
  }

  lemma ExecutorSeesItsOutcome(s: State, slot: Slot, id: ReqId)
    requires Inv(s) && Executed(s.log, slot, id)
    ensures id in s.requests && Seen(s.requests[id].phase).Some? && Seen(s.requests[id].phase).value.Fresh?
  {
    var e :| e in s.log && RunOn(e, slot) && e.id == id;
    assert EventKnown(s, e);
  }

  lemma AnswerIsExplained(s: State, slot: Slot, hash: string, id: ReqId, a: C.Answer)
    requires Inv(s) && AnsweredBy(s, slot, id, a)
    requires ExplainedBy(s.log, id, slot, hash, Seen(s.requests[id].phase).value)
    ensures Explained(s.log, slot, id, a)
  {
    var reply := Seen(s.requests[id].phase).value;
    if Executed(s.log, slot, id) {
      ExecutorSeesItsOutcome(s, slot, id);
    }
    if reply.Fresh? {
      var at :| Ran(id, slot, hash, at, reply.response) in s.log;
      assert RunOn(Ran(id, slot, hash, at, reply.response), slot);
    } else if reply.Replayed? {
      var w, at, r0 :| Ran(w, slot, hash, at, r0) in s.log && Repeats(reply.response, r0);
      assert RunOn(Ran(w, slot, hash, at, r0), slot);
    }
  }

  /**
   The answers of one call: the handler is started at most once, and at most one
   routed attempt is the one that ran it. An answer to that attempt is its own
   outcome; every other routed answer is the recorded outcome of the one
   execution, or 409.
   */
  ghost predicate OneOutcome(log: seq<Event>, slot: Slot, n: nat, net: nat -> Option<C.Answer>, origin: nat -> Origin) {
    ClaimedAtMostOnce(log, slot) && RanAtMostOnce(log, slot) &&
    (forall i: nat :: i < n && origin(i).Route? && net(i).Some? ==>
       Explained(log, slot, origin(i).id, net(i).value)) &&
    (forall i: nat, j: nat :: i < j < n && origin(i).Route? && origin(j).Route? ==>
       !Executed(log, slot, origin(i).id) || !Executed(log, slot, origin(j).id))
  }

  lemma ExchangeHasOneOutcome(t0: real, ls: seq<Label>, slot: Slot, hash: string, n: nat,
                              net: nat -> Option<C.Answer>, origin: nat -> Origin)
    requires Served(t0, ls, slot, hash) && Exchange(After(Start(t0), ls), slot, net, origin)
    ensures OneOutcome(After(Start(t0), ls).log, slot, n, net, origin)
  {
    var s := After(Start(t0), ls);
    OneExecution(t0, ls, slot, hash);
    RunKeepsInv(t0, ls);
    forall i: nat | i < n && origin(i).Route? && net(i).Some?
      ensures Explained(s.log, slot, origin(i).id, net(i).value)
    {
      AnswerIsExplained(s, slot, hash, origin(i).id, net(i).value);
    }
    forall i: nat, j: nat | i < j < n && origin(i).Route? && origin(j).Route?
      ensures !Executed(s.log, slot, origin(i).id) || !Executed(s.log, slot, origin(j).id)
    {
      OneExecutor(s.log, slot, origin(i).id, origin(j).id);
    }
  }

  lemma OneExecutor(log: seq<Event>, slot: Slot, a: ReqId, b: ReqId)
    requires RanAtMostOnce(log, slot) && a != b
    ensures !Executed(log, slot, a) || !Executed(log, slot, b)
  {
    if Executed(log, slot, a) {
      var i :| 0 <= i < |log| && RunOn(log[i], slot) && log[i].id == a;
      assert forall j :: 0 <= j < |log| && RunOn(log[j], slot) ==> log[j].id == a;
    }
  }

  /**
   One mutating SDK call, end to end: the client loop against a server run `ls`.
   With a key every attempt lands on one slot and hash, and the answers are as
   OneOutcome says. With a blank explicit key every attempt bypasses the table.
   */
  method CallAgainstServer(client: C.TenaraClient, call: Call, freshKey: string, org: string, digest: string -> string,
                           ghost t0: real, ghost ls: seq<Label>,
                           net: nat -> Option<C.Answer>, ghost origin: nat -> Origin)
    returns (result: Option<C.Answer>, sent: seq<C.Sent>)
    requires C.Upper(call.verb0) in C.MUTATING_METHODS
    requires KeyOf(call, freshKey) != "" ==>
               var slot := Slot(KeyOf(call, freshKey), org);
               Served(t0, ls, slot, HashOf(call, digest)) && Exchange(After(Start(t0), ls), slot, net, origin)
    ensures 1 <= |sent| && (|sent| == 1 || |sent| <= client.maxRetries + 1) && result == net(|sent| - 1)
    ensures forall i :: 0 <= i < |sent| - 1 ==>
              net(i).Some? && (net(i).value.status == 429 || net(i).value.status >= 500)
    ensures KeyOf(call, freshKey) == "" ==> forall i :: 0 <= i < |sent| ==> GateOf(sent[i], org, digest) == Bypass
    ensures KeyOf(call, freshKey) != "" ==>
              var slot := Slot(KeyOf(call, freshKey), org);
              (forall i :: 0 <= i < |sent| ==> GateOf(sent[i], org, digest) == Guarded(slot, HashOf(call, digest))) &&
              OneOutcome(After(Start(t0), ls).log, slot, |sent|, net, origin)
  {
    var slept;
    result, sent, slept := client.Request(call.verb0, call.path, call.body, call.explicitKey, freshKey, net);
    AttemptsShareSlot(call, freshKey, org, digest);
    assert forall i :: 0 <= i < |sent| ==> sent[i] == Attempt(call, freshKey);
    if KeyOf(call, freshKey) != "" {
      ExchangeHasOneOutcome(t0, ls, Slot(KeyOf(call, freshKey), org), HashOf(call, digest), |sent|, net, origin);
    }
  }
}
