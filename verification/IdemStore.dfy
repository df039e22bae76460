/**
 The `idempotency_keys` table, one operation per SQL statement, the response
 recorder placed in front of the handler, and the request gate of `idem`.

 Time is a `real` number of hours on one clock. Each statement takes effect at
 the instant `now` it is given.
 */
module IdemStore {
  import opened Common

  // Column default of expires_at: now() + 24 hours.
  const TTL: real := 24.0

  datatype Slot = Slot(key: string, org: string)

  datatype Response = Response(status: int, body: string)

  /** response_status and response_body are always written together. */
  datatype Row = Row(hash: string, response: Option<Response>, expiresAt: real)

  type Table = map<Slot, Row>

  datatype Reply =
    | Fresh(response: Response)      // this request ran the handler
    | Replayed(response: Response)   // stored outcome, Idempotent-Replayed: true
    | Conflict                       // 422, key used with another payload
    | InFlight                       // 409, original still running
    | LookupFailed                   // 500, no row or the SELECT failed
    | StoreFailed                    // 500, the claim failed

  function StatusOf(reply: Reply): int {
    match reply
    case Fresh(r) => r.status
    case Replayed(r) => r.status
    case Conflict => 422
    case InFlight => 409
    case LookupFailed => 500
    case StoreFailed => 500
  }

  /** What a copy of an outcome keeps: its status and its body, an empty one as "{}". */
  predicate Repeats(copy: Response, original: Response) {
    copy.status == original.status && copy.body == if original.body == "" then "{}" else original.body
  }

  /** An empty body is stored as "{}". */
  function Stored(r: Response): Response {
    if r.body == "" then Response(r.status, "{}") else r
  }

  function PurgeSlot(t: Table, slot: Slot, now: real): Table {
    if slot in t && t[slot].expiresAt <= now then t - {slot} else t
  }

  function InsertIfAbsent(t: Table, slot: Slot, hash: string, now: real): Table {
    if slot in t then t else t[slot := Row(hash, None, now + TTL)]
  }

  function LoadReply(t: Table, slot: Slot, hash: string): Reply {
    if slot !in t then LookupFailed
    else if t[slot].hash != hash then Conflict
    else if t[slot].response.None? then InFlight
    else Replayed(t[slot].response.value)
  }

  /** The UPDATE matches on (key, org) only, not on the claim that opened the row. */
  function Record(t: Table, slot: Slot, r: Response): Table {
    if slot in t then t[slot := t[slot].(response := Some(Stored(r)))] else t
  }

  function PurgeExpired(t: Table, now: real): Table {
    map slot | slot in t && now < t[slot].expiresAt :: t[slot]
  }

  class KeyTable {
    var rows: Table

    constructor ()
      ensures rows == map[]
    {
      rows := map[];
    }

    /** The two statements of ClaimIdempotency, at instants `t1` and `t2`. */
    method ClaimIdempotency(slot: Slot, hash: string, t1: real, t2: real) returns (first: bool)
      modifies this
      ensures rows == InsertIfAbsent(PurgeSlot(old(rows), slot, t1), slot, hash, t2)
      ensures first <==> slot !in old(rows) || old(rows)[slot].expiresAt <= t1
      ensures first ==> slot in rows && rows[slot] == Row(hash, None, t2 + 24.0)
      ensures !first ==> rows == old(rows)
    {
      if slot in rows && rows[slot].expiresAt <= t1 {
        rows := rows - {slot};
      }
      first := slot !in rows;
      if first {
        rows := rows[slot := Row(hash, None, t2 + TTL)];
      }
    }

    method LoadIdempotentResponse(slot: Slot, hash: string) returns (reply: Reply)
      ensures reply == LoadReply(rows, slot, hash)
      ensures reply == LookupFailed <==> slot !in rows
      ensures reply == Conflict <==> slot in rows && rows[slot].hash != hash
      ensures reply == InFlight <==> slot in rows && rows[slot].hash == hash && rows[slot].response.None?
      ensures reply.Replayed? <==> slot in rows && rows[slot].hash == hash && rows[slot].response.Some?
      ensures reply.Replayed? ==> rows[slot].response == Some(reply.response)
    {
      if slot !in rows {
        return LookupFailed;
      }
      var row := rows[slot];
      if row.hash != hash {
        return Conflict;
      }
      match row.response
      case None => return InFlight;
      case Some(r) => return Replayed(r);
    }

    method CompleteIdempotency(slot: Slot, r: Response)
      modifies this
      ensures rows == Record(old(rows), slot, r)
      ensures rows.Keys == old(rows).Keys && forall s :: s in rows && s != slot ==> rows[s] == old(rows)[s]
      ensures slot in rows ==>
                rows[slot].hash == old(rows)[slot].hash && rows[slot].expiresAt == old(rows)[slot].expiresAt &&
                rows[slot].response.Some? && Repeats(rows[slot].response.value, r)
    {
      var body := r.body;
      if |body| == 0 {
        body := "{}";
      }
      if slot in rows {
        rows := rows[slot := rows[slot].(response := Some(Response(r.status, body)))];
      }
    }

    method CleanupExpiredIdempotency(now: real) returns (purged: nat)
      modifies this
      ensures rows == PurgeExpired(old(rows), now)
      ensures forall s :: s in rows <==> s in old(rows) && now < old(rows)[s].expiresAt
      ensures forall s :: s in rows ==> rows[s] == old(rows)[s]
      ensures purged + |rows| == |old(rows)|
    {
      var expired := set slot | slot in rows && rows[slot].expiresAt <= now;
      purged := |expired|;
      ghost var before := rows;
      rows := rows - expired;
      assert rows.Keys == before.Keys - expired;
      assert |before.Keys - expired| + |expired| == |before.Keys| by {
        assert (before.Keys - expired) + expired == before.Keys;
        assert (before.Keys - expired) !! expired;
      }
    }

    /**
     `idem` past its request checks, with no other request in between: claim at
     `now`, then either replay or run the handler (whose outcome is `outcome`)
     and record it.
     */
    method Serve(slot: Slot, hash: string, outcome: Response, now: real) returns (reply: Reply)
      modifies this
      ensures reply.Fresh? <==> slot !in old(rows) || old(rows)[slot].expiresAt <= now
      ensures reply.Fresh? ==>
              reply.response == outcome && slot in rows && rows[slot].response.Some? &&
              Repeats(rows[slot].response.value, outcome) &&
              rows[slot] == Row(hash, rows[slot].response, now + 24.0)
      ensures !reply.Fresh? ==> reply == LoadReply(old(rows), slot, hash) && rows == old(rows)
      ensures forall s :: s in old(rows) && s != slot ==> s in rows && rows[s] == old(rows)[s]
    {
      var first := ClaimIdempotency(slot, hash, now, now);
      if !first {
        reply := LoadIdempotentResponse(slot, hash);
      } else {
        CompleteIdempotency(slot, outcome);
        reply := Fresh(outcome);
      }
    }
  }

  /** Two uninterrupted requests with one key and one payload inside the TTL: the second replays the first. */
  method ServeTwice(table: KeyTable, slot: Slot, hash: string, o1: Response, o2: Response, now: real, later: real)
    returns (r1: Reply, r2: Reply)
    requires slot !in table.rows
    requires now <= later < now + 24.0
    modifies table
    ensures r1 == Fresh(o1) && r2.Replayed? && r2.response.status == o1.status
    ensures r2.response.body == if o1.body == "" then "{}" else o1.body
  {
    r1 := table.Serve(slot, hash, o1, now);
    r2 := table.Serve(slot, hash, o2, later);
  }

  // ---------------------------------------------------------------------
  // captureRW
  // ---------------------------------------------------------------------

  datatype HandlerCall = WriteHeader(code: int) | Write(bytes: string)

  /** The status captureRW records: the first WriteHeader code, else 200. */
  function CapturedStatus(calls: seq<HandlerCall>): int {
    if calls == [] then 200
    else if calls[0].WriteHeader? then calls[0].code
    else CapturedStatus(calls[1..])
  }

  function CapturedBody(calls: seq<HandlerCall>): string {
    if calls == [] then ""
    else (if calls[0].Write? then calls[0].bytes else "") + CapturedBody(calls[1..])
  }

  /** net/http sends these ahead of the real header and keeps waiting for it. */
  predicate Informational(code: int) {
    100 <= code <= 199 && code != 101
  }

  /** The status the wrapped http.ResponseWriter sends: a Write implies 200. */
  function WireStatus(calls: seq<HandlerCall>): int {
    if calls == [] || calls[0].Write? then 200
    else if Informational(calls[0].code) then WireStatus(calls[1..])
    else calls[0].code
  }

  class CaptureWriter {
    var status: int
    var wroteHeader: bool
    var buf: string

    constructor ()
      ensures status == 200 && !wroteHeader && buf == ""
    {
      status, wroteHeader, buf := 200, false, "";
    }

    method WriteHeader(code: int)
      modifies this
      ensures wroteHeader && buf == old(buf)
      ensures status == if old(wroteHeader) then old(status) else code
    {
      if !wroteHeader {
        status := code;
        wroteHeader := true;
      }
    }

    method Write(b: string)
      modifies this
      ensures buf == old(buf) + b
      ensures status == old(status) && wroteHeader == old(wroteHeader)
    {
      buf := buf + b;
    }
  }

  lemma FirstCallBody(c: HandlerCall, rest: seq<HandlerCall>)
    ensures CapturedBody([c] + rest) == (if c.Write? then c.bytes else "") + CapturedBody(rest)
  {
    assert ([c] + rest)[1..] == rest;
  }

  /** The recorded body is everything written, in order: what one more call adds is what it writes. */
  lemma {:induction false} BodyIsConcatenated(calls: seq<HandlerCall>, c: HandlerCall)
    ensures CapturedBody(calls + [c]) == CapturedBody(calls) + if c.Write? then c.bytes else ""
  {
    if calls == [] {
      assert calls + [c] == [c] + [];
      FirstCallBody(c, []);
    } else {
      var rest := calls[1..];
      BodyIsConcatenated(rest, c);
      assert calls + [c] == [calls[0]] + (rest + [c]) && calls == [calls[0]] + rest;
      FirstCallBody(calls[0], rest + [c]);
      FirstCallBody(calls[0], rest);
    }
  }

  lemma CapturedFrom(calls: seq<HandlerCall>, i: nat)
    requires i < |calls|
    ensures CapturedStatus(calls[i..]) ==
              if calls[i].WriteHeader? then calls[i].code else CapturedStatus(calls[i + 1..])
    ensures CapturedBody(calls[i..]) == (if calls[i].Write? then calls[i].bytes else "") + CapturedBody(calls[i + 1..])
  {
  }

  /** A handler's whole conversation with a fresh recorder. */
  method Capture(calls: seq<HandlerCall>) returns (r: Response)
    ensures r == Response(CapturedStatus(calls), CapturedBody(calls))
  {
    var cw := new CaptureWriter();
    var i := 0;
    while i < |calls|
      invariant 0 <= i <= |calls|
      invariant cw.buf + CapturedBody(calls[i..]) == CapturedBody(calls)
      invariant (if cw.wroteHeader then cw.status else CapturedStatus(calls[i..])) == CapturedStatus(calls)
      invariant !cw.wroteHeader ==> cw.status == 200
    {
      CapturedFrom(calls, i);
      match calls[i] {
        case WriteHeader(code) => cw.WriteHeader(code);
        case Write(b) => cw.Write(b);
      }
      i := i + 1;
    }
    r := Response(cw.status, cw.buf);
  }

  /** The position of the first WriteHeader, or the number of calls if there is none. */
  function FirstHeader(calls: seq<HandlerCall>): (i: nat)
    ensures i <= |calls| && (i < |calls| ==> calls[i].WriteHeader?)
  {
    if calls == [] || calls[0].WriteHeader? then 0 else 1 + FirstHeader(calls[1..])
  }

  /** The first WriteHeader, if there is one, carries 200, or it opens the list with a final code. */
  predicate HeadsFirst(calls: seq<HandlerCall>) {
    var i := FirstHeader(calls);
    i == |calls| || calls[i].code == 200 || (i == 0 && !(100 <= calls[0].code <= 199 && calls[0].code != 101))
  }

  lemma {:induction false} CapturedIsFirstHeader(calls: seq<HandlerCall>)
    ensures var i := FirstHeader(calls); CapturedStatus(calls) == if i == |calls| then 200 else calls[i].code
  {
    if calls != [] && calls[0].Write? {
      CapturedIsFirstHeader(calls[1..]);
    }
  }

  /**
   The recorded status is the one the first caller was sent exactly when the
   first header the handler sets, if any, is 200 or is a final code set before
   anything is written. Otherwise a replay shows another status.
   */
  lemma CapturedIsSentIff(calls: seq<HandlerCall>)
    ensures CapturedStatus(calls) == WireStatus(calls) <==> HeadsFirst(calls)
  {
    CapturedIsFirstHeader(calls);
    if calls != [] && calls[0].WriteHeader? && Informational(calls[0].code) {
      WireIsFinal(calls[1..]);
    }
  }

  /** A header after a write and an informational header: the first caller sees 200, a replay does not. */
  lemma RecordedIsNotSent()
    ensures var calls := [Write("x"), WriteHeader(500)]; CapturedStatus(calls) == 500 && WireStatus(calls) == 200
    ensures var calls := [WriteHeader(103), WriteHeader(200)]; CapturedStatus(calls) == 103 && WireStatus(calls) == 200
  {
    CapturedFrom([Write("x"), WriteHeader(500)], 0);
    assert [WriteHeader(103), WriteHeader(200)][1..] == [WriteHeader(200)];
  }

  lemma {:induction false} WireIsFinal(calls: seq<HandlerCall>)
    ensures !Informational(WireStatus(calls))
  {
    if calls != [] && calls[0].WriteHeader? {
      WireIsFinal(calls[1..]);
    }
  }

  // ---------------------------------------------------------------------
  // The checks idem makes before it touches the table
  // ---------------------------------------------------------------------

  /** `path` is decoded and stops before the query. */
  datatype HttpRequest = HttpRequest(
    verb: string, path: string, query: string, key: string,
    org: Option<string>,   // None: no identity on the request
    body: Option<string>)  // None: the body cannot be read

  datatype Gate = Bypass | Unauthorized | UnreadableBody | Guarded(slot: Slot, hash: string)

  predicate Mutating(verb: string) {
    verb != "GET" && verb != "HEAD" && verb != "OPTIONS"
  }

  /** `digest` stands for hex(sha256(..)). */
  function Classify(req: HttpRequest, digest: string -> string): (gate: Gate)
    ensures gate.Bypass? <==> req.verb in {"GET", "HEAD", "OPTIONS"} || req.key == ""
    ensures gate.Unauthorized? <==> !gate.Bypass? && req.org.None?
    ensures gate.Guarded? <==> !gate.Bypass? && req.org.Some? && req.body.Some?
    ensures gate.Guarded? ==> gate.slot == Slot(req.key, req.org.value)
  {
    if !Mutating(req.verb) || req.key == "" then Bypass
    else if req.org.None? then Unauthorized
    else if req.body.None? then UnreadableBody
    else Guarded(Slot(req.key, req.org.value), digest(req.verb + req.path + req.body.value))
  }

  ghost predicate CollisionFree(digest: string -> string) {
    forall x: string, y: string :: digest(x) == digest(y) ==> x == y
  }

  function BodyOf(req: HttpRequest): string {
    if req.body.Some? then req.body.value else ""
  }

  /** A method is a token (section 5.6.2 of RFC 9110), so it has no slash; a routed path starts with one. */
  predicate Routable(req: HttpRequest) {
    '/' !in req.verb && req.path != "" && req.path[0] == '/'
  }

  /** The slash that opens the path ends the method. */
  lemma MethodIsTold(v: string, x: string, w: string, y: string)
    requires '/' !in v && '/' !in w && x != "" && y != "" && x[0] == '/' && y[0] == '/'
    requires v + x == w + y
    ensures v == w && x == y
  {
    var all := v + x;
    assert all == w + y;
    assert forall k :: 0 <= k < |v| ==> all[k] == v[k];
    assert forall k :: 0 <= k < |w| ==> all[k] == w[k];
    assert all[|v|] == '/' && all[|w|] == '/';
    assert |v| == |w|;
    assert v == all[..|v|] == w && x == all[|v|..] == y;
  }

  /**
   The hash runs method, path and body together. Two guarded requests share it
   exactly when the method is the same and path and body run together alike;
   that makes them the same request, up to the query, whenever their paths are
   equally long.
   */
  lemma SameHashIff(a: HttpRequest, b: HttpRequest, digest: string -> string)
    requires CollisionFree(digest) && Routable(a) && Routable(b)
    requires Classify(a, digest).Guarded? && Classify(b, digest).Guarded?
    ensures Classify(a, digest).hash == Classify(b, digest).hash <==>
            a.verb == b.verb && a.path + BodyOf(a) == b.path + BodyOf(b)
    ensures |a.path| == |b.path| ==>
              (Classify(a, digest).hash == Classify(b, digest).hash <==>
               a.verb == b.verb && a.path == b.path && BodyOf(a) == BodyOf(b))
  {
    var x, y := a.path + BodyOf(a), b.path + BodyOf(b);
    assert a.verb + a.path + BodyOf(a) == a.verb + x && b.verb + b.path + BodyOf(b) == b.verb + y;
    if a.verb + x == b.verb + y {
      MethodIsTold(a.verb, x, b.verb, y);
    }
    if |a.path| == |b.path| {
      var n := |a.path|;
      assert x[..n] == a.path && x[n..] == BodyOf(a) && y[..n] == b.path && y[n..] == BodyOf(b);
    }
  }

  /** With paths of different length, one hash can stand for two requests. */
  lemma OneHashTwoRequests(key: string, org: string, digest: string -> string)
    requires key != ""
    ensures var a := HttpRequest("PUT", "/v1/apps/a", "", key, Some(org), Some("b"));
            var b := HttpRequest("PUT", "/v1/apps/ab", "", key, Some(org), Some(""));
            Classify(a, digest).Guarded? && Classify(a, digest) == Classify(b, digest) && a != b
  {
    assert "PUT" + "/v1/apps/a" + "b" == "PUT" + "/v1/apps/ab" + "";
    assert "PUT"[0] != "GET"[0] && "PUT"[0] != "HEAD"[0] && "PUT"[0] != "OPTIONS"[0];
    assert |"/v1/apps/a"| != |"/v1/apps/ab"|;
  }
}
