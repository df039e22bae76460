/**
 The per-IP signup limiter: a fixed window stored as (window_start, count).
 Time is a `real` number of hours on one clock; each transaction is serialised
 by the row lock and takes effect at one instant.
 */
module SignupLimit {
  import opened Common

  const SIGNUPS_PER_WINDOW: int := 5
  const WINDOW_LENGTH: real := 1.0

  datatype Window = Window(start: real, count: int)

  type Rows = map<string, Window>

  predicate Admits(rows: Rows, ip: string, now: real) {
    ip !in rows || now - rows[ip].start > WINDOW_LENGTH || rows[ip].count < SIGNUPS_PER_WINDOW
  }

  function Next(rows: Rows, ip: string, now: real): Rows {
    if ip !in rows || now - rows[ip].start > WINDOW_LENGTH then rows[ip := Window(now, 1)]
    else if rows[ip].count >= SIGNUPS_PER_WINDOW then rows
    else rows[ip := Window(rows[ip].start, rows[ip].count + 1)]
  }

  class Store {
    var rows: Rows

    constructor ()
      ensures rows == map[]
    {
      rows := map[];
    }

    /** `ip` is None when it cannot be parsed; such callers are never limited. */
    method CheckSignupLimit(ip: Option<string>, now: real) returns (ok: bool)
      modifies this
      ensures ok <==> ip.None? || Admits(old(rows), ip.value, now)
      ensures ok <==>
              ip.None? || ip.value !in old(rows) || now - old(rows)[ip.value].start > 1.0 ||
              old(rows)[ip.value].count < 5
      ensures rows == if ip.None? then old(rows) else Next(old(rows), ip.value, now)
      ensures !ok || ip.None? ==> rows == old(rows)
      ensures ok && ip.Some? ==>
                rows == old(rows)[ip.value :=
                  if ip.value !in old(rows) || now - old(rows)[ip.value].start > 1.0 then Window(now, 1)
                  else Window(old(rows)[ip.value].start, old(rows)[ip.value].count + 1)]
    {
      if ip.None? {
        return true;
      }
      var addr := ip.value;
      if addr !in rows {
        rows := rows[addr := Window(now, 1)];
      } else if now - rows[addr].start > WINDOW_LENGTH {
        rows := rows[addr := Window(now, 1)];
      } else {
        if rows[addr].count >= SIGNUPS_PER_WINDOW {
          return false;
        }
        rows := rows[addr := rows[addr].(count := rows[addr].count + 1)];
      }
      return true;
    }
  }

  // ---------------------------------------------------------------------
  // Whole runs
  // ---------------------------------------------------------------------

  datatype Call = Call(ip: string, at: real)

  predicate Ordered(calls: seq<Call>) {
    forall i, j :: 0 <= i <= j < |calls| ==> calls[i].at <= calls[j].at
  }

  function RowsAfter(calls: seq<Call>): Rows {
    if calls == [] then map[]
    else
      var c := calls[|calls| - 1];
      Next(RowsAfter(calls[..|calls| - 1]), c.ip, c.at)
  }

  /** An admitted signup and the start of the window it was counted in. */
  datatype Admission = Admission(at: real, window: real)

  function AdmissionsOf(calls: seq<Call>, ip: string): seq<Admission> {
    if calls == [] then []
    else
      var front, c := calls[..|calls| - 1], calls[|calls| - 1];
      if c.ip == ip && Admits(RowsAfter(front), ip, c.at)
      then AdmissionsOf(front, ip) + [Admission(c.at, RowsAfter(calls)[ip].start)]
      else AdmissionsOf(front, ip)
  }

  function InWindow(log: seq<Admission>, start: real): nat {
    if log == [] then 0
    else InWindow(log[..|log| - 1], start) + if log[|log| - 1].window == start then 1 else 0
  }

  function InSpan(log: seq<Admission>, a: real, b: real): nat {
    if log == [] then 0
    else InSpan(log[..|log| - 1], a, b) + if a <= log[|log| - 1].at <= b then 1 else 0
  }

  function RowOf(rows: Rows, ip: string): Option<Window> {
    if ip in rows then Some(rows[ip]) else None
  }

  predicate Expired(row: Option<Window>, now: real) {
    row.None? || now - row.value.start > WINDOW_LENGTH
  }

  /** One IP's side of a run: its admissions and its row. */
  datatype Track = Track(log: seq<Admission>, row: Option<Window>)

  function TrackOf(calls: seq<Call>, ip: string): Track {
    Track(AdmissionsOf(calls, ip), RowOf(RowsAfter(calls), ip))
  }

  function Opened(t: Track, at: real): Track {
    Track(t.log + [Admission(at, at)], Some(Window(at, 1)))
  }

  function Counted(t: Track, at: real): Track
    requires t.row.Some?
  {
    var w := t.row.value;
    Track(t.log + [Admission(at, w.start)], Some(Window(w.start, w.count + 1)))
  }

  function TrackNext(t: Track, at: real): Track {
    if Expired(t.row, at) then Opened(t, at)
    else if t.row.value.count < SIGNUPS_PER_WINDOW then Counted(t, at)
    else t
  }

  // What the last call of a run does to the track of `ip`, branch by branch.

  lemma OtherIp(calls: seq<Call>, c: Call, ip: string)
    requires c.ip != ip
    ensures TrackOf(calls + [c], ip) == TrackOf(calls, ip)
  {
    assert (calls + [c])[..|calls|] == calls;
  }

  lemma OpeningCall(calls: seq<Call>, c: Call)
    requires Expired(RowOf(RowsAfter(calls), c.ip), c.at)
    ensures TrackOf(calls + [c], c.ip) == Opened(TrackOf(calls, c.ip), c.at)
  {
    assert (calls + [c])[..|calls|] == calls;
  }

  lemma CountedCall(calls: seq<Call>, c: Call)
    requires !Expired(RowOf(RowsAfter(calls), c.ip), c.at) && RowsAfter(calls)[c.ip].count < SIGNUPS_PER_WINDOW
    ensures TrackOf(calls + [c], c.ip) == Counted(TrackOf(calls, c.ip), c.at)
  {
    assert (calls + [c])[..|calls|] == calls;
  }

  lemma RefusedCall(calls: seq<Call>, c: Call)
    requires !Admits(RowsAfter(calls), c.ip, c.at)
    ensures RowsAfter(calls + [c]) == RowsAfter(calls)
    ensures TrackOf(calls + [c], c.ip) == TrackOf(calls, c.ip)
  {
    assert (calls + [c])[..|calls|] == calls;
  }

  lemma LastCall(calls: seq<Call>, c: Call, ip: string)
    ensures TrackOf(calls + [c], ip) == if c.ip == ip then TrackNext(TrackOf(calls, ip), c.at) else TrackOf(calls, ip)
  {
    var row := RowOf(RowsAfter(calls), ip);
    if c.ip != ip {
      OtherIp(calls, c, ip);
    } else if Expired(row, c.at) {
      OpeningCall(calls, c);
    } else if row.value.count < SIGNUPS_PER_WINDOW {
      CountedCall(calls, c);
    } else {
      RefusedCall(calls, c);
    }
  }

  lemma SplitLast(calls: seq<Call>)
    requires calls != []
    ensures calls == calls[..|calls| - 1] + [calls[|calls| - 1]]
  {
  }

  // ---------------------------------------------------------------------
  // Other IPs and refusals
  // ---------------------------------------------------------------------

  /** The calls of one IP. */
  function OnlyIp(calls: seq<Call>, ip: string): seq<Call> {
    if calls == [] then []
    else
      var front, c := OnlyIp(calls[..|calls| - 1], ip), calls[|calls| - 1];
      if c.ip == ip then front + [c] else front
  }

  /** Whatever other IPs do, an IP gets the admissions and the row of a limiter that sees only its calls. */
  lemma {:induction false} IpsAreIsolated(calls: seq<Call>, ip: string)
    ensures TrackOf(calls, ip) == TrackOf(OnlyIp(calls, ip), ip)
  {
    if calls != [] {
      var front, c := calls[..|calls| - 1], calls[|calls| - 1];
      SplitLast(calls);
      IpsAreIsolated(front, ip);
      LastCall(front, c, ip);
      LastCall(OnlyIp(front, ip), c, ip);
    }
  }

  lemma SameRowsSameCall(with: seq<Call>, without: seq<Call>, d: Call, ip: string)
    requires RowsAfter(with) == RowsAfter(without) && AdmissionsOf(with, ip) == AdmissionsOf(without, ip)
    ensures RowsAfter(with + [d]) == RowsAfter(without + [d])
    ensures AdmissionsOf(with + [d], ip) == AdmissionsOf(without + [d], ip)
  {
    assert (with + [d])[..|with|] == with && (without + [d])[..|without|] == without;
    LastCall(with, d, ip);
    LastCall(without, d, ip);
  }

  /** Deleting a refused call anywhere leaves the whole table, and so every later answer, as it was. */
  lemma {:induction false} RefusalsLeaveNoTrace(before: seq<Call>, c: Call, after: seq<Call>, ip: string, now: real)
    requires !Admits(RowsAfter(before), c.ip, c.at)
    ensures RowsAfter(before + [c] + after) == RowsAfter(before + after)
    ensures Admits(RowsAfter(before + [c] + after), ip, now) <==> Admits(RowsAfter(before + after), ip, now)
    ensures AdmissionsOf(before + [c] + after, ip) == AdmissionsOf(before + after, ip)
  {
    if after == [] {
      assert before + [c] + after == before + [c] && before + after == before;
      RefusedCall(before, c);
      LastCall(before, c, ip);
    } else {
      var rest, d := after[..|after| - 1], after[|after| - 1];
      var with, without := before + [c] + rest, before + rest;
      RefusalsLeaveNoTrace(before, c, rest, ip, now);
      assert before + [c] + after == with + [d] && before + after == without + [d];
      SameRowsSameCall(with, without, d, ip);
    }
  }

  // ---------------------------------------------------------------------
  // The shape of an IP's log
  // ---------------------------------------------------------------------

  ghost predicate LogShape(log: seq<Admission>) {
    (forall i :: 0 <= i < |log| ==> log[i].window <= log[i].at <= log[i].window + WINDOW_LENGTH) &&
    (forall i, j :: 0 <= i < j < |log| ==>
       log[i].at <= log[j].at &&
       (log[i].window == log[j].window || log[i].window + WINDOW_LENGTH < log[j].window))
  }

  /** The row describes the last window of the log. */
  ghost predicate Matches(t: Track, now: real) {
    (t.row.None? <==> t.log == []) &&
    (t.log != [] ==>
       var last, w := t.log[|t.log| - 1], t.row.value;
       last.window == w.start && w.count == InWindow(t.log, w.start) && 1 <= w.count <= SIGNUPS_PER_WINDOW &&
       last.at <= now)
  }

  ghost predicate Shape(t: Track, now: real) {
    Matches(t, now) && LogShape(t.log)
  }

  lemma {:induction false} AbsentWindow(log: seq<Admission>, start: real)
    requires forall i :: 0 <= i < |log| ==> log[i].window != start
    ensures InWindow(log, start) == 0
  {
    if log != [] {
      AbsentWindow(log[..|log| - 1], start);
    }
  }

  lemma OpenKeepsShape(t: Track, now: real, at: real)
    requires Shape(t, now) && now <= at && Expired(t.row, at)
    ensures Shape(Opened(t, at), at)
  {
    var log := t.log;
    assert (log + [Admission(at, at)])[..|log|] == log;
    forall i | 0 <= i < |log| ensures log[i].at <= at && log[i].window + WINDOW_LENGTH < at {
      assert log[i].at <= log[|log| - 1].at || i == |log| - 1;
      assert log[i].window <= log[|log| - 1].window;
    }
    AbsentWindow(log, at);
  }

  lemma CountKeepsShape(t: Track, now: real, at: real)
    requires Shape(t, now) && now <= at && !Expired(t.row, at) && t.row.value.count < SIGNUPS_PER_WINDOW
    ensures Shape(Counted(t, at), at)
  {
    var log, start := t.log, t.row.value.start;
    assert (log + [Admission(at, start)])[..|log|] == log;
    forall i | 0 <= i < |log|
      ensures log[i].at <= at && (log[i].window == start || log[i].window + WINDOW_LENGTH < start)
    {
      assert log[i].at <= log[|log| - 1].at || i == |log| - 1;
    }
  }

  lemma StepKeepsShape(t: Track, now: real, at: real)
    requires Shape(t, now) && now <= at
    ensures Shape(TrackNext(t, at), at)
  {
    if Expired(t.row, at) {
      OpenKeepsShape(t, now, at);
    } else if t.row.value.count < SIGNUPS_PER_WINDOW {
      CountKeepsShape(t, now, at);
    }
  }

  lemma ShapeLater(t: Track, now: real, later: real)
    requires Shape(t, now) && now <= later
    ensures Shape(t, later)
  {
  }

  lemma OrderedFront(calls: seq<Call>)
    requires Ordered(calls) && calls != []
    ensures var front := calls[..|calls| - 1];
            Ordered(front) && (front != [] ==> front[|front| - 1].at <= calls[|calls| - 1].at)
  {
  }

  lemma {:induction false} RunShape(calls: seq<Call>, ip: string, now: real)
    requires Ordered(calls) && (calls != [] ==> calls[|calls| - 1].at <= now)
    ensures Shape(TrackOf(calls, ip), now)
  {
    if calls != [] {
      var front, c := calls[..|calls| - 1], calls[|calls| - 1];
      var t := TrackOf(front, ip);
      SplitLast(calls);
      OrderedFront(calls);
      RunShape(front, ip, c.at);
      LastCall(front, c, ip);
      if c.ip == ip {
        StepKeepsShape(t, c.at, c.at);
      }
      ShapeLater(TrackOf(calls, ip), c.at, now);
    }
  }

  function LastAt(calls: seq<Call>): real {
    if calls == [] then 0.0 else calls[|calls| - 1].at
  }

  /** Window starts of one IP are more than an hour apart. */
  lemma WindowsAreApart(calls: seq<Call>, ip: string, i: nat, j: nat)
    requires Ordered(calls) && i < j < |AdmissionsOf(calls, ip)|
    requires AdmissionsOf(calls, ip)[i].window != AdmissionsOf(calls, ip)[j].window
    ensures AdmissionsOf(calls, ip)[j].window - AdmissionsOf(calls, ip)[i].window > WINDOW_LENGTH
  {
    RunShape(calls, ip, LastAt(calls));
  }

  lemma WindowSnoc(log: seq<Admission>, x: Admission, start: real)
    ensures InWindow(log + [x], start) == InWindow(log, start) + if x.window == start then 1 else 0
  {
    assert (log + [x])[..|log|] == log;
  }

  lemma SpanSnoc(log: seq<Admission>, x: Admission, a: real, b: real)
    ensures InSpan(log + [x], a, b) == InSpan(log, a, b) + if a <= x.at <= b then 1 else 0
  {
    assert (log + [x])[..|log|] == log;
  }

  /** One call adds to a window only while the window's row allows it. */
  lemma StepKeepsFive(t: Track, now: real, at: real, start: real)
    requires Shape(t, now) && now <= at && InWindow(t.log, start) <= SIGNUPS_PER_WINDOW
    ensures InWindow(TrackNext(t, at).log, start) <= SIGNUPS_PER_WINDOW
  {
    StepKeepsShape(t, now, at);
    var x := Admission(at, if Expired(t.row, at) then at else t.row.value.start);
    WindowSnoc(t.log, x, start);
  }

  /** Each window admits at most five signups. */
  lemma {:induction false} FivePerWindow(calls: seq<Call>, ip: string, start: real)
    requires Ordered(calls)
    ensures InWindow(AdmissionsOf(calls, ip), start) <= SIGNUPS_PER_WINDOW
  {
    if calls != [] {
      var front, c := calls[..|calls| - 1], calls[|calls| - 1];
      SplitLast(calls);
      FivePerWindow(front, ip, start);
      RunShape(front, ip, c.at);
      LastCall(front, c, ip);
      StepKeepsFive(TrackOf(front, ip), c.at, c.at, start);
    }
  }

  lemma {:induction false} EarlyLog(log: seq<Admission>, a: real, b: real)
    requires forall i :: 0 <= i < |log| ==> log[i].at < a
    ensures InSpan(log, a, b) == 0
  {
    if log != [] {
      EarlyLog(log[..|log| - 1], a, b);
    }
  }

  /**
   A window's first signup is at its start. So admissions in [a, b] are all in
   the current window, less that first one, while it began before a; otherwise
   they are in it and at most four of one earlier window.
   */
  ghost predicate SpanInv(t: Track, a: real, b: real) {
    var n := InSpan(t.log, a, b);
    if t.row.None? then n == 0
    else if t.row.value.start < a then n <= t.row.value.count - 1
    else if t.row.value.start <= b then n <= SIGNUPS_PER_WINDOW - 1 + t.row.value.count
    else n <= 2 * SIGNUPS_PER_WINDOW - 1
  }

  lemma OpenKeepsSpan(t: Track, now: real, at: real, a: real, b: real)
    requires Shape(t, now) && now <= at && Expired(t.row, at)
    requires a <= b <= a + WINDOW_LENGTH && SpanInv(t, a, b)
    ensures SpanInv(Opened(t, at), a, b)
  {
    var log := t.log;
    SpanSnoc(log, Admission(at, at), a, b);
    if at < a {
      forall i | 0 <= i < |log| ensures log[i].at < a {
        assert log[i].at <= log[|log| - 1].at || i == |log| - 1;
      }
      EarlyLog(log, a, b);
    }
  }

  lemma CountKeepsSpan(t: Track, now: real, at: real, a: real, b: real)
    requires Shape(t, now) && now <= at && !Expired(t.row, at) && t.row.value.count < SIGNUPS_PER_WINDOW
    requires a <= b <= a + WINDOW_LENGTH && SpanInv(t, a, b)
    ensures SpanInv(Counted(t, at), a, b)
  {
    SpanSnoc(t.log, Admission(at, t.row.value.start), a, b);
    assert t.log[|t.log| - 1].window <= t.log[|t.log| - 1].at;
  }

  lemma {:induction false} SpanHolds(calls: seq<Call>, ip: string, a: real, b: real)
    requires Ordered(calls) && a <= b <= a + WINDOW_LENGTH
    ensures SpanInv(TrackOf(calls, ip), a, b)
  {
    if calls != [] {
      var front, c := calls[..|calls| - 1], calls[|calls| - 1];
      var t := TrackOf(front, ip);
      SplitLast(calls);
      RunShape(front, ip, c.at);
      SpanHolds(front, ip, a, b);
      LastCall(front, c, ip);
      if Expired(t.row, c.at) {
        OpenKeepsSpan(t, c.at, c.at, a, b);
      } else if t.row.value.count < SIGNUPS_PER_WINDOW {
        CountKeepsSpan(t, c.at, c.at, a, b);
      }
    }
  }

  function InHour(log: seq<Admission>, a: real): nat {
    InSpan(log, a, a + 1.0)
  }

  /** Any span of one hour holds at most nine admitted signups of an IP. */
  lemma NinePerHour(calls: seq<Call>, ip: string, a: real)
    requires Ordered(calls)
    ensures InHour(AdmissionsOf(calls, ip), a) <= 2 * SIGNUPS_PER_WINDOW - 1
  {
    SpanHolds(calls, ip, a, a + WINDOW_LENGTH);
    RunShape(calls, ip, LastAt(calls));
  }

  lemma {:induction false} WindowWithinSpan(log: seq<Admission>, start: real, a: real, b: real)
    requires forall i :: 0 <= i < |log| && log[i].window == start ==> a <= log[i].at <= b
    ensures InWindow(log, start) <= InSpan(log, a, b)
  {
    if log != [] {
      WindowWithinSpan(log[..|log| - 1], start, a, b);
    }
  }

  lemma FullWindowWithinTheHour(t: Track, now: real)
    requires Shape(t, now) && !Expired(t.row, now)
    ensures InSpan(t.log, now - WINDOW_LENGTH, now) >= t.row.value.count
  {
    var log, start := t.log, t.row.value.start;
    forall i | 0 <= i < |log| && log[i].window == start ensures now - WINDOW_LENGTH <= log[i].at <= now {
      assert log[i].at <= log[|log| - 1].at || i == |log| - 1;
    }
    WindowWithinSpan(log, start, now - WINDOW_LENGTH, now);
  }

  /** A refusal is earned: the IP has five admitted signups within the hour before it. */
  lemma RefusedAfterFive(calls: seq<Call>, ip: string, now: real)
    requires Ordered(calls) && (calls != [] ==> calls[|calls| - 1].at <= now)
    requires !Admits(RowsAfter(calls), ip, now)
    ensures InSpan(AdmissionsOf(calls, ip), now - WINDOW_LENGTH, now) >= SIGNUPS_PER_WINDOW
  {
    RunShape(calls, ip, now);
    FullWindowWithinTheHour(TrackOf(calls, ip), now);
  }

  // ---------------------------------------------------------------------
  // Not a rolling limit
  // ---------------------------------------------------------------------

  function BurstTime(i: nat): real {
    if i == 0 then 0.0 else if i < 5 then 1.0 else 1.5
  }

  /** Nine is attained: one signup, four more an hour later, five as soon as the window has passed. */
  function Burst(ip: string, n: nat): seq<Call> {
    if n == 0 then [] else Burst(ip, n - 1) + [Call(ip, BurstTime(n - 1))]
  }

  lemma {:induction false} BurstOrdered(ip: string, n: nat)
    ensures |Burst(ip, n)| == n && Ordered(Burst(ip, n))
    ensures forall i :: 0 <= i < n ==> Burst(ip, n)[i].at == BurstTime(i)
  {
    if n > 0 {
      BurstOrdered(ip, n - 1);
    }
  }

  function BurstRow(n: nat): Option<Window> {
    if n == 0 then None else if n <= 5 then Some(Window(0.0, n)) else Some(Window(1.5, n - 5))
  }

  /** The track after n calls of the burst, as far as the hour from 1.0 is concerned. */
  predicate BurstTrack(t: Track, n: nat) {
    t.row == BurstRow(n) && InHour(t.log, 1.0) == if n == 0 then 0 else n - 1
  }

  lemma BurstStep(t: Track, n: nat)
    requires n < 10 && BurstTrack(t, n)
    ensures BurstTrack(TrackNext(t, BurstTime(n)), n + 1)
  {
    var at := BurstTime(n);
    if n == 0 || n == 5 {
      assert TrackNext(t, at) == Opened(t, at);
      SpanSnoc(t.log, Admission(at, at), 1.0, 2.0);
    } else {
      assert TrackNext(t, at) == Counted(t, at);
      SpanSnoc(t.log, Admission(at, t.row.value.start), 1.0, 2.0);
    }
  }

  lemma {:induction false} BurstAdmits(ip: string, n: nat)
    requires n <= 10
    ensures BurstTrack(TrackOf(Burst(ip, n), ip), n)
  {
    if n > 0 {
      BurstAdmits(ip, n - 1);
      LastCall(Burst(ip, n - 1), Call(ip, BurstTime(n - 1)), ip);
      BurstStep(TrackOf(Burst(ip, n - 1), ip), n - 1);
    }
  }

  /** Nine signups of one IP in one hour: the limit is not five per rolling hour. */
  lemma NineInOneHour(ip: string)
    ensures Ordered(Burst(ip, 10)) && InHour(AdmissionsOf(Burst(ip, 10), ip), 1.0) == 9
  {
    BurstOrdered(ip, 10);
    BurstAdmits(ip, 10);
  }

  ghost predicate RollingFive(log: seq<Admission>) {
    forall a: real :: InHour(log, a) <= SIGNUPS_PER_WINDOW
  }

  /** No signup yet, or the last one is more than an hour old. */
  predicate Quiet(log: seq<Admission>, at: real) {
    log == [] || log[|log| - 1].at + WINDOW_LENGTH < at
  }

  lemma {:induction false} SpanWithinWindow(log: seq<Admission>, start: real, a: real, b: real)
    requires forall i :: 0 <= i < |log| && a <= log[i].at <= b ==> log[i].window == start
    ensures InSpan(log, a, b) <= InWindow(log, start)
  {
    if log != [] {
      SpanWithinWindow(log[..|log| - 1], start, a, b);
    }
  }

  lemma {:induction false} SpanOfPrefix(log: seq<Admission>, n: nat, a: real, b: real)
    requires n <= |log| && forall i :: n <= i < |log| ==> !(a <= log[i].at <= b)
    ensures InSpan(log, a, b) == InSpan(log[..n], a, b)
  {
    if n < |log| {
      SpanOfPrefix(log[..|log| - 1], n, a, b);
      assert log[..|log| - 1][..n] == log[..n];
    } else {
      assert log[..n] == log;
    }
  }

  // A window opened at `at`, and calls of any IPs that follow inside it.

  ghost predicate Follows(calls: seq<Call>, ip: string, at: real, more: seq<Call>) {
    Ordered(calls + [Call(ip, at)] + more) &&
    forall k :: 0 <= k < |more| ==> more[k].at <= at + WINDOW_LENGTH
  }

  lemma FollowsPrefix(calls: seq<Call>, ip: string, at: real, more: seq<Call>)
    requires more != [] && Follows(calls, ip, at, more)
    ensures Follows(calls, ip, at, more[..|more| - 1])
    ensures at <= more[|more| - 1].at
  {
    var all := calls + [Call(ip, at)] + more;
    assert calls + [Call(ip, at)] + more[..|more| - 1] == all[..|all| - 1];
    assert all[|calls|] == Call(ip, at) && all[|all| - 1] == more[|more| - 1];
  }

  /** Inside the window the log only grows, by admissions of that window. */
  lemma {:induction false} WindowLog(calls: seq<Call>, ip: string, at: real, more: seq<Call>)
    requires Expired(RowOf(RowsAfter(calls), ip), at) && Follows(calls, ip, at, more)
    ensures var earlier, t := AdmissionsOf(calls, ip), TrackOf(calls + [Call(ip, at)] + more, ip);
            t.row.Some? && t.row.value.start == at && earlier <= t.log &&
            forall k :: |earlier| <= k < |t.log| ==> t.log[k].window == at
  {
    if more == [] {
      assert calls + [Call(ip, at)] + more == calls + [Call(ip, at)];
      OpeningCall(calls, Call(ip, at));
    } else {
      var rest, c := more[..|more| - 1], more[|more| - 1];
      FollowsPrefix(calls, ip, at, more);
      WindowLog(calls, ip, at, rest);
      assert calls + [Call(ip, at)] + more == (calls + [Call(ip, at)] + rest) + [c];
      LastCall(calls + [Call(ip, at)] + rest, c, ip);
    }
  }

  /** After a quiet reopening an hour that touches the new window touches no older one. */
  lemma QuietSpan(earlier: seq<Admission>, log: seq<Admission>, at: real, a: real, i: nat)
    requires LogShape(log) && earlier <= log && Quiet(earlier, at)
    requires forall k :: |earlier| <= k < |log| ==> log[k].window == at
    requires |earlier| <= i < |log| && a <= log[i].at <= a + WINDOW_LENGTH
    ensures InHour(log, a) <= InWindow(log, at)
  {
    var n := |earlier|;
    assert log[i].window <= log[i].at;
    forall k | 0 <= k < n ensures log[k].at < a {
      assert log[k].at <= log[n - 1].at || k == n - 1;
      assert earlier[n - 1] == log[n - 1];
    }
    SpanWithinWindow(log, at, a, a + WINDOW_LENGTH);
  }

  lemma QuietHour(earlier: seq<Admission>, log: seq<Admission>, at: real, a: real)
    requires LogShape(log) && earlier <= log && Quiet(earlier, at)
    requires forall k :: |earlier| <= k < |log| ==> log[k].window == at
    requires InHour(earlier, a) <= SIGNUPS_PER_WINDOW && InWindow(log, at) <= SIGNUPS_PER_WINDOW
    ensures InHour(log, a) <= SIGNUPS_PER_WINDOW
  {
    if i: nat :| |earlier| <= i < |log| && a <= log[i].at <= a + WINDOW_LENGTH {
      QuietSpan(earlier, log, at, a, i);
    } else {
      SpanOfPrefix(log, |earlier|, a, a + WINDOW_LENGTH);
      assert log[..|earlier|] == earlier;
    }
  }

  lemma QuietWindowRolls(calls: seq<Call>, ip: string, at: real, more: seq<Call>, a: real)
    requires Expired(RowOf(RowsAfter(calls), ip), at) && Follows(calls, ip, at, more)
    requires Ordered(calls) && RollingFive(AdmissionsOf(calls, ip)) && Quiet(AdmissionsOf(calls, ip), at)
    ensures InHour(AdmissionsOf(calls + [Call(ip, at)] + more, ip), a) <= SIGNUPS_PER_WINDOW
  {
    var all := calls + [Call(ip, at)] + more;
    WindowLog(calls, ip, at, more);
    RunShape(all, ip, LastAt(all));
    FivePerWindow(all, ip, at);
    QuietHour(AdmissionsOf(calls, ip), AdmissionsOf(all, ip), at, a);
  }

  function Repeat(c: Call, n: nat): seq<Call> {
    seq(n, _ => c)
  }

  lemma FillFirst(t: Track, at: real, a: real)
    requires Expired(t.row, at) && a <= at <= a + WINDOW_LENGTH
    ensures var t' := TrackNext(t, at); t'.row == Some(Window(at, 1)) && InHour(t'.log, a) == InHour(t.log, a) + 1
  {
    assert TrackNext(t, at) == Opened(t, at);
    SpanSnoc(t.log, Admission(at, at), a, a + WINDOW_LENGTH);
  }

  lemma FillNext(t: Track, at: real, n: nat, a: real)
    requires 1 <= n < SIGNUPS_PER_WINDOW && t.row == Some(Window(at, n)) && a <= at <= a + WINDOW_LENGTH
    ensures var t' := TrackNext(t, at); t'.row == Some(Window(at, n + 1)) && InHour(t'.log, a) == InHour(t.log, a) + 1
  {
    assert TrackNext(t, at) == Counted(t, at);
    SpanSnoc(t.log, Admission(at, at), a, a + WINDOW_LENGTH);
  }

  /** Five calls at one instant, on an expired row, are all admitted there. */
  lemma {:induction false} FilledByCalls(calls: seq<Call>, ip: string, at: real, n: nat, a: real)
    requires Expired(RowOf(RowsAfter(calls), ip), at) && 1 <= n <= SIGNUPS_PER_WINDOW
    requires a <= at <= a + WINDOW_LENGTH
    ensures var t := TrackOf(calls + Repeat(Call(ip, at), n), ip);
            t.row == Some(Window(at, n)) && InHour(t.log, a) == InHour(AdmissionsOf(calls, ip), a) + n
  {
    var c := Call(ip, at);
    var before := calls + Repeat(c, n - 1);
    assert calls + Repeat(c, n) == before + [c];
    if n == 1 {
      assert before == calls;
    } else {
      FilledByCalls(calls, ip, at, n - 1, a);
    }
    LastCall(before, c, ip);
    if n == 1 {
      FillFirst(TrackOf(before, ip), at, a);
    } else {
      FillNext(TrackOf(before, ip), at, n - 1, a);
    }
  }

  lemma RepeatFollows(calls: seq<Call>, ip: string, at: real, n: nat)
    requires Ordered(calls + [Call(ip, at)])
    ensures Ordered(calls) && (calls != [] ==> calls[|calls| - 1].at <= at)
    ensures Follows(calls, ip, at, Repeat(Call(ip, at), n))
    ensures calls + [Call(ip, at)] + Repeat(Call(ip, at), n) == calls + Repeat(Call(ip, at), n + 1)
  {
    var first := calls + [Call(ip, at)];
    assert first[|calls|] == Call(ip, at);
    assert forall i :: 0 <= i < |calls| ==> calls[i] == first[i];
  }

  /** A reopening less than an hour after a signup: five calls at once make six in an hour. */
  lemma BusyReopeningBreaksRolling(calls: seq<Call>, ip: string, at: real)
    requires Ordered(calls + [Call(ip, at)]) && Expired(RowOf(RowsAfter(calls), ip), at)
    requires !Quiet(AdmissionsOf(calls, ip), at)
    ensures var more := Repeat(Call(ip, at), SIGNUPS_PER_WINDOW - 1);
            Follows(calls, ip, at, more) && !RollingFive(AdmissionsOf(calls + [Call(ip, at)] + more, ip))
  {
    var c := Call(ip, at);
    var more := Repeat(c, SIGNUPS_PER_WINDOW - 1);
    var log, a := AdmissionsOf(calls, ip), at - WINDOW_LENGTH;
    RepeatFollows(calls, ip, at, SIGNUPS_PER_WINDOW - 1);
    FilledByCalls(calls, ip, at, SIGNUPS_PER_WINDOW, a);
    RunShape(calls, ip, at);
    assert log == log[..|log| - 1] + [log[|log| - 1]];
    SpanSnoc(log[..|log| - 1], log[|log| - 1], a, at);
    assert InHour(AdmissionsOf(calls + [c] + more, ip), a) > SIGNUPS_PER_WINDOW;
  }

  /**
   Where a window is reopened, five per rolling hour survives every sequence of
   calls inside that window exactly when the IP has no signup yet or its last
   one is more than an hour old.
   */
  lemma ReopeningKeepsRollingIff(calls: seq<Call>, ip: string, at: real)
    requires Ordered(calls + [Call(ip, at)]) && Expired(RowOf(RowsAfter(calls), ip), at)
    requires RollingFive(AdmissionsOf(calls, ip))
    ensures (forall more :: Follows(calls, ip, at, more) ==>
               RollingFive(AdmissionsOf(calls + [Call(ip, at)] + more, ip))) <==>
            Quiet(AdmissionsOf(calls, ip), at)
  {
    if Quiet(AdmissionsOf(calls, ip), at) {
      RepeatFollows(calls, ip, at, 0);
      forall more, a: real | Follows(calls, ip, at, more)
        ensures InHour(AdmissionsOf(calls + [Call(ip, at)] + more, ip), a) <= SIGNUPS_PER_WINDOW
      {
        QuietWindowRolls(calls, ip, at, more, a);
      }
    } else {
      BusyReopeningBreaksRolling(calls, ip, at);
    }
  }

  // Runs in which every reopening is quiet.

  ghost predicate QuietReopenings(calls: seq<Call>, ip: string) {
    forall k :: 0 <= k < |calls| && calls[k].ip == ip && Expired(RowOf(RowsAfter(calls[..k]), ip), calls[k].at) ==>
      Quiet(AdmissionsOf(calls[..k], ip), calls[k].at)
  }

  /** Signups of different windows are more than an hour apart. */
  ghost predicate Spaced(log: seq<Admission>) {
    forall i, j :: 0 <= i < j < |log| && log[i].window != log[j].window ==> log[i].at + WINDOW_LENGTH < log[j].at
  }

  lemma StepKeepsSpaced(t: Track, now: real, at: real)
    requires Shape(t, now) && now <= at && Spaced(t.log) && (Expired(t.row, at) ==> Quiet(t.log, at))
    ensures Spaced(TrackNext(t, at).log)
  {
    var log := t.log;
    forall i | 0 <= i < |log| && (Expired(t.row, at) || log[i].window != t.row.value.start)
      ensures log[i].at + WINDOW_LENGTH < at
    {
      assert log[i].at <= log[|log| - 1].at || i == |log| - 1;
    }
  }

  lemma FrontIsQuiet(calls: seq<Call>, ip: string)
    requires QuietReopenings(calls, ip) && calls != []
    ensures var front, c := calls[..|calls| - 1], calls[|calls| - 1];
            QuietReopenings(front, ip) &&
            (c.ip == ip && Expired(TrackOf(front, ip).row, c.at) ==> Quiet(TrackOf(front, ip).log, c.at))
  {
    var front := calls[..|calls| - 1];
    forall k | 0 <= k < |front| ensures front[k] == calls[k] && front[..k] == calls[..k] {
    }
  }

  lemma {:induction false} QuietRunIsSpaced(calls: seq<Call>, ip: string)
    requires Ordered(calls) && QuietReopenings(calls, ip)
    ensures Spaced(AdmissionsOf(calls, ip))
  {
    if calls != [] {
      var front, c := calls[..|calls| - 1], calls[|calls| - 1];
      SplitLast(calls);
      OrderedFront(calls);
      FrontIsQuiet(calls, ip);
      QuietRunIsSpaced(front, ip);
      RunShape(front, ip, c.at);
      LastCall(front, c, ip);
      if c.ip == ip {
        StepKeepsSpaced(TrackOf(front, ip), c.at, c.at);
      }
    }
  }

  /** An hour that touches one window of a spaced log touches no other. */
  lemma SpacedSpan(log: seq<Admission>, a: real, i: nat)
    requires Spaced(log) && i < |log| && a <= log[i].at <= a + WINDOW_LENGTH
    ensures InHour(log, a) <= InWindow(log, log[i].window)
  {
    var b := a + WINDOW_LENGTH;
    forall k | 0 <= k < |log| && a <= log[k].at <= b ensures log[k].window == log[i].window {
    }
    SpanWithinWindow(log, log[i].window, a, b);
  }

  /** If every reopening of a run is quiet, the whole run keeps five per rolling hour. */
  lemma {:induction false} QuietRunsRoll(calls: seq<Call>, ip: string)
    requires Ordered(calls) && QuietReopenings(calls, ip)
    ensures RollingFive(AdmissionsOf(calls, ip))
  {
    var log := AdmissionsOf(calls, ip);
    QuietRunIsSpaced(calls, ip);
    forall a: real ensures InHour(log, a) <= SIGNUPS_PER_WINDOW {
      if i: nat :| i < |log| && a <= log[i].at <= a + WINDOW_LENGTH {
        SpacedSpan(log, a, i);
        FivePerWindow(calls, ip, log[i].window);
      } else {
        SpanOfPrefix(log, 0, a, a + WINDOW_LENGTH);
      }
    }
  }
}
