/**
 The append-only revision history of each deployment of an application, with the
 calls serialised. Each SQL statement is one step on the rows; builds are the rows
 of the table the build_id column references.
 */
module Revisions {
  import opened Common
  import opened Sorting

  /** An empty gitSHA or buildID is stored as NULL and read back as empty. */
  datatype Content = Content(
    gitSHA: string, buildID: string, imageDigest: string,
    configVersion: int, secretRevision: int, appSpecVersion: string)

  datatype RevisionRow = RevisionRow(revision: int, content: Content, createdAt: string)

  datatype RevisionError = ErrNotFound | ErrInvalidDigest | ErrNotEnoughRevisions | ErrUnknownBuild

  predicate HexDigit(c: char) {
    '0' <= c <= '9' || 'a' <= c <= 'f'
  }

  /** ^sha256:[0-9a-f]{64}$ */
  predicate WellFormedDigest(s: string) {
    |s| == 71 && s[..7] == "sha256:" && forall i :: 7 <= i < 71 ==> HexDigit(s[i])
  }

  predicate BuildKnown(builds: set<string>, c: Content) {
    c.buildID == "" || c.buildID in builds
  }

  /** COALESCE(max(revision), 0) */
  function MaxRevision(rows: seq<RevisionRow>): int {
    if rows == [] then 0
    else
      var m, r := MaxRevision(rows[..|rows| - 1]), rows[|rows| - 1].revision;
      if |rows| == 1 || r > m then r else m
  }

  /** The row of greatest revision among those below `bound`, if any. */
  function NewestBelow(rows: seq<RevisionRow>, bound: Option<int>): Option<RevisionRow> {
    if rows == [] then None
    else
      var best, r := NewestBelow(rows[..|rows| - 1], bound), rows[|rows| - 1];
      if bound.Some? && r.revision >= bound.value then best
      else if best.None? || r.revision > best.value.revision then Some(r)
      else best
  }

  /** ORDER BY revision DESC LIMIT 1 OFFSET 1; revisions are unique per deployment. */
  function SecondNewest(rows: seq<RevisionRow>): Option<RevisionRow> {
    var newest := NewestBelow(rows, None);
    if newest.None? then None else NewestBelow(rows, Some(newest.value.revision))
  }

  function Save(rows: seq<RevisionRow>, builds: set<string>, c: Content, createdAt: string)
    : Result<RevisionRow, RevisionError>
  {
    if !WellFormedDigest(c.imageDigest) then Err(ErrInvalidDigest)
    else if !BuildKnown(builds, c) then Err(ErrUnknownBuild)
    else Ok(RevisionRow(MaxRevision(rows) + 1, c, createdAt))
  }

  function Rollback(rows: seq<RevisionRow>, builds: set<string>, createdAt: string)
    : Result<RevisionRow, RevisionError>
  {
    var target := SecondNewest(rows);
    if target.None? then Err(ErrNotEnoughRevisions) else Save(rows, builds, target.value.content, createdAt)
  }

  class History {
    const id: string   // the deployment
    var rows: seq<RevisionRow>
    var builds: set<string>

    constructor (id: string)
      ensures this.id == id && rows == [] && builds == {}
    {
      this.id, rows, builds := id, [], {};
    }

    /** `appFound`: GetApp finds the live app; `idValid`: the deployment id is a uuid. */
    method SaveRevision(appFound: bool, idValid: bool, c: Content, createdAt: string)
      returns (r: Result<RevisionRow, RevisionError>)
      modifies this`rows
      ensures appFound && idValid ==> r == Save(old(rows), builds, c, createdAt)
      ensures r.Ok? ==> r.value.content == c && r.value.createdAt == createdAt
      ensures appFound && !WellFormedDigest(c.imageDigest) ==> r == Err(ErrInvalidDigest)
      ensures appFound && idValid && WellFormedDigest(c.imageDigest) ==>
                (r.Err? <==> c.buildID != "" && c.buildID !in builds) && (r.Err? ==> r.error == ErrUnknownBuild)
      ensures !appFound ==> r == Err(ErrNotFound)
      ensures !idValid ==> r.Err?
      ensures rows == if r.Ok? then old(rows) + [r.value] else old(rows)
    {
      if !appFound {
        return Err(ErrNotFound);
      }
      if !WellFormedDigest(c.imageDigest) {
        return Err(ErrInvalidDigest);
      }
      if !idValid {
        return Err(ErrNotFound);
      }
      var next := MaxRevision(rows) + 1;
      if !BuildKnown(builds, c) {
        return Err(ErrUnknownBuild);
      }
      var row := RevisionRow(next, c, createdAt);
      rows := rows + [row];
      return Ok(row);
    }

    method RollbackTarget(idValid: bool) returns (r: Result<RevisionRow, RevisionError>)
      ensures r == if !idValid then Err(ErrNotFound)
                   else if SecondNewest(rows).None? then Err(ErrNotEnoughRevisions)
                   else Ok(SecondNewest(rows).value)
    {
      if !idValid {
        return Err(ErrNotFound);
      }
      match SecondNewest(rows)
      case None => return Err(ErrNotEnoughRevisions);
      case Some(row) => return Ok(row);
    }
  }

  /**
   ORDER BY id DESC LIMIT 1 over deployments listed in order of creation. The
   lower-case text of a uuid sorts as the uuid does.
   */
  function Greatest(ids: seq<string>): (g: nat)
    requires ids != []
    ensures g < |ids|
  {
    var last := |ids| - 1;
    if last == 0 then 0
    else
      var g := Greatest(ids[..last]);
      if LessEq(ids[last], ids[g]) then g else last
  }

  lemma {:induction false} GreatestIs(ids: seq<string>)
    requires ids != []
    ensures forall k :: 0 <= k < |ids| ==> LessEq(ids[k], ids[Greatest(ids)])
  {
    var last := |ids| - 1;
    Total(ids[last], ids[last]);
    if last > 0 {
      var g := Greatest(ids[..last]);
      GreatestIs(ids[..last]);
      Total(ids[last], ids[g]);
      forall k | 0 <= k < last ensures LessEq(ids[k], ids[Greatest(ids)]) {
        assert ids[k] == ids[..last][k];
        if Greatest(ids) == last {
          Transitive(ids[k], ids[g], ids[last]);
        }
      }
    }
  }

  /** Ids are random, so the deployment acted on is the newest only where its id happens to be the greatest. */
  lemma {:induction false} NewestIsActedOnIff(ids: seq<string>)
    requires ids != [] && Distinct(ids)
    ensures Greatest(ids) == |ids| - 1 <==> forall k :: 0 <= k < |ids| - 1 ==> Less(ids[k], ids[|ids| - 1])
  {
    var g, last := Greatest(ids), |ids| - 1;
    GreatestIs(ids);
    if g != last {
      Total(ids[g], ids[last]);
    }
  }

  /** Two deployments, the older of which is acted on. */
  lemma OlderDeploymentActedOn()
    ensures Greatest(["b", "a"]) == 0
  {
    assert ["b", "a"][..1] == ["b"];
  }

  /** One application: its deployments in order of creation. */
  class App {
    var deployments: seq<History>

    constructor ()
      ensures deployments == []
    {
      deployments := [];
    }

    function Ids(): seq<string>
      reads this
    {
      seq(|deployments|, i requires 0 <= i < |deployments| reads this => deployments[i].id)
    }

    /** The one deployment a rollback of this app can act on. */
    function Acted(): Option<History>
      reads this
    {
      if deployments == [] then None else Some(deployments[Greatest(Ids())])
    }

    /**
     `idValid`: the app id is a uuid; `live`: it is an app of the org and not
     deleted. The target row comes back whenever there is one, even if the save
     fails.
     */
    method RollbackLatest(idValid: bool, live: bool, createdAt: string)
      returns (r: Result<RevisionRow, RevisionError>, target: Option<RevisionRow>)
      modifies if Acted().Some? then {Acted().value} else {}
      ensures !idValid ==> r == Err(ErrNotFound) && target == None
      ensures idValid && (!live || Acted().None?) ==> r == Err(ErrNotEnoughRevisions) && target == None
      ensures idValid && live && Acted().Some? ==>
                var h := Acted().value;
                r == Rollback(old(h.rows), old(h.builds), createdAt) && target == SecondNewest(old(h.rows))
      ensures Acted().Some? ==>
                var h := Acted().value;
                h.builds == old(h.builds) && h.rows == if r.Ok? then old(h.rows) + [r.value] else old(h.rows)
    {
      if !idValid {
        return Err(ErrNotFound), None;
      }
      if !live || |deployments| == 0 {
        return Err(ErrNotEnoughRevisions), None;
      }
      var h := deployments[Greatest(Ids())];
      var row := h.RollbackTarget(true);
      if row.Err? {
        return Err(row.error), None;
      }
      r := h.SaveRevision(true, true, row.value.content, createdAt);
      target := Some(row.value);
    }
  }

  // ---------------------------------------------------------------------
  // Whole histories
  // ---------------------------------------------------------------------

  /** A build that a revision references cannot be dropped. */
  datatype Op =
    | AddBuild(id: string)
    | DropBuild(id: string)
    | SaveOp(content: Content, createdAt: string)
    | RollbackOp(createdAt: string)

  datatype State = State(rows: seq<RevisionRow>, builds: set<string>)

  predicate Referenced(rows: seq<RevisionRow>, id: string) {
    exists i :: 0 <= i < |rows| && rows[i].content.buildID == id
  }

  function Append(s: State, r: Result<RevisionRow, RevisionError>): State {
    if r.Ok? then s.(rows := s.rows + [r.value]) else s
  }

  function Step(s: State, op: Op): State {
    match op
    case AddBuild(id) => s.(builds := s.builds + {id})
    case DropBuild(id) => if Referenced(s.rows, id) then s else s.(builds := s.builds - {id})
    case SaveOp(c, at) => Append(s, Save(s.rows, s.builds, c, at))
    case RollbackOp(at) => Append(s, Rollback(s.rows, s.builds, at))
  }

  function After(ops: seq<Op>): State {
    if ops == [] then State([], {}) else Step(After(ops[..|ops| - 1]), ops[|ops| - 1])
  }

  ghost predicate Numbered(rows: seq<RevisionRow>) {
    forall i :: 0 <= i < |rows| ==> rows[i].revision == i + 1
  }

  ghost predicate Storable(s: State) {
    forall i :: 0 <= i < |s.rows| ==>
      WellFormedDigest(s.rows[i].content.imageDigest) && BuildKnown(s.builds, s.rows[i].content)
  }

  lemma {:induction false} NumberedMax(rows: seq<RevisionRow>)
    requires Numbered(rows)
    ensures MaxRevision(rows) == |rows|
  {
    if rows != [] {
      NumberedMax(rows[..|rows| - 1]);
    }
  }

  lemma {:induction false} NumberedNewest(rows: seq<RevisionRow>, bound: Option<int>)
    requires Numbered(rows)
    ensures var n := if bound.Some? && bound.value <= |rows| then bound.value - 1 else |rows|;
            NewestBelow(rows, bound) == if n <= 0 then None else Some(rows[n - 1])
  {
    if rows != [] {
      NumberedNewest(rows[..|rows| - 1], bound);
    }
  }

  lemma SecondNewestIs(rows: seq<RevisionRow>)
    requires Numbered(rows)
    ensures SecondNewest(rows) == if |rows| < 2 then None else Some(rows[|rows| - 2])
  {
    NumberedNewest(rows, None);
    if rows != [] {
      NumberedNewest(rows, Some(|rows|));
    }
  }

  /** Revisions are exactly 1..n in insertion order, and every stored row could be stored again. */
  lemma {:induction false} HistoryIsNumbered(ops: seq<Op>)
    ensures Numbered(After(ops).rows) && Storable(After(ops))
  {
    if ops != [] {
      var s, op := After(ops[..|ops| - 1]), ops[|ops| - 1];
      HistoryIsNumbered(ops[..|ops| - 1]);
      NumberedMax(s.rows);
      SecondNewestIs(s.rows);
      if op.DropBuild? && !Referenced(s.rows, op.id) {
        forall i | 0 <= i < |s.rows| ensures BuildKnown(s.builds - {op.id}, s.rows[i].content) {
          assert s.rows[i].content.buildID != op.id;
        }
      }
    }
  }

  /** A digest is "sha256:" and 64 lower-case hexadecimal digits. */
  lemma {:induction false} DigestIff(s: string)
    ensures WellFormedDigest(s) <==>
            exists h :: |h| == 64 && s == "sha256:" + h && forall i :: 0 <= i < 64 ==> h[i] in "0123456789abcdef"
  {
    if WellFormedDigest(s) {
      var h := s[7..];
      assert s == "sha256:" + h;
      forall i | 0 <= i < 64 ensures h[i] in "0123456789abcdef" {
        assert h[i] == s[i + 7];
        HexIff(h[i]);
      }
    }
    forall h | |h| == 64 && s == "sha256:" + h && forall i :: 0 <= i < 64 ==> h[i] in "0123456789abcdef"
      ensures WellFormedDigest(s)
    {
      forall i | 7 <= i < 71 ensures HexDigit(s[i]) {
        assert s[i] == h[i - 7];
        HexIff(h[i - 7]);
      }
    }
  }

  lemma HexIff(c: char)
    ensures HexDigit(c) <==> c in "0123456789abcdef"
  {
    var hex := "0123456789abcdef";
    if '0' <= c <= '9' {
      assert hex[(c - '0') as int] == c;
    } else if 'a' <= c <= 'f' {
      assert hex[(c - 'a') as int + 10] == c;
    }
  }

  /** After any calls a save appends exactly its content under the next number, or changes nothing. */
  lemma {:induction false} SaveAppendsItsContent(ops: seq<Op>, c: Content, createdAt: string)
    ensures var s, s' := After(ops), After(ops + [SaveOp(c, createdAt)]);
            s'.builds == s.builds &&
            s'.rows == if WellFormedDigest(c.imageDigest) && (c.buildID == "" || c.buildID in s.builds)
                       then s.rows + [RevisionRow(|s.rows| + 1, c, createdAt)] else s.rows
  {
    HistoryIsNumbered(ops);
    NumberedMax(After(ops).rows);
    LastOp(ops, SaveOp(c, createdAt));
    SaveStep(After(ops), c, createdAt);
  }

  lemma SaveStep(s: State, c: Content, createdAt: string)
    requires MaxRevision(s.rows) == |s.rows|
    ensures var s' := Step(s, SaveOp(c, createdAt));
            s'.builds == s.builds &&
            s'.rows == if WellFormedDigest(c.imageDigest) && (c.buildID == "" || c.buildID in s.builds)
                       then s.rows + [RevisionRow(|s.rows| + 1, c, createdAt)] else s.rows
  {
  }

  lemma LastOp(ops: seq<Op>, op: Op)
    ensures After(ops + [op]) == Step(After(ops), op)
  {
    assert (ops + [op])[..|ops|] == ops;
  }

  /** Later calls never change or remove a row. */
  lemma {:induction false} EarlierRowsNeverChange(ops: seq<Op>, more: seq<Op>)
    ensures After(ops).rows <= After(ops + more).rows
  {
    if more == [] {
      assert ops + more == ops;
    } else {
      EarlierRowsNeverChange(ops, more[..|more| - 1]);
      assert (ops + more)[..|ops + more| - 1] == ops + more[..|more| - 1];
    }
  }

  /**
   A rollback fails only for want of a second revision, never on the digest or
   the build reference, and appends a copy of the last row but one.
   */
  lemma RollbackCopiesThePrevious(ops: seq<Op>, createdAt: string)
    ensures var s := After(ops);
            var n := |s.rows|;
            Rollback(s.rows, s.builds, createdAt) ==
            if n < 2 then Err(ErrNotEnoughRevisions)
            else Ok(RevisionRow(n + 1, s.rows[n - 2].content, createdAt))
  {
    var s := After(ops);
    HistoryIsNumbered(ops);
    NumberedMax(s.rows);
    SecondNewestIs(s.rows);
  }

  /** Two consecutive rollbacks bring the original live content back. */
  lemma TwoRollbacksRestore(ops: seq<Op>, at1: string, at2: string)
    requires |After(ops).rows| >= 2
    ensures var rows, rows2 := After(ops).rows, After(ops + [RollbackOp(at1), RollbackOp(at2)]).rows;
            |rows2| == |rows| + 2 && rows <= rows2 && rows2[|rows2| - 1].content == rows[|rows| - 1].content
  {
    var one, two := ops + [RollbackOp(at1)], ops + [RollbackOp(at1), RollbackOp(at2)];
    assert one[..|one| - 1] == ops;
    assert two[..|two| - 1] == one;
    RollbackCopiesThePrevious(ops, at1);
    RollbackCopiesThePrevious(one, at2);
  }
}
