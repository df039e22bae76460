/** The seven-step soft-delete pipeline. */
module DeletePipeline {
  import opened Common

  const SOFT_DELETED: int := 4
  const DATA_PURGED: int := 7

  datatype PipelineError = UnknownStep(id: int) | ErrPipelineComplete

  predicate Known(completed: seq<int>) {
    forall i :: 0 <= i < |completed| ==> 1 <= completed[i] <= DATA_PURGED
  }

  /** The least step missing from `completed`, if any. */
  ghost predicate IsNext(completed: seq<int>, step: int) {
    1 <= step <= DATA_PURGED && step !in completed && forall s :: 1 <= s < step ==> s in completed
  }

  function FirstUnknown(completed: seq<int>): Option<int> {
    if completed == [] then None
    else if completed[0] < 1 || completed[0] > DATA_PURGED then Some(completed[0])
    else FirstUnknown(completed[1..])
  }

  function FirstMissing(completed: seq<int>, from: int): Option<int>
    decreases DATA_PURGED + 1 - from
  {
    if from > DATA_PURGED then None
    else if from !in completed then Some(from)
    else FirstMissing(completed, from + 1)
  }

  function Next(completed: seq<int>): Result<int, PipelineError> {
    if FirstUnknown(completed).Some? then Err(UnknownStep(FirstUnknown(completed).value))
    else
      var step := FirstMissing(completed, 1);
      if step.None? then Err(ErrPipelineComplete) else Ok(step.value)
  }

  lemma {:induction false} FirstUnknownIff(completed: seq<int>)
    ensures FirstUnknown(completed).None? <==> Known(completed)
  {
    if completed != [] {
      FirstUnknownIff(completed[1..]);
      if 1 <= completed[0] <= DATA_PURGED && !Known(completed[1..]) {
        var i :| 0 <= i < |completed| - 1 && !(1 <= completed[1..][i] <= DATA_PURGED);
        assert completed[i + 1] == completed[1..][i];
      }
    }
  }

  lemma {:induction false} FirstMissingIs(completed: seq<int>, from: int)
    requires 1 <= from <= DATA_PURGED + 1
    requires forall s :: 1 <= s < from ==> s in completed
    ensures var r := FirstMissing(completed, from);
            (r.Some? ==> IsNext(completed, r.value)) &&
            (r.None? <==> forall s :: 1 <= s <= DATA_PURGED ==> s in completed)
    decreases DATA_PURGED + 1 - from
  {
    if from <= DATA_PURGED && from in completed {
      FirstMissingIs(completed, from + 1);
    }
  }

  /** Next is the least missing step; it fails closed on an unknown id and reports completion otherwise. */
  lemma NextIs(completed: seq<int>)
    ensures Next(completed).Ok? ==> Known(completed) && IsNext(completed, Next(completed).value)
    ensures Next(completed) == Err(ErrPipelineComplete) <==>
            Known(completed) && forall s :: 1 <= s <= DATA_PURGED ==> s in completed
  {
    FirstUnknownIff(completed);
    FirstMissingIs(completed, 1);
  }

  method NextDeleteStep(completed: seq<int>) returns (r: Result<int, PipelineError>)
    ensures r == Next(completed)
    ensures r.Ok? <==> Known(completed) && exists s :: IsNext(completed, s)
    ensures r.Ok? ==>
              1 <= r.value <= 7 && r.value !in completed && forall s :: 1 <= s < r.value ==> s in completed
    ensures r == Err(ErrPipelineComplete) <==>
            (forall c :: c in completed ==> 1 <= c <= 7) && forall s :: 1 <= s <= 7 ==> s in completed
    ensures r.Err? && r.error.UnknownStep? ==> r.error.id in completed && !(1 <= r.error.id <= 7)
  {
    NextIs(completed);
    var done: set<int> := {};
    for i := 0 to |completed|
      invariant forall c :: c in done <==> c in completed[..i]
      invariant FirstUnknown(completed) == FirstUnknown(completed[i..])
      invariant Known(completed[..i])
    {
      var c := completed[i];
      assert completed[i..][1..] == completed[i + 1..];
      if c < 1 || c > DATA_PURGED {
        assert !Known(completed) && c in completed;
        return Err(UnknownStep(c));
      }
      done := done + {c};
      assert completed[..i + 1] == completed[..i] + [c];
    }
    assert completed[..|completed|] == completed;
    for id := 1 to DATA_PURGED + 1
      invariant forall s :: 1 <= s < id ==> s in completed
      invariant FirstMissing(completed, 1) == FirstMissing(completed, id)
    {
      if id !in done {
        assert IsNext(completed, id);
        return Ok(id);
      }
    }
    return Err(ErrPipelineComplete);
  }

  // ---------------------------------------------------------------------
  // Driving the pipeline to its end
  // ---------------------------------------------------------------------

  function Missing(completed: seq<int>): set<int> {
    set s | 1 <= s <= DATA_PURGED && s !in completed
  }

  lemma MissingShrinks(completed: seq<int>, step: int)
    requires 1 <= step <= DATA_PURGED && step !in completed
    ensures Missing(completed + [step]) == Missing(completed) - {step} && step in Missing(completed)
    ensures |Missing(completed + [step])| == |Missing(completed)| - 1
  {
  }

  /** The steps emitted when each one is recorded before the next is asked for. */
  function Drive(completed: seq<int>): seq<int>
    decreases |Missing(completed)|
  {
    NextIs(completed);
    var next := Next(completed);
    if next.Err? then []
    else
      MissingShrinks(completed, next.value);
      [next.value] + Drive(completed + [next.value])
  }

  predicate StrictlyIncreasing(xs: seq<int>) {
    forall i, j :: 0 <= i < j < |xs| ==> xs[i] < xs[j]
  }

  function Distinct(completed: seq<int>): set<int> {
    set i | 0 <= i < |completed| :: completed[i]
  }

  /**
   From any list of valid steps, in any order and with repeats, the driver emits
   exactly the missing steps, in strictly increasing order.
   */
  lemma {:induction false} DriveEmitsTheMissing(completed: seq<int>)
    requires Known(completed)
    ensures StrictlyIncreasing(Drive(completed))
    ensures forall s :: s in Drive(completed) <==> s in Missing(completed)
    ensures |Drive(completed)| == |Missing(completed)|
    decreases |Missing(completed)|
  {
    NextIs(completed);
    var next := Next(completed);
    if next.Ok? {
      MissingShrinks(completed, next.value);
      DriveEmitsTheMissing(completed + [next.value]);
      var rest := Drive(completed + [next.value]);
      forall j | 0 <= j < |rest| ensures next.value < rest[j] {
        assert rest[j] in Missing(completed + [next.value]);
      }
    } else {
      FirstUnknownIff(completed);
      assert Missing(completed) == {};
    }
  }

  /** When the driver stops, the pipeline is complete. */
  lemma {:induction false} DriveCompletes(completed: seq<int>)
    requires Known(completed)
    ensures Next(completed + Drive(completed)) == Err(ErrPipelineComplete)
    decreases |Missing(completed)|
  {
    NextIs(completed);
    var next := Next(completed);
    if next.Ok? {
      var more := completed + [next.value];
      MissingShrinks(completed, next.value);
      DriveCompletes(more);
      assert completed + Drive(completed) == more + Drive(more);
    } else {
      FirstUnknownIff(completed);
      assert completed + Drive(completed) == completed;
    }
  }

  lemma MissingCount(completed: seq<int>)
    requires Known(completed)
    ensures |Missing(completed)| == 7 - |Distinct(completed)|
  {
    var all := {1, 2, 3, 4, 5, 6, 7};
    var m, d := Missing(completed), Distinct(completed);
    assert m + d == all && m !! d;
    assert |all| == 7;
  }

  /** The run takes exactly seven minus the number of distinct steps already done. */
  lemma DriveLength(completed: seq<int>)
    requires Known(completed)
    ensures |Drive(completed)| == 7 - |Distinct(completed)|
  {
    DriveEmitsTheMissing(completed);
    MissingCount(completed);
  }

  /** When the driver purges the data, that is its last step, and every other one was done or driven before. */
  lemma DrivePurgesLast(completed: seq<int>, i: nat)
    requires Known(completed) && i < |Drive(completed)| && Drive(completed)[i] == DATA_PURGED
    ensures i == |Drive(completed)| - 1
    ensures forall s :: 1 <= s < DATA_PURGED ==> s in completed + Drive(completed)[..i]
  {
    var emitted := Drive(completed);
    DriveEmitsTheMissing(completed);
    assert emitted[|emitted| - 1] in Missing(completed);
    forall s | 1 <= s < DATA_PURGED ensures s in completed + emitted[..i] {
      if s !in completed {
        assert s in Missing(completed);
        var k :| 0 <= k < |emitted| && emitted[k] == s;
        assert emitted[..i][k] == s;
      }
    }
  }

  // ---------------------------------------------------------------------
  // The restore window
  // ---------------------------------------------------------------------

  method RestoreWindowOpen(completed: seq<int>) returns (open: bool)
    ensures open == WindowOpen(completed)
    ensures open <==> forall step :: step in completed ==> step <= 3
  {
    for i := 0 to |completed|
      invariant WindowOpen(completed[..i])
    {
      if completed[i] >= SOFT_DELETED {
        assert completed[i] in completed;
        return false;
      }
    }
    return true;
  }

  predicate WindowOpen(completed: seq<int>) {
    forall i :: 0 <= i < |completed| ==> completed[i] < SOFT_DELETED
  }

  /** Lists the driver itself produces, starting from nothing. */
  ghost predicate Grown(completed: seq<int>) {
    completed == [] ||
    (Grown(completed[..|completed| - 1]) && Next(completed[..|completed| - 1]) == Ok(completed[|completed| - 1]))
  }

  /** [1, 2, .., n] */
  predicate Initial(completed: seq<int>) {
    |completed| <= DATA_PURGED && forall i :: 0 <= i < |completed| ==> completed[i] == i + 1
  }

  lemma InitialMembers(completed: seq<int>)
    requires Initial(completed)
    ensures forall s :: s in completed <==> 1 <= s <= |completed|
    ensures Known(completed)
  {
    forall s | 1 <= s <= |completed| ensures s in completed {
      assert completed[s - 1] == s;
    }
  }

  lemma {:induction false} GrownIsInitial(completed: seq<int>)
    requires Grown(completed)
    ensures Initial(completed)
  {
    if completed != [] {
      var front := completed[..|completed| - 1];
      GrownIsInitial(front);
      InitialMembers(front);
      NextIs(front);
      assert IsNext(front, completed[|completed| - 1]);
    }
  }

  /** On such lists the window is open exactly while the next step is at most 4, the soft delete. */
  lemma WindowOpenIff(completed: seq<int>)
    requires Grown(completed)
    ensures WindowOpen(completed) <==> Next(completed).Ok? && Next(completed).value <= 4
  {
    GrownIsInitial(completed);
    InitialMembers(completed);
    NextIs(completed);
    FirstUnknownIff(completed);
    assert |completed| >= 4 ==> completed[3] == 4;
  }

  /** Once closed, the window stays closed whatever is completed next. */
  lemma WindowNeverReopens(completed: seq<int>, more: seq<int>)
    requires !WindowOpen(completed)
    ensures !WindowOpen(completed + more)
  {
    var i :| 0 <= i < |completed| && completed[i] >= SOFT_DELETED;
    assert (completed + more)[i] == completed[i];
  }
}
