/** The cell registry: an ordered list of clusters, pins per org, and routing. */
module Cells {
  import opened Common
  import opened Sorting

  datatype Spec = Spec(name: string, cloud: string, endpoint: string, region: string, isDefault: bool)

  datatype Cell = Cell(spec: Spec, orgs: set<string>)

  datatype Target = Target(cellName: string, cloud: string, endpoint: string, region: string)

  datatype CellError = ErrIncomplete | ErrUnknownCloud | ErrDuplicateCell | ErrUnknownCell | ErrNoCell

  predicate KnownCloud(c: string) {
    c == "baidu-cce" || c == "aliyun-ack" || c == "tencent-tke" || c == "selfhosted"
  }

  predicate Registrable(s: Spec) {
    s.name != "" && s.endpoint != "" && KnownCloud(s.cloud)
  }

  /** The table and the registration order. */
  datatype Table = Table(cells: map<string, Cell>, names: seq<string>)

  ghost predicate ValidTable(t: Table) {
    Distinct(t.names) && (forall n :: n in t.names <==> n in t.cells) &&
    forall n :: n in t.cells ==> t.cells[n].spec.name == n
  }

  function Registered(t: Table, s: Spec): Table {
    if Registrable(s) && s.name !in t.cells
    then Table(t.cells[s.name := Cell(s, {})], t.names + [s.name])
    else t
  }

  function Assigned(t: Table, org: string, name: string): Table {
    if name in t.cells then t.(cells := t.cells[name := t.cells[name].(orgs := t.cells[name].orgs + {org})]) else t
  }

  /** The first name in registration order whose cell has the org pinned. */
  function FirstPinned(t: Table, names: seq<string>, org: string): Option<string> {
    if names == [] then None
    else if names[0] in t.cells && org in t.cells[names[0]].orgs then Some(names[0])
    else FirstPinned(t, names[1..], org)
  }

  function FirstDefault(t: Table, names: seq<string>): Option<string> {
    if names == [] then None
    else if names[0] in t.cells && t.cells[names[0]].spec.isDefault then Some(names[0])
    else FirstDefault(t, names[1..])
  }

  function Route(t: Table, org: string): Option<string> {
    var pinned := FirstPinned(t, t.names, org);
    if pinned.Some? then pinned else FirstDefault(t, t.names)
  }

  class Registry {
    var cells: map<string, Cell>
    var names: seq<string>

    ghost function View(): Table
      reads this
    {
      Table(cells, names)
    }

    ghost predicate Valid()
      reads this
    {
      ValidTable(View())
    }

    constructor ()
      ensures Valid() && View() == Table(map[], [])
    {
      cells, names := map[], [];
    }

    method Register(s: Spec) returns (r: Result<(), CellError>)
      requires Valid()
      modifies this
      ensures Valid() && View() == Registered(old(View()), s)
      ensures r == if s.name == "" || s.endpoint == "" then Err(ErrIncomplete)
                   else if s.cloud !in {"baidu-cce", "aliyun-ack", "tencent-tke", "selfhosted"}
                   then Err(ErrUnknownCloud)
                   else if s.name in old(cells) then Err(ErrDuplicateCell)
                   else Ok(())
    {
      if s.name == "" || s.endpoint == "" {
        return Err(ErrIncomplete);
      }
      if !KnownCloud(s.cloud) {
        return Err(ErrUnknownCloud);
      }
      if s.name in cells {
        return Err(ErrDuplicateCell);
      }
      cells := cells[s.name := Cell(s, {})];
      names := names + [s.name];
      return Ok(());
    }

    method Assign(org: string, cellName: string) returns (r: Result<(), CellError>)
      requires Valid()
      modifies this`cells
      ensures Valid() && View() == Assigned(old(View()), org, cellName)
      ensures r == if cellName in old(cells) then Ok(()) else Err(ErrUnknownCell)
    {
      if cellName !in cells {
        return Err(ErrUnknownCell);
      }
      var c := cells[cellName];
      cells := cells[cellName := c.(orgs := c.orgs + {org})];
      return Ok(());
    }

    /** The snapshot returned is a copy, so a value here. */
    method RouteForOrg(org: string) returns (r: Result<Cell, CellError>)
      requires Valid()
      ensures r.Ok? <==> Route(View(), org).Some?
      ensures r.Ok? ==> Route(View(), org).value in cells && r.value == cells[Route(View(), org).value]
      ensures r.Err? ==> r.error == ErrNoCell
    {
      var fallback: Option<string> := None;
      for i := 0 to |names|
        invariant FirstPinned(View(), names, org) == FirstPinned(View(), names[i..], org)
        invariant FirstDefault(View(), names) == if fallback.Some? then fallback else FirstDefault(View(), names[i..])
        invariant fallback.Some? ==> fallback.value in cells
      {
        assert names[i..][1..] == names[i + 1..];
        var name := names[i];
        assert name in names;
        if org in cells[name].orgs {
          return Ok(cells[name]);
        }
        if cells[name].spec.isDefault && fallback.None? {
          fallback := Some(name);
        }
      }
      match fallback
      case Some(name) => return Ok(cells[name]);
      case None => return Err(ErrNoCell);
    }

    method TargetForOrg(org: string) returns (r: Result<Target, CellError>)
      requires Valid()
      ensures r == if Resolve(View(), org).Some? then Ok(Resolve(View(), org).value) else Err(ErrNoCell)
      ensures r.Ok? ==>
                Route(View(), org) == Some(r.value.cellName) && r.value.cellName in cells &&
                var s := cells[r.value.cellName].spec;
                r.value.cloud == s.cloud && r.value.endpoint == s.endpoint && r.value.region == s.region
    {
      var c := RouteForOrg(org);
      if c.Err? {
        return Err(c.error);
      }
      return Ok(TargetOf(c.value.spec));
    }

    method GroupByCloud() returns (out: map<string, seq<string>>)
      requires Valid()
      ensures forall k :: k in out <==> OfCloud(names, k) != []
      ensures forall k :: k in out ==> out[k] == OfCloud(names, k)
    {
      out := map[];
      for i := 0 to |names|
        invariant forall k :: k in out <==> OfCloud(names[..i], k) != []
        invariant forall k :: k in out ==> out[k] == OfCloud(names[..i], k)
      {
        var name := names[i];
        assert name in names;
        var cloud := cells[name].spec.cloud;
        assert names[..i + 1][..i] == names[..i];
        out := out[cloud := (if cloud in out then out[cloud] else []) + [name]];
      }
      assert names[..|names|] == names;
    }

    /** The fleet view: every registered name once, under its cloud, each group sorted. */
    method FleetByCloud() returns (out: map<string, seq<string>>)
      requires Valid()
      ensures forall k :: k in out ==> out[k] != []
      ensures forall k :: k in out ==>
                StrictlySorted(out[k]) && forall n :: n in out[k] <==> n in cells && cells[n].spec.cloud == k
      ensures forall n :: n in cells ==> cells[n].spec.cloud in out
    {
      out := GroupByCloud();
      ghost var groups := out;
      var todo := out.Keys;
      while todo != {}
        invariant todo <= out.Keys == groups.Keys
        invariant forall k :: k in out ==> out[k] == if k in todo then groups[k] else Sort(groups[k])
        decreases |todo|
      {
        var k :| k in todo;
        out := out[k := Sort(out[k])];
        todo := todo - {k};
      }
      forall k | k in out
        ensures out[k] != [] && StrictlySorted(out[k])
        ensures forall n :: n in out[k] <==> n in cells && cells[n].spec.cloud == k
      {
        OfCloudIs(names, k);
        SortDistinct(groups[k]);
      }
      forall n | n in cells ensures cells[n].spec.cloud in out {
        OfCloudIs(names, cells[n].spec.cloud);
        assert n in OfCloud(names, cells[n].spec.cloud);
      }
    }

    ghost function OfCloud(ns: seq<string>, cloud: string): seq<string>
      reads this
    {
      if ns == [] then []
      else
        var front, n := OfCloud(ns[..|ns| - 1], cloud), ns[|ns| - 1];
        if n in cells && cells[n].spec.cloud == cloud then front + [n] else front
    }

    lemma {:induction false} OfCloudIs(ns: seq<string>, cloud: string)
      requires Distinct(ns)
      ensures Distinct(OfCloud(ns, cloud))
      ensures forall n :: n in OfCloud(ns, cloud) <==> n in ns && n in cells && cells[n].spec.cloud == cloud
    {
      if ns != [] {
        assert ns == ns[..|ns| - 1] + [ns[|ns| - 1]];
        OfCloudIs(ns[..|ns| - 1], cloud);
      }
    }
  }

  function TargetOf(s: Spec): Target {
    Target(s.name, s.cloud, s.endpoint, s.region)
  }

  function Resolve(t: Table, org: string): Option<Target> {
    var n := Route(t, org);
    if n.Some? && n.value in t.cells then Some(TargetOf(t.cells[n.value].spec)) else None
  }

  // ---------------------------------------------------------------------
  // Every reachable registry
  // ---------------------------------------------------------------------

  datatype Op = Register(spec: Spec) | Assign(org: string, cell: string)

  function Step(t: Table, op: Op): Table {
    match op
    case Register(s) => Registered(t, s)
    case Assign(org, name) => Assigned(t, org, name)
  }

  function After(ops: seq<Op>): Table {
    if ops == [] then Table(map[], []) else Step(After(ops[..|ops| - 1]), ops[|ops| - 1])
  }

  /** The accepted registrations, in order, read off the calls alone. */
  function Accepted(ops: seq<Op>): seq<Spec> {
    if ops == [] then []
    else
      var front, op := Accepted(ops[..|ops| - 1]), ops[|ops| - 1];
      if op.Register? && Registrable(op.spec) && !Named(front, op.spec.name) then front + [op.spec] else front
  }

  predicate Named(specs: seq<Spec>, name: string) {
    exists i :: 0 <= i < |specs| && specs[i].name == name
  }

  /** The cells an org was ever assigned to, after they existed. */
  function EverAssigned(ops: seq<Op>, org: string): set<string> {
    if ops == [] then {}
    else
      var front, op := ops[..|ops| - 1], ops[|ops| - 1];
      if op.Assign? && op.org == org && Named(Accepted(front), op.cell) then EverAssigned(front, org) + {op.cell}
      else EverAssigned(front, org)
  }

  function NamesOf(specs: seq<Spec>): seq<string> {
    seq(|specs|, i requires 0 <= i < |specs| => specs[i].name)
  }

  /** The registry is what the accepted calls say, and `names` lists the keys without repeats. */
  lemma {:induction false} RegistryReflectsCalls(ops: seq<Op>)
    ensures ValidTable(After(ops))
    ensures After(ops).names == NamesOf(Accepted(ops))
    ensures forall i :: 0 <= i < |Accepted(ops)| ==>
              Accepted(ops)[i].name in After(ops).cells &&
              After(ops).cells[Accepted(ops)[i].name].spec == Accepted(ops)[i]
  {
    if ops != [] {
      var front, op := ops[..|ops| - 1], ops[|ops| - 1];
      RegistryReflectsCalls(front);
      if op.Register? {
        NamedIff(Accepted(front), op.spec.name);
        assert After(front).names == NamesOf(Accepted(front));
      }
    }
  }

  lemma NamedIff(specs: seq<Spec>, name: string)
    ensures Named(specs, name) <==> name in NamesOf(specs)
  {
    if Named(specs, name) {
      var i :| 0 <= i < |specs| && specs[i].name == name;
      assert NamesOf(specs)[i] == name;
    }
  }

  lemma {:induction false} PinsReflectCalls(ops: seq<Op>, org: string, name: string)
    ensures name in EverAssigned(ops, org) <==> name in After(ops).cells && org in After(ops).cells[name].orgs
  {
    if ops != [] {
      var front, op := ops[..|ops| - 1], ops[|ops| - 1];
      PinsReflectCalls(front, org, name);
      RegistryReflectsCalls(front);
      if op.Assign? {
        NamedIff(Accepted(front), op.cell);
      }
    }
  }

  /** Position i of the accepted registrations is the first one satisfying the pin or default test. */
  predicate EarliestAssigned(ops: seq<Op>, org: string, i: nat) {
    i < |Accepted(ops)| && Accepted(ops)[i].name in EverAssigned(ops, org) &&
    forall k :: 0 <= k < i ==> Accepted(ops)[k].name !in EverAssigned(ops, org)
  }

  predicate EarliestDefault(ops: seq<Op>, org: string, i: nat) {
    i < |Accepted(ops)| && Accepted(ops)[i].isDefault && (forall k :: 0 <= k < i ==> !Accepted(ops)[k].isDefault) &&
    forall k :: 0 <= k < |Accepted(ops)| ==> Accepted(ops)[k].name !in EverAssigned(ops, org)
  }

  lemma {:induction false} FirstPinnedIs(t: Table, names: seq<string>, org: string)
    ensures match FirstPinned(t, names, org)
            case None => forall k :: 0 <= k < |names| ==> !(names[k] in t.cells && org in t.cells[names[k]].orgs)
            case Some(n) =>
              exists i :: 0 <= i < |names| && names[i] == n && n in t.cells && org in t.cells[n].orgs &&
                          forall k :: 0 <= k < i ==> !(names[k] in t.cells && org in t.cells[names[k]].orgs)
  {
    if names != [] && !(names[0] in t.cells && org in t.cells[names[0]].orgs) {
      FirstPinnedIs(t, names[1..], org);
    }
  }

  lemma {:induction false} FirstDefaultIs(t: Table, names: seq<string>)
    ensures match FirstDefault(t, names)
            case None => forall k :: 0 <= k < |names| ==> !(names[k] in t.cells && t.cells[names[k]].spec.isDefault)
            case Some(n) =>
              exists i :: 0 <= i < |names| && names[i] == n && n in t.cells && t.cells[n].spec.isDefault &&
                          forall k :: 0 <= k < i ==> !(names[k] in t.cells && t.cells[names[k]].spec.isDefault)
  {
    if names != [] && !(names[0] in t.cells && t.cells[names[0]].spec.isDefault) {
      FirstDefaultIs(t, names[1..]);
    }
  }

  /** The route read off the calls: the earliest assigned cell, else the earliest default, else none. */
  lemma RouteIsEarliest(ops: seq<Op>, org: string)
    ensures match Route(After(ops), org)
            case Some(n) =>
              exists i: nat :: (EarliestAssigned(ops, org, i) || EarliestDefault(ops, org, i)) &&
                          Accepted(ops)[i].name == n &&
                          var s := Accepted(ops)[i];
                          Resolve(After(ops), org) == Some(Target(s.name, s.cloud, s.endpoint, s.region))
            case None =>
              forall k :: 0 <= k < |Accepted(ops)| ==>
                !Accepted(ops)[k].isDefault && Accepted(ops)[k].name !in EverAssigned(ops, org)
  {
    var t, specs := After(ops), Accepted(ops);
    RegistryReflectsCalls(ops);
    FirstPinnedIs(t, t.names, org);
    FirstDefaultIs(t, t.names);
    forall k | 0 <= k < |specs|
      ensures t.names[k] == specs[k].name && t.cells[specs[k].name].spec == specs[k]
      ensures specs[k].name in EverAssigned(ops, org) <==> org in t.cells[specs[k].name].orgs
    {
      PinsReflectCalls(ops, org, specs[k].name);
    }
    match Route(t, org) {
      case None =>
      case Some(n) =>
        var i: nat :| i < |specs| && specs[i].name == n &&
                 (EarliestAssigned(ops, org, i) || EarliestDefault(ops, org, i));
    }
  }

  lemma {:induction false} RegisterKeepsScans(t: Table, s: Spec, names: seq<string>, org: string)
    requires s.name !in t.cells && forall k :: 0 <= k < |names| ==> names[k] in t.cells
    ensures var t' := Registered(t, s);
            FirstPinned(t', names + [s.name], org) == FirstPinned(t, names, org) &&
            (FirstDefault(t, names).Some? ==> FirstDefault(t', names + [s.name]) == FirstDefault(t, names))
  {
    if names != [] {
      assert (names + [s.name])[1..] == names[1..] + [s.name];
      RegisterKeepsScans(t, s, names[1..], org);
    }
  }

  lemma {:induction false} AssignKeepsScans(t: Table, other: string, name: string, names: seq<string>, org: string)
    requires other != org
    ensures FirstPinned(Assigned(t, other, name), names, org) == FirstPinned(t, names, org)
    ensures FirstDefault(Assigned(t, other, name), names) == FirstDefault(t, names)
  {
    if names != [] {
      AssignKeepsScans(t, other, name, names[1..], org);
    }
  }

  lemma RouteIsKnown(ops: seq<Op>, org: string)
    ensures Route(After(ops), org).Some? ==> Route(After(ops), org).value in After(ops).cells
    ensures Route(After(ops), org).Some? <==> Resolve(After(ops), org).Some?
  {
    FirstPinnedIs(After(ops), After(ops).names, org);
    FirstDefaultIs(After(ops), After(ops).names);
  }

  /** Assigning one org never changes another org's route, found or not. */
  lemma OthersKeepTheirRoute(ops: seq<Op>, other: string, name: string, org: string)
    requires other != org
    ensures Resolve(After(ops + [Assign(other, name)]), org) == Resolve(After(ops), org)
  {
    assert (ops + [Assign(other, name)])[..|ops|] == ops;
    AssignKeepsScans(After(ops), other, name, After(ops).names, org);
    RouteIsKnown(ops, org);
  }

  /** A successful route is unchanged by a later registration, default or not. */
  lemma RegistrationKeepsRoute(ops: seq<Op>, s: Spec, org: string)
    requires Resolve(After(ops), org).Some?
    ensures Resolve(After(ops + [Register(s)]), org) == Resolve(After(ops), org)
  {
    var t := After(ops);
    assert (ops + [Register(s)])[..|ops|] == ops;
    RegistryReflectsCalls(ops);
    RouteIsKnown(ops, org);
    if Registrable(s) && s.name !in t.cells {
      RegisterKeepsScans(t, s, t.names, org);
    }
  }

  /** A route holds for as long as the org itself is not assigned again. */
  lemma {:induction false} RouteIsStable(ops: seq<Op>, more: seq<Op>, org: string)
    requires Resolve(After(ops), org).Some?
    requires forall k :: 0 <= k < |more| ==> more[k].Register? || more[k].org != org
    ensures Resolve(After(ops + more), org) == Resolve(After(ops), org)
  {
    if more == [] {
      assert ops + more == ops;
    } else {
      var front, op := more[..|more| - 1], more[|more| - 1];
      RouteIsStable(ops, front, org);
      assert ops + more == (ops + front) + [op];
      match op
      case Register(s) => RegistrationKeepsRoute(ops + front, s, org);
      case Assign(o, n) => OthersKeepTheirRoute(ops + front, o, n, org);
    }
  }

  lemma {:induction false} PinScan(t: Table, org: string, name: string, names: seq<string>, i: nat)
    requires name in t.cells && Distinct(names) && i < |names| && names[i] == name
    ensures FirstPinned(Assigned(t, org, name), names, org) == Some(name) <==>
            forall k :: 0 <= k < i ==> !(names[k] in t.cells && org in t.cells[names[k]].orgs)
  {
    if i > 0 {
      PinScan(t, org, name, names[1..], i - 1);
      assert forall k :: 0 <= k < i - 1 ==> names[1..][k] == names[k + 1];
      assert (forall k :: 0 <= k < i ==> !(names[k] in t.cells && org in t.cells[names[k]].orgs)) <==>
             !(names[0] in t.cells && org in t.cells[names[0]].orgs) &&
             forall k :: 0 <= k < i - 1 ==> !(names[1..][k] in t.cells && org in t.cells[names[1..][k]].orgs);
    }
  }

  /**
   Assign does not unpin: the org is routed to the cell it was just assigned to
   exactly when no earlier-registered cell was ever assigned to it.
   */
  lemma AssignTakesEffectIff(ops: seq<Op>, org: string, i: nat)
    requires i < |Accepted(ops)|
    ensures Route(After(ops + [Assign(org, Accepted(ops)[i].name)]), org) == Some(Accepted(ops)[i].name) <==>
            forall k :: 0 <= k < i ==> Accepted(ops)[k].name !in EverAssigned(ops, org)
  {
    var t, specs := After(ops), Accepted(ops);
    var name := specs[i].name;
    var ops' := ops + [Assign(org, name)];
    assert ops'[..|ops|] == ops;
    RegistryReflectsCalls(ops);
    assert t.names[i] == name;
    PinScan(t, org, name, t.names, i);
    forall k | 0 <= k < i
      ensures specs[k].name in EverAssigned(ops, org) <==> t.names[k] in t.cells && org in t.cells[t.names[k]].orgs
    {
      PinsReflectCalls(ops, org, specs[k].name);
    }
    FirstPinnedIs(Assigned(t, org, name), t.names, org);
    assert t.names[i] in Assigned(t, org, name).cells && org in Assigned(t, org, name).cells[t.names[i]].orgs;
  }

  /** Moving an org from the earlier of two cells to the later one has no effect on its route. */
  lemma MoveToLaterCellIgnored(a: Spec, b: Spec, org: string)
    requires Registrable(a) && Registrable(b) && a.name != b.name
    ensures var ops := [Register(a), Register(b), Assign(org, a.name)];
            Route(After(ops), org) == Some(a.name) && Route(After(ops + [Assign(org, b.name)]), org) == Some(a.name)
  {
    var r1, r2, ops := [Register(a)], [Register(a), Register(b)], [Register(a), Register(b), Assign(org, a.name)];
    var moved := ops + [Assign(org, b.name)];
    assert r1[..0] == [] && r2[..1] == r1 && ops[..2] == r2 && moved[..3] == ops;
    assert After(r1).names == [a.name] && After(r1).cells == map[a.name := Cell(a, {})];
    assert After(r2).names == [a.name, b.name] && b.name in After(r2).cells && After(r2).cells[a.name] == Cell(a, {});
    assert After(ops).names == [a.name, b.name] && After(ops).cells[a.name] == Cell(a, {org});
    assert After(moved).names == [a.name, b.name] && After(moved).cells[a.name] == Cell(a, {org});
  }
}
