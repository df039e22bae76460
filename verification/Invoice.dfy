/** Monthly invoices, in exact arithmetic: float64 amounts are `real`, cents are `int`. */
module Invoice {
  datatype Plan = Plan(
    tier: string, monthlyBaseCents: int, includedBuildMinutes: real,
    includedCpuCoreHours: real, overageCpuCentsHour: int)

  datatype Line = Line(kind: string, quantity: real, unitCents: int, amountCents: int)

  datatype Invoice = Invoice(org: string, start: real, end: real, lines: seq<Line>, totalCents: int)

  /** math.Round: to the nearest integer, halves away from zero. */
  function Round(f: real): int {
    if f >= 0.0 then (f + 0.5).Floor else -((0.5 - f).Floor)
  }

  function Round2(f: real): real {
    Round(f * 100.0) as real / 100.0
  }

  /** int64(x): toward zero. */
  function Truncate(x: real): int {
    if x >= 0.0 then x.Floor else -((-x).Floor)
  }

  function SumLines(lines: seq<Line>): int {
    if lines == [] then 0 else SumLines(lines[..|lines| - 1]) + lines[|lines| - 1].amountCents
  }

  function Overage(plan: Plan, cpuCoreHours: real): int {
    var extra := cpuCoreHours - plan.includedCpuCoreHours;
    if extra > 0.0 && plan.overageCpuCentsHour > 0
    then Truncate(Price(Round2(extra), plan.overageCpuCentsHour)) else 0
  }

  method AggregateInvoice(org: string, plan: Plan, start: real, end: real, buildMinutes: real, cpuCoreHours: real)
    returns (inv: Invoice)
    ensures inv.org == org && inv.start == start && inv.end == end
    ensures inv.totalCents == SumLines(inv.lines)
    ensures inv.totalCents == plan.monthlyBaseCents + Overage(plan, cpuCoreHours)
    ensures |inv.lines| >= 1
    ensures inv.lines[0] == Line("base-" + plan.tier, 1.0, plan.monthlyBaseCents, plan.monthlyBaseCents)
    ensures cpuCoreHours > plan.includedCpuCoreHours && plan.overageCpuCentsHour > 0 ==>
              |inv.lines| >= 2 &&
              inv.lines[1] == Line("overage-cpu-core-hour", Round2(cpuCoreHours - plan.includedCpuCoreHours),
                                   plan.overageCpuCentsHour, Overage(plan, cpuCoreHours))
    ensures |inv.lines| == 1 +
              (if cpuCoreHours > plan.includedCpuCoreHours && plan.overageCpuCentsHour > 0 then 1 else 0) +
              (if buildMinutes > plan.includedBuildMinutes then 1 else 0)
    ensures buildMinutes > plan.includedBuildMinutes ==>
              inv.lines[|inv.lines| - 1] ==
              Line("throttled-build-minutes", Round2(buildMinutes - plan.includedBuildMinutes), 0, 0)
  {
    var lines := [Line("base-" + plan.tier, 1.0, plan.monthlyBaseCents, plan.monthlyBaseCents)];
    var extra := cpuCoreHours - plan.includedCpuCoreHours;
    if extra > 0.0 && plan.overageCpuCentsHour > 0 {
      var q := Round2(extra);
      lines := lines + [Line("overage-cpu-core-hour", q, plan.overageCpuCentsHour,
                             Truncate(Price(q, plan.overageCpuCentsHour)))];
    }
    assert SumLines(lines) == plan.monthlyBaseCents + Overage(plan, cpuCoreHours);
    ghost var billed := lines;
    var extraMin := buildMinutes - plan.includedBuildMinutes;
    if extraMin > 0.0 {
      lines := lines + [Line("throttled-build-minutes", Round2(extraMin), 0, 0)];
      assert lines[..|billed|] == billed;
    }
    var total := 0;
    for i := 0 to |lines|
      invariant total == SumLines(lines[..i])
    {
      assert lines[..i + 1][..i] == lines[..i];
      total := total + lines[i].amountCents;
    }
    assert lines[..|lines|] == lines;
    inv := Invoice(org, start, end, lines, total);
  }

  lemma RoundNear(f: real)
    requires f >= 0.0
    ensures f - 0.5 < Round(f) as real <= f + 0.5 && Round(f) >= 0
  {
  }

  lemma Round2Near(f: real)
    requires f >= 0.0
    ensures f - 0.005 < Round2(f) <= f + 0.005 && Round2(f) >= 0.0
  {
    RoundNear(f * 100.0);
  }

  /** To the nearest hundredth, a half up. */
  lemma Round2Is(f: real) returns (hundredths: nat)
    requires f >= 0.0
    ensures Round2(f) == hundredths as real / 100.0
    ensures hundredths as real - 0.5 <= f * 100.0 < hundredths as real + 0.5
  {
    RoundNear(f * 100.0);
    hundredths := Round(f * 100.0);
  }

  lemma Round2Monotone(f: real, g: real)
    requires 0.0 <= f <= g
    ensures Round2(f) <= Round2(g)
  {
    assert f * 100.0 + 0.5 <= g * 100.0 + 0.5;
    assert Round(f * 100.0) <= Round(g * 100.0);
  }

  /** The unrounded price of `q` hours. */
  function Price(q: real, rate: int): real {
    q * rate as real
  }

  lemma PriceMonotone(a: real, b: real, rate: int)
    requires a <= b && rate > 0
    ensures Price(a, rate) <= Price(b, rate)
    ensures a >= 0.0 ==> Price(a, rate) >= 0.0
    ensures a < b ==> Price(a, rate) < Price(b, rate)
  {
    var r := rate as real;
    assert (b - a) * r >= 0.0;
    assert b * r == a * r + (b - a) * r;
    if a < b {
      assert (b - a) * r > 0.0;
    }
    if a >= 0.0 {
      assert a * r >= 0.0;
    }
  }

  lemma TruncateNear(x: real)
    requires x >= 0.0
    ensures x - 1.0 < Truncate(x) as real <= x && Truncate(x) >= 0
  {
  }

  lemma TruncateMonotone(x: real, y: real)
    requires 0.0 <= x <= y
    ensures Truncate(x) <= Truncate(y)
  {
  }

  /** Never negative, and zero within the inclusion. */
  lemma OverageNonNegative(plan: Plan, hours: real)
    ensures Overage(plan, hours) >= 0
    ensures hours <= plan.includedCpuCoreHours ==> Overage(plan, hours) == 0
  {
    var extra := hours - plan.includedCpuCoreHours;
    if extra > 0.0 && plan.overageCpuCentsHour > 0 {
      Round2Near(extra);
      PriceMonotone(Round2(extra), Round2(extra), plan.overageCpuCentsHour);
      TruncateNear(Price(Round2(extra), plan.overageCpuCentsHour));
    }
  }

  /** More CPU hours never cost less; so the total is monotone in them, and at least the base. */
  lemma OverageMonotone(plan: Plan, hours: real, more: real)
    requires hours <= more
    ensures Overage(plan, hours) <= Overage(plan, more)
  {
    OverageNonNegative(plan, hours);
    OverageNonNegative(plan, more);
    var e, f, rate := hours - plan.includedCpuCoreHours, more - plan.includedCpuCoreHours, plan.overageCpuCentsHour;
    if e > 0.0 && rate > 0 {
      Round2Near(e);
      Round2Near(f);
      Round2Monotone(e, f);
      PriceMonotone(Round2(e), Round2(f), rate);
      TruncateMonotone(Price(Round2(e), rate), Price(Round2(f), rate));
    }
  }

  /**
   The overage line never exceeds extra*rate by more than half a hundredth of an
   hour's price, nor falls short by that much plus a cent or more.
   */
  lemma OverageAccuracy(plan: Plan, hours: real)
    requires hours > plan.includedCpuCoreHours && plan.overageCpuCentsHour > 0
    ensures var exact := (hours - plan.includedCpuCoreHours) * plan.overageCpuCentsHour as real;
            var slack := 0.005 * plan.overageCpuCentsHour as real;
            exact - slack - 1.0 < Overage(plan, hours) as real <= exact + slack
  {
    OverageNearPrice(plan, hours);
  }

  lemma OverageNearPrice(plan: Plan, hours: real)
    requires hours > plan.includedCpuCoreHours && plan.overageCpuCentsHour > 0
    ensures var exact := Price(hours - plan.includedCpuCoreHours, plan.overageCpuCentsHour);
            var slack := Price(0.005, plan.overageCpuCentsHour);
            exact - slack - 1.0 < Overage(plan, hours) as real <= exact + slack
  {
    var extra, rate := hours - plan.includedCpuCoreHours, plan.overageCpuCentsHour;
    var q := Round2(extra);
    Round2Near(extra);
    PriceMonotone(extra - 0.005, q, rate);
    PriceMonotone(q, extra + 0.005, rate);
    TruncateNear(Price(q, rate));
    PriceSplits(extra, 0.005, rate);
  }

  lemma PriceSplits(a: real, b: real, rate: int)
    ensures Price(a + b, rate) == Price(a, rate) + Price(b, rate)
    ensures Price(a - b, rate) == Price(a, rate) - Price(b, rate)
  {
  }

  /** The whole invoice: at least the base, monotone in CPU hours, blind to build minutes. */
  method CompareInvoices(org: string, plan: Plan, start: real, end: real, m1: real, m2: real, h1: real, h2: real)
    returns (a: Invoice, b: Invoice)
    requires h1 <= h2
    ensures plan.monthlyBaseCents <= a.totalCents <= b.totalCents
    ensures h1 == h2 ==> a.totalCents == b.totalCents
  {
    a := AggregateInvoice(org, plan, start, end, m1, h1);
    b := AggregateInvoice(org, plan, start, end, m2, h2);
    OverageNonNegative(plan, h1);
    OverageMonotone(plan, h1, h2);
  }
}
