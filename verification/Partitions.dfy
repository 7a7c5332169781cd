/**
 Monthly range partitions, packages/db/src/uaagro_db/partitions.py: the months around an anchor, the
 partitions planned for them, and the job that creates what is missing. Years are not negative.
 */
module Partitions {
  const MONTHS_AHEAD := 3
  const MONTHS_BEHIND := 3

  /** Month 1 to 12, day 1 to 31. */
  datatype Date = Date(year: int, month: int, day: int) {
    predicate Valid() {
      1 <= month <= 12 && 1 <= day <= 31
    }

    predicate Before(other: Date) {
      || year < other.year
      || (year == other.year && month < other.month)
      || (year == other.year && month == other.month && day < other.day)
    }
  }

  /** Months counted from year zero. */
  function MonthIndex(d: Date): int {
    d.year * 12 + (d.month - 1)
  }

  datatype Partition = Partition(parent: string, year: int, month: int) {
    function Start(): Date {
      Date(year, month, 1)
    }

    function End(): Date {
      if month == 12 then Date(year + 1, 1, 1) else Date(year, month + 1, 1)
    }

    predicate Holds(d: Date) {
      !d.Before(Start()) && d.Before(End())
    }

    function Name(): string
      requires year >= 0 && 1 <= month <= 12
    {
      parent + "_p" + Padded(year, 4) + "_" + Padded(month, 2)
    }
  }

  // ----- decimal numerals

  function Digit(n: nat): char
    requires n < 10
  {
    '0' + n as char
  }

  function Decimal(n: nat): string {
    if n < 10 then [Digit(n)] else Decimal(n / 10) + [Digit(n % 10)]
  }

  function Zeros(n: nat): string {
    if n == 0 then "" else "0" + Zeros(n - 1)
  }

  function Padded(n: nat, width: nat): string {
    var d := Decimal(n);
    if |d| >= width then d else Zeros(width - |d|) + d
  }

  function ValueOf(s: string): nat {
    if s == "" then 0
    else ValueOf(s[..|s| - 1]) * 10 + if '0' <= s[|s| - 1] <= '9' then (s[|s| - 1] - '0') as nat else 0
  }

  lemma {:induction false} DecimalReadsBack(n: nat)
    ensures ValueOf(Decimal(n)) == n && AllDigits(Decimal(n))
  {
    if n >= 10 {
      DecimalReadsBack(n / 10);
      assert Decimal(n)[..|Decimal(n)| - 1] == Decimal(n / 10);
    } else {
      assert [Digit(n)][..0] == "";
    }
  }

  lemma {:induction false} ZerosAddNothing(n: nat, s: string)
    ensures ValueOf(Zeros(n) + s) == ValueOf(s)
    ensures |Zeros(n)| == n && forall k :: 0 <= k < n ==> Zeros(n)[k] == '0'
    decreases n, |s|
  {
    if s == "" {
      assert Zeros(n) + s == Zeros(n);
      if n > 0 {
        ZerosAddNothing(n - 1, "");
        AllZeros(Zeros(n));
      }
    } else {
      ZerosAddNothing(n, s[..|s| - 1]);
      assert (Zeros(n) + s)[..|Zeros(n) + s| - 1] == Zeros(n) + s[..|s| - 1];
    }
  }

  lemma {:induction false} AllZeros(s: string)
    requires forall k :: 0 <= k < |s| ==> s[k] == '0'
    ensures ValueOf(s) == 0
  {
    if s != "" {
      AllZeros(s[..|s| - 1]);
    }
  }

  predicate AllDigits(s: string) {
    forall k :: 0 <= k < |s| ==> '0' <= s[k] <= '9'
  }

  lemma PaddingKeeps(n: nat, s: string)
    requires AllDigits(s)
    ensures ValueOf(Zeros(n) + s) == ValueOf(s) && |Zeros(n) + s| == n + |s| && AllDigits(Zeros(n) + s)
  {
    ZerosAddNothing(n, s);
  }

  lemma PaddedReadsBack(n: nat, width: nat)
    ensures ValueOf(Padded(n, width)) == n && |Padded(n, width)| >= width && AllDigits(Padded(n, width))
  {
    DecimalReadsBack(n);
    if |Decimal(n)| < width {
      PaddingKeeps(width - |Decimal(n)|, Decimal(n));
    }
  }

  // ----- the plan

  /** The months from `behind` before the anchor to `ahead` after it. */
  method MonthOffsets(anchor: Date, behind: nat, ahead: nat) returns (months: seq<(int, int)>)
    requires anchor.Valid()
    ensures |months| == behind + ahead + 1
    ensures forall k :: 0 <= k < |months| ==>
      months[k].0 * 12 + (months[k].1 - 1) == MonthIndex(anchor) - behind + k && 1 <= months[k].1 <= 12
    ensures months == MonthsAround(anchor, behind, ahead)
  {
    months := [];
    var total := anchor.year * 12 + (anchor.month - 1);
    var first: int := -(behind as int);
    for offset := first to ahead + 1
      invariant |months| == offset + behind
      invariant forall k :: 0 <= k < |months| ==> months[k] == MonthAt(total - behind + k)
    {
      var value := total + offset;
      months := months + [(value / 12, value % 12 + 1)];
    }
  }

  function MonthAt(index: int): (int, int) {
    (index / 12, index % 12 + 1)
  }

  function MonthsAround(anchor: Date, behind: nat, ahead: nat): seq<(int, int)> {
    seq(behind + ahead + 1, k requires 0 <= k => MonthAt(MonthIndex(anchor) - behind + k))
  }

  function PlanFor(parent: string, months: seq<(int, int)>): seq<Partition> {
    seq(|months|, k requires 0 <= k < |months| => Partition(parent, months[k].0, months[k].1))
  }

  function Plan(parents: seq<string>, months: seq<(int, int)>): seq<Partition> {
    if parents == [] then [] else PlanFor(parents[0], months) + Plan(parents[1..], months)
  }

  predicate Planned(p: Partition, parents: seq<string>, anchor: Date, behind: nat, ahead: nat) {
    && p.parent in parents && 1 <= p.month <= 12
    && MonthIndex(anchor) - behind <= MonthIndex(p.Start()) <= MonthIndex(anchor) + ahead
  }

  lemma MonthAtIndex(index: int)
    ensures var (y, m) := MonthAt(index);
      1 <= m <= 12 && MonthIndex(Date(y, m, 1)) == index
  {
  }

  lemma MonthAtInverse(y: int, m: int)
    requires 1 <= m <= 12
    ensures MonthAt(MonthIndex(Date(y, m, 1))) == (y, m)
  {
  }

  lemma PlanForIsTheWindow(parent: string, anchor: Date, behind: nat, ahead: nat, p: Partition)
    requires anchor.Valid()
    ensures p in PlanFor(parent, MonthsAround(anchor, behind, ahead)) <==> Planned(p, [parent], anchor, behind, ahead)
  {
    var months := MonthsAround(anchor, behind, ahead);
    var here := PlanFor(parent, months);
    var first := MonthIndex(anchor) - behind;
    if p in here {
      var k :| 0 <= k < |here| && here[k] == p;
      MonthAtIndex(first + k);
    }
    if Planned(p, [parent], anchor, behind, ahead) {
      var k := MonthIndex(p.Start()) - first;
      MonthAtInverse(p.year, p.month);
      assert here[k] == p;
    }
  }

  lemma {:induction false} PlanIsTheWindow(parents: seq<string>, anchor: Date, behind: nat, ahead: nat, p: Partition)
    requires anchor.Valid()
    ensures p in Plan(parents, MonthsAround(anchor, behind, ahead)) <==> Planned(p, parents, anchor, behind, ahead)
  {
    if parents != [] {
      PlanForIsTheWindow(parents[0], anchor, behind, ahead, p);
      PlanIsTheWindow(parents[1..], anchor, behind, ahead, p);
      assert parents == [parents[0]] + parents[1..];
    }
  }

  // ----- tiling

  /** Consecutive planned ranges meet: no gap and no overlap. */
  lemma RangesMeet(parent: string, index: int)
    ensures var (y, m) := MonthAt(index);
      var (y', m') := MonthAt(index + 1);
      Partition(parent, y, m).End() == Partition(parent, y', m').Start()
  {
  }

  /** Every date of the window lies in exactly one planned partition of a table, and no other date in any. */
  lemma WindowIsTiled(parents: seq<string>, parent: string, anchor: Date, behind: nat, ahead: nat, d: Date)
    requires anchor.Valid() && d.Valid() && parent in parents
    ensures var plan := Plan(parents, MonthsAround(anchor, behind, ahead));
      && (MonthIndex(anchor) - behind <= MonthIndex(d) <= MonthIndex(anchor) + ahead <==>
            exists p :: p in plan && p.parent == parent && p.Holds(d))
      && forall p, q :: p in plan && q in plan && p.parent == parent && q.parent == parent && p.Holds(d) && q.Holds(d)
           ==> p == q
  {
    var plan := Plan(parents, MonthsAround(anchor, behind, ahead));
    var mine := Partition(parent, d.year, d.month);
    PlanIsTheWindow(parents, anchor, behind, ahead, mine);
    forall p | p in plan && p.parent == parent && p.Holds(d)
      ensures p == mine
    {
      PlanIsTheWindow(parents, anchor, behind, ahead, p);
    }
  }

  // ----- names

  lemma SplitEnd(a: string, b: string, x: string, y: string)
    requires a + x == b + y && |x| == |y|
    ensures a == b && x == y
  {
    assert |a| == |b|;
    assert a == (a + x)[..|a|] && b == (b + y)[..|b|];
    assert x == (a + x)[|a|..] && y == (b + y)[|b|..];
  }

  lemma MarkBefore(a: string, x: string)
    ensures var w := a + "_p" + x;
      |w| > |x| && w[|w| - |x| - 1] == 'p'
  {
  }

  lemma SameNumeral(a: string, b: string, x: string, y: string)
    requires a + "_p" + x == b + "_p" + y && |x| <= |y|
    requires AllDigits(y)
    ensures |x| == |y|
  {
    MarkBefore(a, x);
    var w := b + "_p" + y;
    assert w == a + "_p" + x;
    assert forall k :: 0 <= k < |y| ==> w[|w| - |y| + k] == y[k];
  }

  lemma TwoDigitMonth(m: nat)
    requires 1 <= m <= 12
    ensures |Padded(m, 2)| == 2
  {
    if m >= 10 {
      assert Decimal(m) == Decimal(m / 10) + [Digit(m % 10)] && Decimal(m / 10) == [Digit(m / 10)];
    }
  }

  /** Different partitions have different names, whatever the tables are called. */
  lemma NamesAreDistinct(p: Partition, q: Partition)
    requires p.year >= 0 && 1 <= p.month <= 12 && q.year >= 0 && 1 <= q.month <= 12
    ensures p.Name() == q.Name() <==> p == q
  {
    if p.Name() == q.Name() {
      var (y, y') := (Padded(p.year, 4), Padded(q.year, 4));
      var (m, m') := (Padded(p.month, 2), Padded(q.month, 2));
      PaddedReadsBack(p.year, 4);
      PaddedReadsBack(q.year, 4);
      PaddedReadsBack(p.month, 2);
      PaddedReadsBack(q.month, 2);
      TwoDigitMonth(p.month);
      TwoDigitMonth(q.month);
      SplitEnd(p.parent + "_p" + y + "_", q.parent + "_p" + y' + "_", m, m');
      SplitEnd(p.parent + "_p" + y, q.parent + "_p" + y', "_", "_");
      if |y| <= |y'| {
        SameNumeral(p.parent, q.parent, y, y');
      } else {
        SameNumeral(q.parent, p.parent, y', y);
      }
      SplitEnd(p.parent + "_p", q.parent + "_p", y, y');
      SplitEnd(p.parent, q.parent, "_p", "_p");
    }
  }

  // ----- the job

  predicate Nameable(p: Partition) {
    p.year >= 0 && 1 <= p.month <= 12
  }

  /** Every table stands under its own name. */
  ghost predicate Sound(tables: map<string, Partition>) {
    forall n :: n in tables ==> Nameable(tables[n]) && tables[n].Name() == n
  }

  ghost predicate Has(tables: map<string, Partition>, p: Partition) {
    Nameable(p) && p.Name() in tables && tables[p.Name()] == p
  }

  function Ensured(tables: map<string, Partition>, plan: seq<Partition>): map<string, Partition>
    requires forall p :: p in plan ==> Nameable(p)
  {
    if plan == [] then tables
    else
      assert plan[|plan| - 1] in plan && Nameable(plan[|plan| - 1]);
      var before := Ensured(tables, plan[..|plan| - 1]);
      var p := plan[|plan| - 1];
      if p.Name() in before then before else before[p.Name() := p]
  }

  function Created(tables: map<string, Partition>, plan: seq<Partition>): seq<string>
    requires forall p :: p in plan ==> Nameable(p)
  {
    if plan == [] then []
    else
      assert plan[|plan| - 1] in plan && Nameable(plan[|plan| - 1]);
      var p := plan[|plan| - 1];
      Created(tables, plan[..|plan| - 1]) + if p.Name() in Ensured(tables, plan[..|plan| - 1]) then [] else [p.Name()]
  }

  lemma OneMorePlanned(tables: map<string, Partition>, plan: seq<Partition>, i: nat)
    requires i < |plan| && (forall p :: p in plan ==> Nameable(p)) && Nameable(plan[i])
    ensures plan[i] in plan
    ensures var (before, name) := (Ensured(tables, plan[..i]), plan[i].Name());
      && Ensured(tables, plan[..i + 1]) == (if name in before then before else before[name := plan[i]])
      && Created(tables, plan[..i + 1]) == Created(tables, plan[..i]) + if name in before then [] else [name]
  {
    assert plan[i] in plan && plan[..i + 1][..i] == plan[..i];
  }

  class Catalogue {
    var tables: map<string, Partition>

    constructor ()
      ensures tables == map[]
    {
      tables := map[];
    }

    method EnsurePartitions(parents: seq<string>, anchor: Date, behind: nat, ahead: nat) returns (created: seq<string>)
      requires anchor.Valid() && MonthIndex(anchor) - behind >= 0
      modifies this
      ensures PlanIsNameable(parents, anchor, behind, ahead)
      ensures var plan := Plan(parents, MonthsAround(anchor, behind, ahead));
        tables == Ensured(old(tables), plan) && created == Created(old(tables), plan)
    {
      var months := MonthOffsets(anchor, behind, ahead);
      var plan := Plan(parents, months);
      PlansAreNameable(parents, anchor, behind, ahead);
      created := [];
      for i := 0 to |plan|
        invariant tables == Ensured(old(tables), plan[..i]) && created == Created(old(tables), plan[..i])
      {
        var p := plan[i];
        assert p in plan;
        OneMorePlanned(old(tables), plan, i);
        if p.Name() !in tables {
          tables := tables[p.Name() := p];
          created := created + [p.Name()];
        }
      }
      assert plan[..|plan|] == plan;
    }
  }

  ghost predicate PlanIsNameable(parents: seq<string>, anchor: Date, behind: nat, ahead: nat) {
    forall p :: p in Plan(parents, MonthsAround(anchor, behind, ahead)) ==> Nameable(p)
  }

  lemma PlansAreNameable(parents: seq<string>, anchor: Date, behind: nat, ahead: nat)
    requires anchor.Valid() && MonthIndex(anchor) - behind >= 0
    ensures PlanIsNameable(parents, anchor, behind, ahead)
  {
    forall p | p in Plan(parents, MonthsAround(anchor, behind, ahead))
      ensures Nameable(p)
    {
      PlanIsTheWindow(parents, anchor, behind, ahead, p);
    }
  }

  /** One partition more: created if its name is free, and otherwise there already. */
  lemma OneMoreHolds(before: map<string, Partition>, p: Partition)
    requires Sound(before) && Nameable(p)
    ensures var after := if p.Name() in before then before else before[p.Name() := p];
      Sound(after) && forall q :: Has(after, q) <==> Has(before, q) || q == p
  {
    var after := if p.Name() in before then before else before[p.Name() := p];
    if p.Name() in before {
      NamesAreDistinct(p, before[p.Name()]);
    }
    forall q
      ensures Has(after, q) <==> Has(before, q) || q == p
    {
      if Nameable(q) && q.Name() == p.Name() {
        NamesAreDistinct(p, q);
      }
    }
  }

  lemma {:induction false} EnsuredHolds(tables: map<string, Partition>, plan: seq<Partition>)
    requires Sound(tables) && forall p :: p in plan ==> Nameable(p)
    ensures Sound(Ensured(tables, plan))
    ensures forall p :: Has(Ensured(tables, plan), p) <==> Has(tables, p) || p in plan
  {
    if plan != [] {
      var n := |plan| - 1;
      assert plan[n] in plan;
      EnsuredHolds(tables, plan[..n]);
      OneMoreHolds(Ensured(tables, plan[..n]), plan[n]);
    }
  }

  /** A second run with the same window creates nothing and changes nothing. */
  lemma {:induction false} RerunCreatesNothing(tables: map<string, Partition>, plan: seq<Partition>)
    requires Sound(tables) && forall p :: p in plan ==> Nameable(p) && Has(tables, p)
    ensures Ensured(tables, plan) == tables && Created(tables, plan) == []
  {
    if plan != [] {
      assert plan[|plan| - 1] in plan;
      RerunCreatesNothing(tables, plan[..|plan| - 1]);
    }
  }

  lemma EnsuringTwice(tables: map<string, Partition>, plan: seq<Partition>)
    requires Sound(tables) && forall p :: p in plan ==> Nameable(p)
    ensures Ensured(Ensured(tables, plan), plan) == Ensured(tables, plan) && Created(Ensured(tables, plan), plan) == []
  {
    EnsuredHolds(tables, plan);
    RerunCreatesNothing(Ensured(tables, plan), plan);
  }

  // ----- runs at rising anchors

  /** The catalogue after runs at these anchors, starting from `tables`. */
  function AfterRuns(tables: map<string, Partition>, parents: seq<string>, anchors: seq<Date>, behind: nat, ahead: nat)
    : map<string, Partition>
    requires forall a :: a in anchors ==> a.Valid() && MonthIndex(a) - behind >= 0
  {
    if anchors == [] then tables
    else
      var last := anchors[|anchors| - 1];
      PlansAreNameable(parents, last, behind, ahead);
      Ensured(AfterRuns(tables, parents, anchors[..|anchors| - 1], behind, ahead),
              Plan(parents, MonthsAround(last, behind, ahead)))
  }

  lemma {:induction false} RunsStaySound(
    tables: map<string, Partition>, parents: seq<string>, anchors: seq<Date>, behind: nat, ahead: nat)
    requires Sound(tables) && forall a :: a in anchors ==> a.Valid() && MonthIndex(a) - behind >= 0
    ensures Sound(AfterRuns(tables, parents, anchors, behind, ahead))
  {
    if anchors != [] {
      var last := anchors[|anchors| - 1];
      RunsStaySound(tables, parents, anchors[..|anchors| - 1], behind, ahead);
      PlansAreNameable(parents, last, behind, ahead);
      EnsuredHolds(AfterRuns(tables, parents, anchors[..|anchors| - 1], behind, ahead),
                   Plan(parents, MonthsAround(last, behind, ahead)));
    }
  }

  /** A date lies in exactly one partition of a table. */
  ghost predicate HasOnePartition(tables: map<string, Partition>, parent: string, d: Date) {
    && (exists p :: Has(tables, p) && p.parent == parent && p.Holds(d))
    && (forall p, q | Has(tables, p) && Has(tables, q) ::
          p.parent == parent && q.parent == parent && p.Holds(d) && q.Holds(d) ==> p == q)
  }

  /**
   As long as the next run comes within `ahead` months of the last, every insert dated from the last
   run up to the next finds exactly one partition of its table.
   */
  lemma InsertsBetweenRunsLand(
    tables: map<string, Partition>, parents: seq<string>, anchors: seq<Date>, behind: nat, ahead: nat,
    parent: string, d: Date, next: Date)
    requires Sound(tables) && forall a :: a in anchors ==> a.Valid() && MonthIndex(a) - behind >= 0
    requires anchors != [] && parent in parents && d.Valid() && next.Valid()
    requires MonthIndex(next) <= MonthIndex(anchors[|anchors| - 1]) + ahead
    requires !d.Before(anchors[|anchors| - 1]) && !next.Before(d)
    ensures HasOnePartition(AfterRuns(tables, parents, anchors, behind, ahead), parent, d)
  {
    var last := anchors[|anchors| - 1];
    var plan := Plan(parents, MonthsAround(last, behind, ahead));
    RunsStaySound(tables, parents, anchors[..|anchors| - 1], behind, ahead);
    PlansAreNameable(parents, last, behind, ahead);
    EnsuredHolds(AfterRuns(tables, parents, anchors[..|anchors| - 1], behind, ahead), plan);
    var after := AfterRuns(tables, parents, anchors, behind, ahead);
    var mine := Partition(parent, d.year, d.month);
    PlanIsTheWindow(parents, last, behind, ahead, mine);
    assert Has(after, mine) && mine.Holds(d);
    forall p | Has(after, p) && p.parent == parent && p.Holds(d)
      ensures p == mine
    {
    }
  }

  /** With the months the job keeps, a date up to three months before or after the last run has its partition. */
  lemma ThreeMonthsAroundLand(
    tables: map<string, Partition>, parents: seq<string>, anchors: seq<Date>, parent: string, d: Date)
    requires Sound(tables) && forall a :: a in anchors ==> a.Valid() && MonthIndex(a) - MONTHS_BEHIND >= 0
    requires anchors != [] && parent in parents && d.Valid()
    requires -3 <= MonthIndex(d) - MonthIndex(anchors[|anchors| - 1]) <= 3
    ensures HasOnePartition(AfterRuns(tables, parents, anchors, MONTHS_BEHIND, MONTHS_AHEAD), parent, d)
  {
    var (before, last) := (anchors[..|anchors| - 1], anchors[|anchors| - 1]);
    RunsStaySound(tables, parents, before, MONTHS_BEHIND, MONTHS_AHEAD);
    PlansAreNameable(parents, last, MONTHS_BEHIND, MONTHS_AHEAD);
    EnsuredHolds(AfterRuns(tables, parents, before, MONTHS_BEHIND, MONTHS_AHEAD),
                 Plan(parents, MonthsAround(last, MONTHS_BEHIND, MONTHS_AHEAD)));
    var mine := Partition(parent, d.year, d.month);
    PlanIsTheWindow(parents, last, MONTHS_BEHIND, MONTHS_AHEAD, mine);
    assert Has(AfterRuns(tables, parents, anchors, MONTHS_BEHIND, MONTHS_AHEAD), mine) && mine.Holds(d);
  }

  /** A partition is named after its table, with the year in four digits and the month in two. */
  lemma NameIs(p: Partition)
    requires 1000 <= p.year <= 9999 && 1 <= p.month <= 12
    ensures p.Name() == p.parent + "_p"
      + [Digit(p.year / 1000), Digit(p.year / 100 % 10), Digit(p.year / 10 % 10), Digit(p.year % 10)]
      + "_" + [Digit(p.month / 10), Digit(p.month % 10)]
  {
    FourDigits(p.year);
    TwoDigits(p.month);
  }

  lemma FourDigits(n: nat)
    requires 1000 <= n <= 9999
    ensures Padded(n, 4) == [Digit(n / 1000), Digit(n / 100 % 10), Digit(n / 10 % 10), Digit(n % 10)]
  {
    assert Decimal(n / 1000) == [Digit(n / 1000)];
    assert n / 100 / 10 == n / 1000 && n / 10 / 10 == n / 100;
    assert Decimal(n / 100) == [Digit(n / 1000), Digit(n / 100 % 10)];
    assert Decimal(n / 10) == [Digit(n / 1000), Digit(n / 100 % 10), Digit(n / 10 % 10)];
  }

  lemma TwoDigits(n: nat)
    requires 1 <= n <= 12
    ensures Padded(n, 2) == [Digit(n / 10), Digit(n % 10)]
  {
    if n < 10 {
      assert Zeros(1) == "0" && Decimal(n) == [Digit(n)];
      assert "0" + [Digit(n)] == [Digit(0), Digit(n)];
    } else {
      assert Decimal(n / 10) == [Digit(n / 10)];
    }
  }

  /** With the months the job keeps, runs at most three months apart leave no insert without its partition. */
  lemma QuarterlyRunsSuffice(
    tables: map<string, Partition>, parents: seq<string>, anchors: seq<Date>, parent: string, d: Date, next: Date)
    requires Sound(tables) && forall a :: a in anchors ==> a.Valid() && MonthIndex(a) - MONTHS_BEHIND >= 0
    requires anchors != [] && parent in parents && d.Valid() && next.Valid()
    requires MonthIndex(next) - MonthIndex(anchors[|anchors| - 1]) <= 3
    requires !d.Before(anchors[|anchors| - 1]) && !next.Before(d)
    ensures HasOnePartition(AfterRuns(tables, parents, anchors, MONTHS_BEHIND, MONTHS_AHEAD), parent, d)
  {
    InsertsBetweenRunsLand(tables, parents, anchors, MONTHS_BEHIND, MONTHS_AHEAD, parent, d, next);
  }
}
