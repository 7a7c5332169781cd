/**
 Word alignment: the two-row table of `align` in packages/evals/src/uaagro_evals/wer.py, proved to
 report the counts of one particular cheapest edit script, and the metric its error count forms.

 Words are an abstract type with equality; folding and splitting a transcript into words is not
 part of this model.
 */
module WordAlignment {
  import opened EditScripts

  /** One table entry: the cost and the three counts that travel with it. */
  datatype Entry = Entry(cost: nat, counts: Counts)

  datatype Alignment = Alignment(substitutions: nat, deletions: nat, insertions: nat, referenceLength: nat) {
    function Errors(): nat {
      substitutions + deletions + insertions
    }

    /** Errors per reference word, uncapped; an empty reference counts its insertions. */
    function Wer(): real {
      if referenceLength == 0 then
        if insertions == 0 then 0.0 else insertions as real
      else
        Errors() as real / referenceLength as real
    }
  }

  /** The entry for the whole of `a` against the whole of `b`. */
  function Cell<T(==)>(a: seq<T>, b: seq<T>): Entry
    decreases |a| + |b|
  {
    if a == [] then Entry(|b|, Counts(0, 0, |b|))
    else if b == [] then Entry(|a|, Counts(0, |a|, 0))
    else
      Choose(a[|a| - 1] == b[|b| - 1],
             Cell(a[..|a| - 1], b[..|b| - 1]), Cell(a[..|a| - 1], b), Cell(a, b[..|b| - 1]))
  }

  /** One table step from the diagonal, upper and left neighbours. */
  function Choose(same: bool, diagonal: Entry, up: Entry, left: Entry): Entry {
    if same then diagonal
    else
      var best := Min(diagonal.cost, Min(up.cost, left.cost));
      if best == diagonal.cost then
        Entry(best + 1, diagonal.counts.(subs := diagonal.counts.subs + 1))
      else if best == up.cost then
        Entry(best + 1, up.counts.(dels := up.counts.dels + 1))
      else
        Entry(best + 1, left.counts.(ins := left.counts.ins + 1))
  }

  function Min(x: nat, y: nat): nat {
    if x <= y then x else y
  }

  /** The script whose counts the table carries. */
  function Backtrace<T(==)>(a: seq<T>, b: seq<T>): Script<T>
    decreases |a| + |b|
  {
    if a == [] && b == [] then Start
    else if a == [] then Ins(Backtrace(a, b[..|b| - 1]), b[|b| - 1])
    else if b == [] then Del(Backtrace(a[..|a| - 1], b), a[|a| - 1])
    else
      var (x, y) := (a[|a| - 1], b[|b| - 1]);
      var diagonal := Cell(a[..|a| - 1], b[..|b| - 1]).cost;
      var up := Cell(a[..|a| - 1], b).cost;
      var left := Cell(a, b[..|b| - 1]).cost;
      if x == y then Keep(Backtrace(a[..|a| - 1], b[..|b| - 1]), x)
      else if diagonal <= up && diagonal <= left then Sub(Backtrace(a[..|a| - 1], b[..|b| - 1]), x, y)
      else if up <= left then Del(Backtrace(a[..|a| - 1], b), x)
      else Ins(Backtrace(a, b[..|b| - 1]), y)
  }

  lemma {:induction false} BacktraceSpans<T>(a: seq<T>, b: seq<T>)
    ensures Between(Backtrace(a, b), a, b)
    decreases |a| + |b|
  {
    var s := Backtrace(a, b);
    assert a != [] ==> a[..|a| - 1] + [a[|a| - 1]] == a;
    assert b != [] ==> b[..|b| - 1] + [b[|b| - 1]] == b;
    match s
    case Start =>
    case Keep(_, _) => BacktraceSpans(a[..|a| - 1], b[..|b| - 1]);
    case Sub(_, _, _) => BacktraceSpans(a[..|a| - 1], b[..|b| - 1]);
    case Del(_, _) => BacktraceSpans(a[..|a| - 1], b);
    case Ins(_, _) => BacktraceSpans(a, b[..|b| - 1]);
  }

  lemma {:induction false} BacktraceCounts<T>(a: seq<T>, b: seq<T>)
    ensures CountsOf(Backtrace(a, b)) == Cell(a, b).counts
    ensures Cell(a, b).cost == Cell(a, b).counts.Errors()
    decreases |a| + |b|
  {
    var s := Backtrace(a, b);
    match s
    case Start =>
    case Keep(_, _) => BacktraceCounts(a[..|a| - 1], b[..|b| - 1]);
    case Sub(_, _, _) => BacktraceCounts(a[..|a| - 1], b[..|b| - 1]);
    case Del(_, _) => BacktraceCounts(a[..|a| - 1], b);
    case Ins(_, _) => BacktraceCounts(a, b[..|b| - 1]);
  }

  /**
   Neighbouring entries differ by at most one. This is what makes the unconditional diagonal step
   on equal words safe.
   */
  lemma {:induction false} NeighboursDifferByOne<T>(a: seq<T>, b: seq<T>)
    ensures a != [] ==> Cell(a[..|a| - 1], b).cost <= Cell(a, b).cost + 1
    ensures a != [] ==> Cell(a, b).cost <= Cell(a[..|a| - 1], b).cost + 1
    ensures b != [] ==> Cell(a, b[..|b| - 1]).cost <= Cell(a, b).cost + 1
    ensures b != [] ==> Cell(a, b).cost <= Cell(a, b[..|b| - 1]).cost + 1
    decreases |a| + |b|
  {
    if a != [] && b != [] {
      NeighboursDifferByOne(a[..|a| - 1], b);
      NeighboursDifferByOne(a, b[..|b| - 1]);
    }
  }

  /** No script between the two sequences costs less than the table says. */
  lemma {:induction false} NoCheaperScript<T>(s: Script<T>, a: seq<T>, b: seq<T>)
    requires Between(s, a, b)
    ensures Cell(a, b).cost <= Cost(s)
    decreases s
  {
    if s.Start? {
    } else {
      NoCheaperScript(s.init, Source(s.init), Target(s.init));
      NeighboursDifferByOne(a, b);
      if s.Keep? || s.Sub? {
        assert a[..|a| - 1] == Source(s.init) && b[..|b| - 1] == Target(s.init);
      } else if s.Del? {
        assert a[..|a| - 1] == Source(s.init);
      } else {
        assert b[..|b| - 1] == Target(s.init);
      }
    }
  }

  lemma BacktraceIsOptimal<T(!new)>(a: seq<T>, b: seq<T>)
    ensures Optimal(Backtrace(a, b))
    ensures Between(Backtrace(a, b), a, b)
    ensures Cost(Backtrace(a, b)) == Cell(a, b).cost
  {
    BacktraceSpans(a, b);
    BacktraceCounts(a, b);
    forall t: Script<T> | Between(t, a, b)
      ensures Cell(a, b).cost <= Cost(t)
    {
      NoCheaperScript(t, a, b);
    }
  }

  /** A cheapest script that ends in a substitution leaves a cheapest prefix on the diagonal. */
  lemma EndsInSub<T(!new)>(t: Script<T>, a: seq<T>, b: seq<T>)
    requires t.Sub? && Between(t, a, b)
    ensures a != [] && b != [] && Cell(a[..|a| - 1], b[..|b| - 1]).cost + 1 <= Cost(t)
  {
    assert a[..|a| - 1] == Source(t.init) && b[..|b| - 1] == Target(t.init);
    NoCheaperScript(t.init, a[..|a| - 1], b[..|b| - 1]);
  }

  lemma EndsInDel<T(!new)>(t: Script<T>, a: seq<T>, b: seq<T>)
    requires t.Del? && Between(t, a, b)
    ensures a != [] && Cell(a[..|a| - 1], b).cost + 1 <= Cost(t)
  {
    assert a[..|a| - 1] == Source(t.init);
    NoCheaperScript(t.init, a[..|a| - 1], b);
  }

  /** With different last words and a dearer diagonal, no cheapest script substitutes last. */
  lemma NoCheapestSub<T(!new)>(s: Script<T>, a: seq<T>, b: seq<T>)
    requires Between(s, a, b)
    requires a != [] && b != [] ==> Cost(s) <= Cell(a[..|a| - 1], b[..|b| - 1]).cost
    ensures !CanEndInSub(s)
  {
    forall t: Script<T> | t.Sub? && Optimal(t) && Between(t, Source(s), Target(s))
      ensures false
    {
      EndsInSub(t, a, b);
    }
  }

  lemma NoCheapestDel<T(!new)>(s: Script<T>, a: seq<T>, b: seq<T>)
    requires Between(s, a, b)
    requires a != [] ==> Cost(s) <= Cell(a[..|a| - 1], b).cost
    ensures !CanEndInDel(s)
  {
    forall t: Script<T> | t.Del? && Optimal(t) && Between(t, Source(s), Target(s))
      ensures false
    {
      EndsInDel(t, a, b);
    }
  }

  lemma {:induction false} BacktraceIsPreferred<T(!new)>(a: seq<T>, b: seq<T>)
    ensures Preferred(Backtrace(a, b))
    decreases |a| + |b|
  {
    var s := Backtrace(a, b);
    BacktraceIsOptimal(a, b);
    match s
    case Start =>
    case Keep(_, _) => BacktraceIsPreferred(a[..|a| - 1], b[..|b| - 1]);
    case Sub(_, _, _) => BacktraceIsPreferred(a[..|a| - 1], b[..|b| - 1]);
    case Del(_, _) =>
      BacktraceIsPreferred(a[..|a| - 1], b);
      NoCheapestSub(s, a, b);
    case Ins(_, _) =>
      BacktraceIsPreferred(a, b[..|b| - 1]);
      NoCheapestSub(s, a, b);
      NoCheapestDel(s, a, b);
  }

  function AlignmentOf<T(==)>(reference: seq<T>, hypothesis: seq<T>): Alignment {
    var c := Cell(reference, hypothesis).counts;
    Alignment(c.subs, c.dels, c.ins, |reference|)
  }

  ghost predicate Reports<T>(r: Alignment, s: Script<T>) {
    CountsOf(s) == Counts(r.substitutions, r.deletions, r.insertions)
  }

  /** `r` reports the counts of a preferred script from `a` to `b`. */
  ghost predicate ReportsPreferred<T(!new)>(r: Alignment, a: seq<T>, b: seq<T>) {
    exists s: Script<T> :: Between(s, a, b) && Preferred(s) && Reports(r, s)
  }

  ghost predicate NoneCheaper<T(!new)>(r: Alignment, a: seq<T>, b: seq<T>) {
    forall t: Script<T> :: Between(t, a, b) ==> r.Errors() <= Cost(t)
  }

  lemma AlignmentIsPreferred<T(!new)>(a: seq<T>, b: seq<T>)
    ensures ReportsPreferred(AlignmentOf(a, b), a, b)
  {
    BacktraceSpans(a, b);
    BacktraceCounts(a, b);
    BacktraceIsPreferred(a, b);
    var s := Backtrace(a, b);
    assert Reports(AlignmentOf(a, b), s);
  }

  lemma AlignmentIsCheapest<T(!new)>(a: seq<T>, b: seq<T>)
    ensures NoneCheaper(AlignmentOf(a, b), a, b)
  {
    BacktraceCounts(a, b);
    forall t: Script<T> | Between(t, a, b)
      ensures AlignmentOf(a, b).Errors() <= Cost(t)
    {
      NoCheaperScript(t, a, b);
    }
  }

  /** A report of a preferred script is the only such report: the tie-break leaves no choice. */
  lemma PreferredReportIsUnique<T(!new)>(r: Alignment, a: seq<T>, b: seq<T>)
    requires ReportsPreferred(r, a, b) && r.referenceLength == |a|
    ensures r == AlignmentOf(a, b)
  {
    BacktraceSpans(a, b);
    BacktraceCounts(a, b);
    BacktraceIsPreferred(a, b);
    var s: Script<T> :| Between(s, a, b) && Preferred(s) && Reports(r, s);
    PreferredIsUnique(s, Backtrace(a, b));
  }

  lemma CellAtPrefixes<T>(a: seq<T>, b: seq<T>, i: nat, j: nat)
    requires 0 < i <= |a| && 0 < j <= |b|
    ensures Cell(a[..i], b[..j])
         == Choose(a[i - 1] == b[j - 1],
                   Cell(a[..i - 1], b[..j - 1]), Cell(a[..i - 1], b[..j]), Cell(a[..i], b[..j - 1]))
  {
    assert a[..i][..i - 1] == a[..i - 1] && b[..j][..j - 1] == b[..j - 1];
  }

  ghost predicate IsRow<T>(row: seq<Entry>, a: seq<T>, b: seq<T>) {
    |row| <= |b| + 1 && forall j :: 0 <= j < |row| ==> row[j] == Cell(a, b[..j])
  }

  lemma RowGrows<T>(previous: seq<Entry>, current: seq<Entry>, next: Entry, a: seq<T>, b: seq<T>, i: nat)
    requires 0 < i <= |a| && 0 < |current| <= |b| && |previous| == |b| + 1
    requires IsRow(previous, a[..i - 1], b) && IsRow(current, a[..i], b)
    requires var j := |current|;
      next == Choose(a[i - 1] == b[j - 1], previous[j - 1], previous[j], current[j - 1])
    ensures IsRow(current + [next], a[..i], b)
  {
    CellAtPrefixes(a, b, i, |current|);
  }

  /** The alignment loop: two rows of the table, one entry at a time. */
  method Align<T(==, !new)>(reference: seq<T>, hypothesis: seq<T>) returns (r: Alignment)
    ensures ReportsPreferred(r, reference, hypothesis)
    ensures NoneCheaper(r, reference, hypothesis)
    ensures r == AlignmentOf(reference, hypothesis)
  {
    var previous: seq<Entry> := seq(|hypothesis| + 1, j requires 0 <= j => Entry(j, Counts(0, 0, j)));
    for i := 1 to |reference| + 1
      invariant |previous| == |hypothesis| + 1
      invariant IsRow(previous, reference[..i - 1], hypothesis)
    {
      var current := [Entry(i, Counts(0, i, 0))];
      for j := 1 to |hypothesis| + 1
        invariant |current| == j
        invariant IsRow(current, reference[..i], hypothesis)
      {
        var entry;
        if reference[i - 1] == hypothesis[j - 1] {
          entry := previous[j - 1];
        } else {
          var diagonal, up, left := previous[j - 1], previous[j], current[j - 1];
          var best := Min(diagonal.cost, Min(up.cost, left.cost));
          if best == diagonal.cost {
            entry := Entry(best + 1, diagonal.counts.(subs := diagonal.counts.subs + 1));
          } else if best == up.cost {
            entry := Entry(best + 1, up.counts.(dels := up.counts.dels + 1));
          } else {
            entry := Entry(best + 1, left.counts.(ins := left.counts.ins + 1));
          }
        }
        RowGrows(previous, current, entry, reference, hypothesis, i);
        current := current + [entry];
      }
      previous := current;
    }
    assert reference[..|reference|] == reference && hypothesis[..|hypothesis|] == hypothesis;
    var counts := previous[|previous| - 1].counts;
    r := Alignment(counts.subs, counts.dels, counts.ins, |reference|);
    AlignmentIsPreferred(reference, hypothesis);
    AlignmentIsCheapest(reference, hypothesis);
  }

  // ----- what the error count means

  function Distance<T(==)>(a: seq<T>, b: seq<T>): nat {
    AlignmentOf(a, b).Errors()
  }

  lemma DistanceIsCost<T>(a: seq<T>, b: seq<T>)
    ensures Distance(a, b) == Cell(a, b).cost
  {
  }

  lemma {:induction false} DistanceIsLeastCost<T(!new)>(s: Script<T>)
    ensures Distance(Source(s), Target(s)) <= Cost(s)
  {
    BacktraceCounts(Source(s), Target(s));
    NoCheaperScript(s, Source(s), Target(s));
  }

  /** The error count is a metric on word sequences. */
  lemma DistanceIsMetric<T(!new)>(a: seq<T>, b: seq<T>, c: seq<T>)
    ensures Distance(a, b) == 0 <==> a == b
    ensures Distance(a, b) == Distance(b, a)
    ensures Distance(a, c) <= Distance(a, b) + Distance(b, c)
  {
    var ab, ba, bc := Backtrace(a, b), Backtrace(b, a), Backtrace(b, c);
    BacktraceIsOptimal(a, b);
    BacktraceIsOptimal(b, a);
    BacktraceIsOptimal(b, c);
    DistanceIsCost(a, b);
    DistanceIsCost(b, a);
    DistanceIsCost(b, c);
    if Distance(a, b) == 0 {
      FreeMeansEqual(ab);
    }
    if a == b {
      DistanceIsLeastCost(KeepAll(a));
    }
    FlipSwaps(ab);
    DistanceIsLeastCost(Flip(ab));
    FlipSwaps(ba);
    DistanceIsLeastCost(Flip(ba));
    DistanceIsLeastCost(Compose(ab, bc));
  }

  /** The counts balance the lengths and the total lies between the usual two bounds. */
  lemma CountsBalance<T(!new)>(a: seq<T>, b: seq<T>)
    ensures var r := AlignmentOf(a, b);
      && |a| - r.deletions + r.insertions == |b|
      && r.substitutions + r.deletions <= |a|
      && r.substitutions + r.insertions <= |b|
      && |a| - |b| <= r.Errors() && |b| - |a| <= r.Errors()
      && r.Errors() <= (if |a| < |b| then |b| else |a|)
  {
    BacktraceSpans(a, b);
    BacktraceCounts(a, b);
    LengthBalance(Backtrace(a, b));
    OverwriteSpans(a, b);
    DistanceIsLeastCost(Overwrite(a, b));
  }
}
