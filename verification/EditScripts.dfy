/**
 Edit scripts between two word sequences: an independent account of what an alignment means.

 A script is a snoc list, because the alignment table in packages/evals/src/uaagro_evals/wer.py is
 filled from prefixes: the cell (i, j) talks about the first i reference words and the first j
 hypothesis words.
 */
module EditScripts {

  datatype Script<T> =
    | Start
    | Keep(init: Script<T>, word: T)
    | Sub(init: Script<T>, was: T, now: T)
    | Del(init: Script<T>, was: T)
    | Ins(init: Script<T>, now: T)

  datatype Counts = Counts(subs: nat, dels: nat, ins: nat) {
    function Errors(): nat {
      subs + dels + ins
    }
  }

  /** The words a script reads. */
  function Source<T>(s: Script<T>): seq<T> {
    match s
    case Start => []
    case Keep(p, w) => Source(p) + [w]
    case Sub(p, a, _) => Source(p) + [a]
    case Del(p, a) => Source(p) + [a]
    case Ins(p, _) => Source(p)
  }

  /** The words a script writes. */
  function Target<T>(s: Script<T>): seq<T> {
    match s
    case Start => []
    case Keep(p, w) => Target(p) + [w]
    case Sub(p, _, b) => Target(p) + [b]
    case Del(p, _) => Target(p)
    case Ins(p, b) => Target(p) + [b]
  }

  function CountsOf<T>(s: Script<T>): Counts {
    match s
    case Start => Counts(0, 0, 0)
    case Keep(p, _) => CountsOf(p)
    case Sub(p, _, _) => var c := CountsOf(p); c.(subs := c.subs + 1)
    case Del(p, _) => var c := CountsOf(p); c.(dels := c.dels + 1)
    case Ins(p, _) => var c := CountsOf(p); c.(ins := c.ins + 1)
  }

  function Cost<T>(s: Script<T>): nat {
    CountsOf(s).Errors()
  }

  ghost predicate Between<T>(s: Script<T>, a: seq<T>, b: seq<T>) {
    Source(s) == a && Target(s) == b
  }

  ghost predicate Optimal<T(!new)>(s: Script<T>) {
    forall t: Script<T> :: Between(t, Source(s), Target(s)) ==> Cost(s) <= Cost(t)
  }

  /**
   The order in which ties are settled, told without any table: keep equal last words; otherwise
   substitute if some cheapest script substitutes last, otherwise delete if some cheapest script
   deletes last, otherwise insert.
   */
  ghost predicate Preferred<T(!new)>(s: Script<T>) {
    Optimal(s) &&
    match s
    case Start => true
    case Keep(p, _) => Preferred(p)
    case Sub(p, a, b) => a != b && Preferred(p)
    case Del(p, _) => Preferred(p) && !LastWordsEqual(s) && !CanEndInSub(s)
    case Ins(p, _) => Preferred(p) && !LastWordsEqual(s) && !CanEndInSub(s) && !CanEndInDel(s)
  }

  ghost predicate LastWordsEqual<T>(s: Script<T>) {
    var a, b := Source(s), Target(s);
    a != [] && b != [] && a[|a| - 1] == b[|b| - 1]
  }

  ghost predicate CanEndInSub<T(!new)>(s: Script<T>) {
    exists t: Script<T> :: t.Sub? && Optimal(t) && Between(t, Source(s), Target(s))
  }

  ghost predicate CanEndInDel<T(!new)>(s: Script<T>) {
    exists t: Script<T> :: t.Del? && Optimal(t) && Between(t, Source(s), Target(s))
  }

  lemma {:induction false} LengthBalance<T>(s: Script<T>)
    ensures |Source(s)| - CountsOf(s).dels + CountsOf(s).ins == |Target(s)|
    ensures CountsOf(s).subs + CountsOf(s).dels <= |Source(s)|
  {
    if !s.Start? {
      LengthBalance(s.init);
    }
  }

  /** Two preferred scripts between the same sequences are the same script. */
  lemma {:induction false} PreferredIsUnique<T(!new)>(s: Script<T>, t: Script<T>)
    requires Preferred(s) && Preferred(t)
    requires Source(s) == Source(t) && Target(s) == Target(t)
    ensures s == t
  {
    var a, b := Source(s), Target(s);
    match s
    case Start =>
      assert t.Start?;
    case Keep(p, w) =>
      assert a == Source(p) + [w] && b == Target(p) + [w];
      assert t.Keep? by { SameLastEdit(s, t); }
      assert Source(t.init) == a[..|a| - 1] == Source(p);
      assert Target(t.init) == b[..|b| - 1] == Target(p);
      PreferredIsUnique(p, t.init);
    case Sub(p, x, y) =>
      assert t.Sub? by { SameLastEdit(s, t); }
      assert Source(t.init) == a[..|a| - 1] == Source(p);
      assert Target(t.init) == b[..|b| - 1] == Target(p);
      PreferredIsUnique(p, t.init);
    case Del(p, x) =>
      assert t.Del? by { SameLastEdit(s, t); }
      assert Source(t.init) == a[..|a| - 1] == Source(p);
      PreferredIsUnique(p, t.init);
    case Ins(p, y) =>
      assert t.Ins? by { SameLastEdit(s, t); }
      assert Target(t.init) == b[..|b| - 1] == Target(p);
      PreferredIsUnique(p, t.init);
  }

  lemma SameLastEdit<T(!new)>(s: Script<T>, t: Script<T>)
    ensures Preferred(s) && Preferred(t) && Source(s) == Source(t) && Target(s) == Target(t) ==>
      && s.Start? == t.Start? && s.Keep? == t.Keep? && s.Sub? == t.Sub?
      && s.Del? == t.Del? && s.Ins? == t.Ins?
  {
    EndsOf(s);
    EndsOf(t);
  }

  lemma EndsOf<T>(s: Script<T>)
    ensures s.Keep? ==> LastWordsEqual(s)
    ensures s.Sub? && s.was != s.now ==> !LastWordsEqual(s)
    ensures s.Keep? || s.Sub? || s.Del? ==> Source(s) != []
    ensures s.Keep? || s.Sub? || s.Ins? ==> Target(s) != []
    ensures s.Start? ==> Source(s) == [] && Target(s) == []
  {
  }

  // ----- the three constructions behind the metric laws

  /** Reading a script backwards: deletions become insertions and the reverse. */
  function Flip<T>(s: Script<T>): Script<T> {
    match s
    case Start => Start
    case Keep(p, w) => Keep(Flip(p), w)
    case Sub(p, a, b) => Sub(Flip(p), b, a)
    case Del(p, a) => Ins(Flip(p), a)
    case Ins(p, b) => Del(Flip(p), b)
  }

  lemma {:induction false} FlipSwaps<T>(s: Script<T>)
    ensures Between(Flip(s), Target(s), Source(s))
    ensures CountsOf(Flip(s)) == Counts(CountsOf(s).subs, CountsOf(s).ins, CountsOf(s).dels)
  {
    if !s.Start? {
      FlipSwaps(s.init);
    }
  }

  function KeepAll<T>(a: seq<T>): (r: Script<T>)
    ensures Source(r) == a && Target(r) == a && Cost(r) == 0
  {
    if a == [] then Start else Keep(KeepAll(a[..|a| - 1]), a[|a| - 1])
  }

  lemma {:induction false} FreeMeansEqual<T>(s: Script<T>)
    ensures Cost(s) == 0 ==> Source(s) == Target(s)
  {
    if s.Keep? {
      FreeMeansEqual(s.init);
    }
  }

  /** Substitute over the common length, then delete or insert the rest. */
  function Overwrite<T>(a: seq<T>, b: seq<T>): Script<T>
    decreases |a| + |b|
  {
    if a == [] && b == [] then Start
    else if |a| > |b| then Del(Overwrite(a[..|a| - 1], b), a[|a| - 1])
    else if |a| < |b| then Ins(Overwrite(a, b[..|b| - 1]), b[|b| - 1])
    else Sub(Overwrite(a[..|a| - 1], b[..|b| - 1]), a[|a| - 1], b[|b| - 1])
  }

  lemma {:induction false} OverwriteSpans<T>(a: seq<T>, b: seq<T>)
    ensures Between(Overwrite(a, b), a, b)
    ensures Cost(Overwrite(a, b)) == if |a| < |b| then |b| else |a|
    decreases |a| + |b|
  {
    if a == [] && b == [] {
    } else if |a| > |b| {
      var a' := a[..|a| - 1];
      OverwriteSpans(a', b);
    } else if |a| < |b| {
      var b' := b[..|b| - 1];
      OverwriteSpans(a, b');
    } else {
      var (a', b') := (a[..|a| - 1], b[..|b| - 1]);
      OverwriteSpans(a', b');
    }
  }

  /** One script after another, never dearer than the two together. */
  function Compose<T(==)>(p: Script<T>, q: Script<T>): (r: Script<T>)
    requires Target(p) == Source(q)
    ensures Source(r) == Source(p) && Target(r) == Target(q)
    ensures Cost(r) <= Cost(p) + Cost(q)
    decreases p, q
  {
    if q.Ins? then
      Ins(Compose(p, q.init), q.now)
    else if p.Del? then
      Del(Compose(p.init, q), p.was)
    else if p.Start? || q.Start? then
      assert Target(p) == [] && Source(q) == [];
      Start
    else
      assert Target(p.init) == Target(p)[..|Target(p)| - 1] == Source(q.init);
      assert Written(p) == Target(p)[|Target(p)| - 1] == Read(q);
      var r := Compose(p.init, q.init);
      if p.Ins? && q.Del? then r
      else if p.Ins? then Ins(r, Written(q))
      else if q.Del? then Del(r, Read(p))
      else if Read(p) == Written(q) then Keep(r, Read(p))
      else Sub(r, Read(p), Written(q))
  }

  function Written<T>(s: Script<T>): T
    requires s.Keep? || s.Sub? || s.Ins?
  {
    if s.Keep? then s.word else s.now
  }

  function Read<T>(s: Script<T>): T
    requires s.Keep? || s.Sub? || s.Del?
  {
    if s.Keep? then s.word else s.was
  }
}
