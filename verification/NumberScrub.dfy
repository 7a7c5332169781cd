/**
 Why nothing that looks like a number survives replacement, although each replacement changes what
 stands before and after the text it leaves.
 */
module NumberScrub {
  import opened Wrappers
  import opened NumberPattern

  /**
   Characters no number can hold, then perhaps a few digits: none, or, for a pattern without
   separators between the digits, between three and nine.
   */
  ghost predicate HarmlessFrom(p: Pattern, r: string, cut: nat) {
    && 0 < cut <= |r|
    && (forall k :: 0 <= k < cut ==> p.Inert(r[k]))
    && (forall k :: cut <= k < |r| ==> p.digit(r[k]))
    && (cut < |r| ==> (forall c :: !p.bodySep(c)) && 3 <= |r| - cut < 10)
  }

  ghost predicate Harmless(p: Pattern, r: string) {
    r != "" && exists cut :: HarmlessFrom(p, r, cut)
  }

  ghost predicate HarmlessRule(p: Pattern, with: string -> string) {
    forall w :: p.IsRun(w) ==> Harmless(p, with(w))
  }

  /** The first position from `i` on where the matcher succeeds, or the end. */
  function NextMatch(p: Pattern, s: string, i: nat): nat
    requires i <= |s|
    decreases |s| - i
  {
    if i == |s| || p.Match(s, i).Some? then i else NextMatch(p, s, i + 1)
  }

  lemma CopiedOne(p: Pattern, with: string -> string, s: string, i: nat)
    requires i < |s| && p.Match(s, i) == None
    ensures Replaced(p, with, s, i) == [s[i]] + Replaced(p, with, s, i + 1)
    ensures NextMatch(p, s, i) == NextMatch(p, s, i + 1)
  {
  }

  lemma SliceHead(s: string, i: nat, m: nat)
    requires i < m <= |s|
    ensures s[i..m] == [s[i]] + s[i + 1..m]
  {
  }

  lemma SliceOfSlice(s: string, i: nat, m: nat, j: nat)
    requires i <= m <= |s| && j <= m - i
    ensures s[i..m][0..j] == s[i..i + j]
  {
  }

  lemma Prepend(c: char, a: string, b: string, ab: string)
    requires ab == a + b
    ensures [c] + ab == ([c] + a) + b
  {
  }

  lemma {:induction false} CopiedUpToMatch(p: Pattern, with: string -> string, s: string, i: nat)
    requires i <= |s|
    ensures var m := NextMatch(p, s, i);
      && i <= m <= |s| && (m < |s| ==> p.Match(s, m).Some?)
      && Replaced(p, with, s, i) == s[i..m] + Replaced(p, with, s, m)
    decreases |s| - i
  {
    if i < |s| && p.Match(s, i) == None {
      CopiedUpToMatch(p, with, s, i + 1);
      CopiedOne(p, with, s, i);
      var m := NextMatch(p, s, i + 1);
      Prepend(s[i], s[i + 1..m], Replaced(p, with, s, m), Replaced(p, with, s, i + 1));
      SliceHead(s, i, m);
    } else {
      assert s[i..i] == "";
    }
  }

  /** A match as it shows in the text: a run of ten digits with no digit on either side. */
  ghost predicate IsMatch(p: Pattern, s: string, i: nat, k: nat, e: nat) {
    && i <= k <= e <= |s| && i < e && p.IsRun(s[k..e])
    && p.digit(s[e - 1]) && (e < |s| ==> !p.digit(s[e])) && !(i > 0 && p.digit(s[i - 1]))
  }

  lemma MatchEdges(p: Pattern, s: string, i: nat) returns (k: nat, e: nat)
    requires p.Valid() && i <= |s| && p.Match(s, i).Some?
    ensures p.Match(s, i) == Some((k, e)) && IsMatch(p, s, i, k, e)
  {
    MatchIsOccurrence(p, s, i);
    k, e := p.Match(s, i).value.0, p.Match(s, i).value.1;
    RunShape(p, s[k..e]);
    assert s[k..e][e - k - 1] == s[e - 1];
  }

  lemma ReplacedAt(p: Pattern, with: string -> string, s: string, i: nat, k: nat, e: nat)
    requires i < |s| && p.Match(s, i) == Some((k, e)) && i < e <= |s| && k <= e
    ensures Replaced(p, with, s, i) == with(s[k..e]) + Replaced(p, with, s, e)
  {
  }

  lemma AtMatch(p: Pattern, with: string -> string, s: string, i: nat) returns (k: nat, e: nat, r: string, cut: nat)
    requires p.Valid() && HarmlessRule(p, with) && i < |s| && p.Match(s, i).Some?
    ensures IsMatch(p, s, i, k, e) && r == with(s[k..e]) && HarmlessFrom(p, r, cut)
    ensures Replaced(p, with, s, i) == r + Replaced(p, with, s, e)
  {
    k, e := MatchEdges(p, s, i);
    ReplacedAt(p, with, s, i, k, e);
    r := with(s[k..e]);
    assert Harmless(p, r);
    cut :| HarmlessFrom(p, r, cut);
  }

  lemma StartsInert(p: Pattern, with: string -> string, s: string, i: nat)
    requires p.Valid() && HarmlessRule(p, with) && i < |s| && p.Match(s, i).Some?
    ensures |Replaced(p, with, s, i)| > 0 && p.Inert(Replaced(p, with, s, i)[0])
  {
    var k, e, r, cut := AtMatch(p, with, s, i);
    assert p.Inert(r[0]);
  }

  /** What follows a replaced number starts with no digit. */
  lemma NoDigitAfter(p: Pattern, with: string -> string, s: string, e: nat)
    requires p.Valid() && HarmlessRule(p, with) && e <= |s| && (e < |s| ==> !p.digit(s[e]))
    ensures Replaced(p, with, s, e) != "" ==> !p.digit(Replaced(p, with, s, e)[0])
  {
    if e < |s| && p.Match(s, e).Some? {
      StartsInert(p, with, s, e);
    }
  }

  lemma OccursInRest(p: Pattern, prev: Option<char>, r: string, w: string, i: nat, j: nat)
    requires |r| > 0 && |r| <= i && p.OccursAfter(prev, r + w, i, j)
    ensures p.OccursAfter(Some(r[|r| - 1]), w, i - |r|, j - |r|)
  {
    assert (r + w)[i..j] == w[i - |r|..j - |r|];
  }

  /** Characters consecutive from the start with no digit after the first few hold no run. */
  lemma ShortDigitsHoldNoNumber(p: Pattern, w: string, n: nat)
    requires p.Valid() && (forall c :: !p.bodySep(c)) && 3 <= n < 10 && n < |w|
    requires (forall k :: 0 <= k < n ==> p.digit(w[k])) && !p.digit(w[n])
    ensures !p.IsNumber(w)
  {
    NoRunAcross(p, w, n);
    forall k | 0 <= k <= |w| && p.IsPrefix(w[..k])
      ensures !p.IsRun(w[k..])
    {
      assert w[..k][0] == w[0];
      NoRunAcross(p, w[2..], n - 2);
    }
  }

  lemma NoRunAcross(p: Pattern, w: string, n: nat)
    requires p.Valid() && (forall c :: !p.bodySep(c)) && n < 10 && n < |w| && !p.digit(w[n])
    ensures !p.IsRun(w)
  {
    assert n > 0 ==> w[n] == w[1..][n - 1];
    if p.IsRun(w) {
      DigitsOnly(p, w[1..], p.more);
    }
  }

  lemma {:induction false} DigitsOnly(p: Pattern, w: string, n: nat)
    requires p.IsBody(w, n) && forall c :: !p.bodySep(c)
    ensures |w| == n && forall k :: 0 <= k < |w| ==> p.digit(w[k])
    decreases n
  {
    if n > 0 {
      DigitsOnly(p, w[1..], n - 1);
      assert forall k :: 1 <= k < |w| ==> w[k] == w[1..][k - 1];
    }
  }

  /** No number starts inside a replacement. */
  lemma NoneInReplacement(p: Pattern, prev: Option<char>, r: string, cut: nat, rest: string, i: nat, j: nat)
    requires p.Valid() && HarmlessFrom(p, r, cut) && i < |r|
    requires rest != "" ==> !p.digit(rest[0])
    ensures !p.OccursAfter(prev, r + rest, i, j)
  {
    var w := r + rest;
    assert w[i] == r[i] && (i > 0 ==> w[i - 1] == r[i - 1]);
    if p.OccursAfter(prev, w, i, j) {
      var v := w[i..j];
      NumberShape(p, v);
      assert v[0] == w[i];
      assert !p.Inert(w[i]);
      assert i == cut;
      var n := |r| - cut;
      assert forall k :: 0 <= k < n ==> v[k] == r[cut + k];
      assert v[n] == rest[0];
      ShortDigitsHoldNoNumber(p, v, n);
    }
  }

  /**
   What may stand before position `i` of the text once the text before it is replaced: a digit only
   if a digit stood there, and otherwise only after a replaced number, which no digit follows.
   */
  ghost predicate Context(p: Pattern, s: string, i: nat, prev: Option<char>)
    requires i <= |s|
  {
    var was := i > 0 && p.digit(s[i - 1]);
    var is_ := prev.Some? && p.digit(prev.value);
    (is_ ==> was) && (was && !is_ ==> i == |s| || !p.digit(s[i]))
  }

  /** A number has no room for the first character of a replacement. */
  lemma EndsBeforeInert(p: Pattern, w: string, j: nat, n: nat)
    requires p.Valid() && j <= |w| && n < |w| && p.IsNumber(w[0..j]) && p.Inert(w[n])
    ensures 10 <= j <= n
  {
    var v := w[0..j];
    assert forall k :: 0 <= k < j ==> v[k] == w[k];
    NumberShape(p, v);
  }

  /** A number that starts with copied text ends within it. */
  lemma NumberInCopy(p: Pattern, copied: string, rest: string, j: nat)
    requires p.Valid() && (rest != "" ==> p.Inert(rest[0]))
    requires j <= |copied + rest| && p.IsNumber((copied + rest)[0..j])
    ensures 10 <= j <= |copied| && p.IsNumber(copied[0..j])
  {
    var w := copied + rest;
    NumberShape(p, w[0..j]);
    if rest != "" {
      assert w[|copied|] == rest[0];
      EndsBeforeInert(p, w, j, |copied|);
    }
    assert w[0..j] == copied[0..j];
  }

  /** A number that starts at a copied character ends before the next replacement. */
  lemma CopiedNumberIsThere(p: Pattern, with: string -> string, s: string, i: nat, j: nat)
    requires p.Valid() && HarmlessRule(p, with) && i <= |s|
    requires j <= |Replaced(p, with, s, i)| && p.IsNumber(Replaced(p, with, s, i)[0..j])
    ensures 10 <= j && i + j <= NextMatch(p, s, i) <= |s| && p.IsNumber(s[i..i + j])
    ensures Replaced(p, with, s, i) == s[i..NextMatch(p, s, i)] + Replaced(p, with, s, NextMatch(p, s, i))
  {
    CopiedUpToMatch(p, with, s, i);
    var m := NextMatch(p, s, i);
    if m < |s| {
      StartsInert(p, with, s, m);
    }
    NumberInCopy(p, s[i..m], Replaced(p, with, s, m), j);
    SliceOfSlice(s, i, m, j);
  }

  /** The last character of a number is a digit. */
  lemma EndsInDigit(p: Pattern, s: string, i: nat, j: nat)
    requires p.Valid() && i + j <= |s| && 10 <= j && p.IsNumber(s[i..i + j])
    ensures p.digit(s[i + j - 1]) && (p.digit(s[i]) || s[i] == '+')
  {
    NumberShape(p, s[i..i + j]);
    assert s[i..i + j][j - 1] == s[i + j - 1] && s[i..i + j][0] == s[i];
  }

  lemma CharCopied(w: string, s: string, i: nat, m: nat, rest: string, j: nat)
    requires i + j < m <= |s| && w == s[i..m] + rest
    ensures j < |w| && w[j] == s[i + j]
  {
  }

  /** It ends before the next match, not at it: a match does not start right after a digit. */
  lemma CopiedNumberEndsEarly(p: Pattern, s: string, i: nat, j: nat, m: nat)
    requires p.Valid() && 10 <= j && i + j <= m < |s| && p.IsNumber(s[i..i + j]) && p.Match(s, m).Some?
    ensures i + j < m
  {
    EndsInDigit(p, s, i, j);
    MatchFollowsNoDigit(p, s, i, j);
  }

  /** And no digit follows it in the text. */
  lemma CopiedNumberEnds(p: Pattern, prev: Option<char>, with: string -> string, s: string, i: nat, j: nat)
    requires p.Valid() && HarmlessRule(p, with) && i <= |s|
    requires p.OccursAfter(prev, Replaced(p, with, s, i), 0, j)
    ensures 10 <= j && i + j <= NextMatch(p, s, i) <= |s| && p.IsNumber(s[i..i + j])
    ensures i + j < |s| ==> !p.digit(s[i + j])
  {
    CopiedNumberIsThere(p, with, s, i, j);
    CopiedUpToMatch(p, with, s, i);
    var m := NextMatch(p, s, i);
    if m < |s| {
      CopiedNumberEndsEarly(p, s, i, j, m);
    }
    if i + j < m {
      CharCopied(Replaced(p, with, s, i), s, i, m, Replaced(p, with, s, m), j);
    }
  }

  /** A match does not start right after a digit, so a number that ends there is followed by none of its digits. */
  lemma MatchFollowsNoDigit(p: Pattern, s: string, i: nat, j: nat)
    requires i + j <= |s| && j > 0 && p.digit(s[i + j - 1])
    ensures p.Match(s, i + j) == None
  {
  }

  lemma NoneAtCopied(p: Pattern, prev: Option<char>, with: string -> string, s: string, i: nat, j: nat)
    requires p.Valid() && HarmlessRule(p, with) && i < |s| && Context(p, s, i, prev) && p.Match(s, i) == None
    ensures !p.OccursAfter(prev, Replaced(p, with, s, i), 0, j)
  {
    if p.OccursAfter(prev, Replaced(p, with, s, i), 0, j) {
      CopiedNumberEnds(p, prev, with, s, i, j);
      if i > 0 && p.digit(s[i - 1]) {
        PlusIsMatchedLater(p, s, i, j);
      } else {
        OccurrenceIsMatched(p, s, i, i + j);
      }
    }
  }

  /** Right after a replaced number only a plus sign could start one; but the same number starts after the plus. */
  lemma PlusIsMatchedLater(p: Pattern, s: string, i: nat, j: nat)
    requires p.Valid() && 10 <= j && i + j <= |s| && p.IsNumber(s[i..i + j]) && (i + j < |s| ==> !p.digit(s[i + j]))
    requires !p.digit(s[i]) && p.Match(s, i) == None
    ensures NextMatch(p, s, i) == i + 1
  {
    EndsInDigit(p, s, i, j);
    PlusMayGo(p, s[i..i + j]);
    assert s[i..i + j][1..] == s[i + 1..i + j];
    OccurrenceIsMatched(p, s, i + 1, i + j);
  }

  lemma NoneAcrossReplacement(p: Pattern, prev: Option<char>, r: string, rest: string, a: nat, b: nat)
    requires p.Valid() && Harmless(p, r) && (rest != "" ==> !p.digit(rest[0]))
    requires a >= |r| && b >= |r| ==> !p.OccursAfter(Some(r[|r| - 1]), rest, a - |r|, b - |r|)
    ensures !p.OccursAfter(prev, r + rest, a, b)
  {
    var cut :| HarmlessFrom(p, r, cut);
    if a < |r| {
      NoneInReplacement(p, prev, r, cut, rest, a, b);
    } else if b >= |r| {
      NoneInRest(p, prev, r, rest, a, b);
    }
  }

  /** A match, its replacement, and the standing of what follows. */
  lemma AfterMatch(p: Pattern, with: string -> string, s: string, i: nat) returns (e: nat, r: string)
    requires p.Valid() && HarmlessRule(p, with) && i < |s| && p.Match(s, i).Some?
    ensures i < e <= |s| && r != "" && Harmless(p, r) && Replaced(p, with, s, i) == r + Replaced(p, with, s, e)
    ensures Context(p, s, e, Some(r[|r| - 1]))
    ensures Replaced(p, with, s, e) != "" ==> !p.digit(Replaced(p, with, s, e)[0])
  {
    var k, cut;
    k, e, r, cut := AtMatch(p, with, s, i);
    NoDigitAfter(p, with, s, e);
  }

  lemma {:induction false} NoneAfter(
    p: Pattern, with: string -> string, s: string, i: nat, prev: Option<char>, a: nat, b: nat)
    requires p.Valid() && HarmlessRule(p, with) && i <= |s| && Context(p, s, i, prev)
    ensures !p.OccursAfter(prev, Replaced(p, with, s, i), a, b)
    decreases |s| - i, 1
  {
    if i == |s| {
    } else if p.Match(s, i).Some? {
      NoneAfterMatch(p, with, s, i, prev, a, b);
    } else if a == 0 {
      NoneAtCopied(p, prev, with, s, i, b);
    } else {
      NoneAfterCopied(p, with, s, i, prev, a, b);
    }
  }

  lemma {:induction false} NoneAfterMatch(
    p: Pattern, with: string -> string, s: string, i: nat, prev: Option<char>, a: nat, b: nat)
    requires p.Valid() && HarmlessRule(p, with) && i < |s| && p.Match(s, i).Some?
    ensures !p.OccursAfter(prev, Replaced(p, with, s, i), a, b)
    decreases |s| - i, 0
  {
    var e, r := AfterMatch(p, with, s, i);
    if a >= |r| && b >= |r| {
      NoneAfter(p, with, s, e, Some(r[|r| - 1]), a - |r|, b - |r|);
    }
    NoneAcrossReplacement(p, prev, r, Replaced(p, with, s, e), a, b);
  }

  lemma {:induction false} NoneAfterCopied(
    p: Pattern, with: string -> string, s: string, i: nat, prev: Option<char>, a: nat, b: nat)
    requires p.Valid() && HarmlessRule(p, with) && i < |s| && p.Match(s, i) == None && a > 0
    ensures !p.OccursAfter(prev, Replaced(p, with, s, i), a, b)
    decreases |s| - i, 0
  {
    if b >= 1 {
      CopiedOne(p, with, s, i);
      NoneAfter(p, with, s, i + 1, Some(s[i]), a - 1, b - 1);
      NoneInRest(p, prev, [s[i]], Replaced(p, with, s, i + 1), a, b);
    }
  }

  lemma NoneInRest(p: Pattern, prev: Option<char>, r: string, w: string, i: nat, j: nat)
    requires |r| > 0 && |r| <= i && |r| <= j && !p.OccursAfter(Some(r[|r| - 1]), w, i - |r|, j - |r|)
    ensures !p.OccursAfter(prev, r + w, i, j)
  {
    if p.OccursAfter(prev, r + w, i, j) {
      OccursInRest(p, prev, r, w, i, j);
    }
  }

  /** After replacement, no number stands anywhere. */
  lemma NothingSurvives(p: Pattern, with: string -> string, s: string)
    requires p.Valid() && HarmlessRule(p, with)
    ensures p.Free(Replaced(p, with, s, 0))
  {
    forall i, j
      ensures !p.Occurs(Replaced(p, with, s, 0), i, j)
    {
      NoneAfter(p, with, s, 0, None, i, j);
    }
  }

  lemma {:induction false} FreeTextStays(p: Pattern, with: string -> string, s: string, i: nat)
    requires p.Valid() && p.Free(s) && i <= |s|
    ensures Replaced(p, with, s, i) == s[i..]
    decreases |s| - i
  {
    if i < |s| {
      MatcherIsExact(p, s, i);
      assert forall j :: !p.Occurs(s, i, j);
      FreeTextStays(p, with, s, i + 1);
      assert s[i..] == [s[i]] + s[i + 1..];
    }
  }

  /** Replacement leaves a text alone exactly when no number stands in it. */
  lemma UnchangedIffFree(p: Pattern, with: string -> string, s: string)
    requires p.Valid() && HarmlessRule(p, with)
    ensures Replaced(p, with, s, 0) == s <==> p.Free(s)
  {
    NothingSurvives(p, with, s);
    if p.Free(s) {
      FreeTextStays(p, with, s, 0);
    }
  }

  /** Replacing twice is replacing once. */
  lemma ReplacingIsIdempotent(p: Pattern, with: string -> string, s: string)
    requires p.Valid() && HarmlessRule(p, with)
    ensures Replaced(p, with, Replaced(p, with, s, 0), 0) == Replaced(p, with, s, 0)
  {
    NothingSurvives(p, with, s);
    UnchangedIffFree(p, with, Replaced(p, with, s, 0));
  }

  lemma NoDigitAfterCopy(p: Pattern, s: string, i: nat, m: nat, rest: string, j: nat)
    requires i <= m <= |s| && j <= m - i && (m < |s| ==> !p.digit(s[m]))
    requires j < |s[i..m] + rest| ==> !p.digit((s[i..m] + rest)[j])
    ensures i + j < |s| ==> !p.digit(s[i + j])
  {
    if i + j < m {
      assert (s[i..m] + rest)[j] == s[i + j];
    }
  }

  /** A number at the start of copied text stood in the text it was copied from. */
  lemma CopyOccurs(p: Pattern, prev: Option<char>, s: string, i: nat, m: nat, rest: string, j: nat)
    requires p.Valid() && i <= m <= |s| && (rest != "" ==> p.Inert(rest[0]))
    requires m < |s| ==> !p.digit(s[m])
    requires i > 0 && p.digit(s[i - 1]) && !(prev.Some? && p.digit(prev.value)) && i < |s| ==>
      !p.digit(s[i]) && s[i] != '+'
    requires p.OccursAfter(prev, s[i..m] + rest, 0, j)
    ensures p.Occurs(s, i, i + j)
  {
    NumberInCopy(p, s[i..m], rest, j);
    SliceOfSlice(s, i, m, j);
    EndsInDigit(p, s, i, j);
    NoDigitAfterCopy(p, s, i, m, rest, j);
  }
}
