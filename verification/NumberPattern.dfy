/**
 The subscriber-number patterns of apps/worker/src/worker/summary.py and
 packages/domain/src/uaagro_domain/logging.py: an optional country code, a leading digit and a fixed
 number more, nine in both, with no digit on either side, replaced leftmost first. What a digit, a
 leading digit and a separator are is left to the pattern.
 */
module NumberPattern {
  import opened Wrappers

  /** `bodySep` may stand between the digits, `prefixSep` after the country code; `more` digits follow the lead. */
  datatype Pattern = Pattern(
    digit: char -> bool, lead: char -> bool, prefixSep: char -> bool, bodySep: char -> bool, more: nat)
  {

    ghost predicate Valid() {
      && more >= 9 && digit('9') && digit('1') && !digit('+') && !prefixSep('+') && !bodySep('+')
      && (forall c :: lead(c) ==> digit(c))
      && (forall c :: digit(c) ==> !prefixSep(c) && !bodySep(c))
    }

    /** A character no number can hold. */
    predicate Inert(c: char) {
      !digit(c) && c != '+' && !prefixSep(c) && !bodySep(c)
    }

    // ----- what a number is

    /** `n` digits, each with at most one separator before it. */
    predicate IsBody(w: string, n: nat)
      decreases n
    {
      if n == 0 then w == ""
      else
        || (|w| >= 1 && digit(w[0]) && IsBody(w[1..], n - 1))
        || (|w| >= 2 && bodySep(w[0]) && digit(w[1]) && IsBody(w[2..], n - 1))
    }

    predicate IsRun(w: string) {
      |w| >= 1 && lead(w[0]) && IsBody(w[1..], more)
    }

    predicate IsCode(w: string) {
      |w| >= 2 && w[0] == '9' && w[1] == '1' && (|w| == 2 || (|w| == 3 && prefixSep(w[2])))
    }

    predicate IsPrefix(w: string) {
      IsCode(w) || (|w| >= 1 && w[0] == '+' && IsCode(w[1..]))
    }

    ghost predicate IsNumber(w: string) {
      IsRun(w) || exists k :: 0 <= k <= |w| && IsPrefix(w[..k]) && IsRun(w[k..])
    }

    /** A number stands at `i` up to `j` in `w`, when `prev` comes before `w`. */
    ghost predicate OccursAfter(prev: Option<char>, w: string, i: nat, j: nat) {
      && i <= j <= |w| && IsNumber(w[i..j])
      && !(if i > 0 then digit(w[i - 1]) else prev.Some? && digit(prev.value))
      && (j < |w| ==> !digit(w[j]))
    }

    ghost predicate Occurs(w: string, i: nat, j: nat) {
      OccursAfter(None, w, i, j)
    }

    ghost predicate Free(w: string) {
      forall i, j :: !Occurs(w, i, j)
    }

    // ----- the matcher

    function BodyEnd(s: string, i: nat, n: nat): Option<nat>
      requires i <= |s|
      decreases n
    {
      if n == 0 then Some(i)
      else
        var j := if i < |s| && bodySep(s[i]) then i + 1 else i;
        if j < |s| && digit(s[j]) then BodyEnd(s, j + 1, n - 1) else None
    }

    function RunEnd(s: string, i: nat): Option<nat>
      requires i <= |s|
    {
      if i < |s| && lead(s[i]) then
        var e := BodyEnd(s, i + 1, more);
        if e.Some? && !(e.value < |s| && digit(s[e.value])) then e else None
      else None
    }

    function PrefixEnd(s: string, i: nat): Option<nat>
      requires i <= |s|
    {
      var k := if i < |s| && s[i] == '+' then i + 1 else i;
      if k + 1 < |s| && s[k] == '9' && s[k + 1] == '1' then
        Some(if k + 2 < |s| && prefixSep(s[k + 2]) then k + 3 else k + 2)
      else None
    }

    /** Where the ten digits of a match at `i` start and end: with the country code if that works, else without. */
    function Match(s: string, i: nat): Option<(nat, nat)>
      requires i <= |s|
    {
      if i > 0 && digit(s[i - 1]) then None
      else
        var k := PrefixEnd(s, i);
        var coded := if k.Some? && k.value <= |s| then RunEnd(s, k.value) else None;
        if coded.Some? then Some((k.value, coded.value))
        else
          var plain := RunEnd(s, i);
          if plain.Some? then Some((i, plain.value)) else None
    }
  }

  /** Every match replaced, leftmost first and without overlap, from position `i` on. */
  function Replaced(p: Pattern, with: string -> string, s: string, i: nat): string
    requires i <= |s|
    decreases |s| - i
  {
    if i == |s| then ""
    else
      var m := p.Match(s, i);
      if m.Some? && i < m.value.1 <= |s| && m.value.0 <= m.value.1 then
        with(s[m.value.0..m.value.1]) + Replaced(p, with, s, m.value.1)
      else [s[i]] + Replaced(p, with, s, i + 1)
  }

  // ----- the matcher finds a number at a position exactly when one stands there

  lemma {:induction false} BodyEndIsBody(p: Pattern, s: string, i: nat, j: nat, n: nat)
    requires p.Valid() && i <= j <= |s|
    ensures p.BodyEnd(s, i, n) == Some(j) <==> p.IsBody(s[i..j], n)
    decreases n
  {
    if n > 0 {
      var w := s[i..j];
      if |w| >= 1 && p.digit(w[0]) {
        assert w[1..] == s[i + 1..j];
        BodyEndIsBody(p, s, i + 1, j, n - 1);
      } else if |w| >= 2 && p.bodySep(w[0]) && p.digit(w[1]) {
        assert w[2..] == s[i + 2..j];
        BodyEndIsBody(p, s, i + 2, j, n - 1);
      } else {
        BodyEndAdvances(p, s, i, n);
      }
    }
  }

  lemma {:induction false} BodyEndAdvances(p: Pattern, s: string, i: nat, n: nat)
    requires i <= |s|
    ensures var e := p.BodyEnd(s, i, n);
      e.Some? ==> i + n <= e.value <= |s| && (n > 0 ==> p.digit(s[e.value - 1]))
    ensures var e := p.BodyEnd(s, i, n);
      e.Some? && n > 0 && i < |s| && p.bodySep(s[i]) ==> i + 2 <= e.value && p.digit(s[i + 1])
    decreases n
  {
    if n > 0 {
      var j := if i < |s| && p.bodySep(s[i]) then i + 1 else i;
      if j < |s| && p.digit(s[j]) {
        BodyEndAdvances(p, s, j + 1, n - 1);
      }
    }
  }

  lemma RunEndIsRun(p: Pattern, s: string, i: nat, j: nat)
    requires p.Valid() && i <= j <= |s|
    ensures p.RunEnd(s, i) == Some(j) <==> p.IsRun(s[i..j]) && (j < |s| ==> !p.digit(s[j]))
  {
    if i < j {
      assert s[i..j][1..] == s[i + 1..j];
      BodyEndIsBody(p, s, i + 1, j, p.more);
    } else if i < |s| {
      BodyEndAdvances(p, s, i + 1, p.more);
    }
  }

  lemma RunEndAdvances(p: Pattern, s: string, i: nat)
    requires p.Valid() && i <= |s|
    ensures p.RunEnd(s, i).Some? ==> i + 10 <= p.RunEnd(s, i).value <= |s|
  {
    if i < |s| {
      BodyEndAdvances(p, s, i + 1, p.more);
    }
  }

  /** A country code followed by ten digits is the one the matcher reads. */
  lemma PrefixEndIsPrefix(p: Pattern, s: string, i: nat, k: nat, j: nat)
    requires p.Valid() && i <= k <= j <= |s| && p.IsPrefix(s[i..k]) && p.IsRun(s[k..j])
    ensures p.PrefixEnd(s, i) == Some(k)
  {
  }

  lemma PrefixEndGives(p: Pattern, s: string, i: nat)
    requires i <= |s| && p.PrefixEnd(s, i).Some?
    ensures i + 2 <= p.PrefixEnd(s, i).value <= |s| && p.IsPrefix(s[i..p.PrefixEnd(s, i).value])
  {
  }

  lemma MatchIsOccurrence(p: Pattern, s: string, i: nat)
    requires p.Valid() && i <= |s| && p.Match(s, i).Some?
    ensures var (k, j) := p.Match(s, i).value;
      i <= k && k + 10 <= j <= |s| && p.Occurs(s, i, j) && p.IsRun(s[k..j])
  {
    var (k, j) := p.Match(s, i).value;
    if p.PrefixEnd(s, i).Some? {
      PrefixEndGives(p, s, i);
    }
    RunEndAdvances(p, s, k);
    RunEndIsRun(p, s, k, j);
    assert s[i..j][..k - i] == s[i..k] && s[i..j][k - i..] == s[k..j];
  }

  lemma PlainIsMatched(p: Pattern, s: string, i: nat, j: nat)
    requires p.Valid() && i <= j <= |s| && p.IsRun(s[i..j])
    requires !(i > 0 && p.digit(s[i - 1])) && (j < |s| ==> !p.digit(s[j]))
    ensures p.Match(s, i).Some?
  {
    RunEndIsRun(p, s, i, j);
  }

  lemma CodedIsMatched(p: Pattern, s: string, i: nat, k: nat, j: nat)
    requires p.Valid() && i <= k <= j <= |s| && p.IsPrefix(s[i..k]) && p.IsRun(s[k..j])
    requires !(i > 0 && p.digit(s[i - 1])) && (j < |s| ==> !p.digit(s[j]))
    ensures p.Match(s, i).Some?
  {
    PrefixEndIsPrefix(p, s, i, k, j);
    RunEndIsRun(p, s, k, j);
  }

  lemma OccurrenceIsMatched(p: Pattern, s: string, i: nat, j: nat)
    requires p.Valid() && p.Occurs(s, i, j)
    ensures p.Match(s, i).Some?
  {
    var k := WhereRunStarts(p, s, i, j);
    if k == i {
      PlainIsMatched(p, s, i, j);
    } else {
      CodedIsMatched(p, s, i, k, j);
    }
  }

  lemma WhereRunStarts(p: Pattern, s: string, i: nat, j: nat) returns (k: nat)
    requires i <= j <= |s| && p.IsNumber(s[i..j])
    ensures i <= k <= j && p.IsRun(s[k..j]) && (k > i ==> p.IsPrefix(s[i..k]))
  {
    if p.IsRun(s[i..j]) {
      k := i;
    } else {
      var n := CodeLength(p, s[i..j]);
      k := i + n;
      assert s[i..j][..n] == s[i..k] && s[i..j][n..] == s[k..j];
    }
  }

  lemma CodeLength(p: Pattern, w: string) returns (k: nat)
    requires p.IsNumber(w) && !p.IsRun(w)
    ensures k <= |w| && p.IsPrefix(w[..k]) && p.IsRun(w[k..])
  {
    k :| 0 <= k <= |w| && p.IsPrefix(w[..k]) && p.IsRun(w[k..]);
  }

  /** The matcher succeeds at a position exactly when a number stands there. */
  lemma MatcherIsExact(p: Pattern, s: string, i: nat)
    requires p.Valid() && i <= |s|
    ensures p.Match(s, i).Some? <==> exists j :: p.Occurs(s, i, j)
  {
    if p.Match(s, i).Some? {
      MatchIsOccurrence(p, s, i);
    }
    if exists j :: p.Occurs(s, i, j) {
      var j :| p.Occurs(s, i, j);
      OccurrenceIsMatched(p, s, i, j);
    }
  }

  // ----- the shape of a number

  lemma {:induction false} BodyShape(p: Pattern, w: string, n: nat)
    requires p.Valid() && p.IsBody(w, n)
    ensures |w| >= n && (n > 0 ==> p.digit(w[|w| - 1]))
    ensures forall k :: 0 <= k < |w| ==> p.digit(w[k]) || p.bodySep(w[k])
    decreases n
  {
    if n > 0 {
      if p.digit(w[0]) && p.IsBody(w[1..], n - 1) {
        BodyShape(p, w[1..], n - 1);
        assert forall k :: 1 <= k < |w| ==> w[k] == w[1..][k - 1];
      } else {
        BodyShape(p, w[2..], n - 1);
        assert forall k :: 2 <= k < |w| ==> w[k] == w[2..][k - 2];
      }
    }
  }

  lemma RunShape(p: Pattern, w: string)
    requires p.Valid() && p.IsRun(w)
    ensures |w| >= 10 && p.digit(w[0]) && p.digit(w[|w| - 1])
    ensures forall k :: 0 <= k < |w| ==> !p.Inert(w[k])
  {
    BodyShape(p, w[1..], p.more);
    assert forall k :: 1 <= k < |w| ==> w[k] == w[1..][k - 1];
  }

  lemma PrefixShape(p: Pattern, w: string)
    requires p.Valid() && p.IsPrefix(w)
    ensures |w| > 0 && (p.digit(w[0]) || w[0] == '+') && forall k :: 0 <= k < |w| ==> !p.Inert(w[k])
  {
  }

  lemma JoinShapes(p: Pattern, w: string, k: nat)
    requires k <= |w|
    requires forall i :: 0 <= i < k ==> !p.Inert(w[..k][i])
    requires forall i :: 0 <= i < |w| - k ==> !p.Inert(w[k..][i])
    ensures forall i :: 0 <= i < |w| ==> !p.Inert(w[i])
  {
    assert forall i :: 0 <= i < k ==> w[i] == w[..k][i];
    assert forall i :: k <= i < |w| ==> w[i] == w[k..][i - k];
  }

  lemma NumberShape(p: Pattern, w: string)
    requires p.Valid() && p.IsNumber(w)
    ensures |w| >= 10 && (p.digit(w[0]) || w[0] == '+') && p.digit(w[|w| - 1])
    ensures forall k :: 0 <= k < |w| ==> !p.Inert(w[k])
  {
    if p.IsRun(w) {
      RunShape(p, w);
    } else {
      var k := CodeLength(p, w);
      PrefixShape(p, w[..k]);
      RunShape(p, w[k..]);
      JoinShapes(p, w, k);
      assert w[..k][0] == w[0] && w[k..][|w| - k - 1] == w[|w| - 1];
    }
  }

  /** A number that starts with a plus sign is a number without it too. */
  lemma PlusMayGo(p: Pattern, w: string)
    requires p.Valid() && p.IsNumber(w) && |w| > 0 && w[0] == '+'
    ensures p.IsNumber(w[1..])
  {
    assert !p.IsRun(w);
    var k := CodeLength(p, w);
    assert k > 0 && w[..k][0] == '+';
    assert p.IsPrefix(w[..k][1..]);
    assert w[..k][1..] == w[1..][..k - 1] && w[k..] == w[1..][k - 1..];
  }
}
