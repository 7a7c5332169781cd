/**
 Recording links in log events, packages/domain/src/uaagro_domain/logging.py: taking links out leaves
 none behind, but a text in which a number was masked keeps the links it had.
 */
module LinkRedaction {
  import opened Wrappers
  import opened NumberPattern
  import opened NumberScrub
  import opened LogRedaction

  /** A link stands at `i`: a scheme up to `k`, then no white space before `end`, with a marker at `q`. */
  ghost predicate LinkAt(a: Alphabet, s: string, i: nat, k: nat, q: nat, end: nat) {
    && SchemeEnd(s, i) == Some(k) && k <= q < end <= |s|
    && (forall t :: k <= t < end ==> !a.space(s[t]))
    && MarkerAt(s, q, end)
  }

  lemma {:induction false} TokenIsSolid(a: Alphabet, s: string, k: nat, end: nat)
    requires k <= end <= |s| && forall t :: k <= t < end ==> !a.space(s[t])
    ensures end <= TokenEnd(a, s, k)
    decreases end - k
  {
    if k < end {
      TokenIsSolid(a, s, k + 1, end);
    } else {
      TokenEnds(a, s, k);
    }
  }

  lemma {:induction false} SolidToken(a: Alphabet, s: string, k: nat)
    requires k <= |s|
    ensures forall t :: k <= t < TokenEnd(a, s, k) <= |s| ==> !a.space(s[t])
    decreases |s| - k
  {
    if k < |s| && !a.space(s[k]) {
      SolidToken(a, s, k + 1);
    }
  }

  lemma MarkerStays(s: string, q: nat, end: nat, later: nat)
    requires MarkerAt(s, q, end) && end <= later
    ensures MarkerAt(s, q, later)
  {
  }

  /** A link that stands is found. */
  lemma LinkIsFound(a: Alphabet, s: string, i: nat, k: nat, q: nat, end: nat)
    requires i <= |s| && LinkAt(a, s, i, k, q, end)
    ensures LinkEnd(a, s, i).Some?
  {
    TokenIsSolid(a, s, k, end);
    MarkerStays(s, q, end, TokenEnd(a, s, k));
  }

  /** And what is found is a link. */
  lemma FoundIsLink(a: Alphabet, s: string, i: nat) returns (k: nat, q: nat, end: nat)
    requires i <= |s| && LinkEnd(a, s, i).Some?
    ensures LinkAt(a, s, i, k, q, end)
  {
    k := SchemeEnd(s, i).value;
    end := TokenEnd(a, s, k);
    TokenEnds(a, s, k);
    SolidToken(a, s, k);
    q :| k <= q < end && MarkerAt(s, q, end);
  }

  // ----- the characters of schemes and markers

  /** Letters, colon and slash. */
  predicate Plain(c: char) {
    'a' <= c <= 'z' || 'A' <= c <= 'Z' || c == ':' || c == '/'
  }

  predicate IsMarker(word: string) {
    word == "/recording/" || word == "/recordings/" || word == "/call/" || word == "/calls/"
  }

  lemma PlainIsInert(a: Alphabet, c: char)
    requires a.Valid() && Plain(c)
    ensures LogPattern(a).Inert(c) && !a.space(c)
  {
  }

  lemma SaysCharacters(s: string, i: nat, word: string)
    requires SaysAt(s, i, word)
    ensures forall x :: i <= x < i + |word| ==> LowerChar(s[x]) == word[x - i]
  {
  }

  lemma SaysPlainly(s: string, i: nat, word: string)
    requires SaysAt(s, i, word) && forall t :: 0 <= t < |word| ==> Plain(word[t])
    ensures forall x :: i <= x < i + |word| ==> Plain(s[x])
  {
    SaysCharacters(s, i, word);
  }

  lemma SchemeIsPlain(s: string, i: nat)
    requires SchemeEnd(s, i).Some?
    ensures var k := SchemeEnd(s, i).value;
      i + 7 <= k <= |s| && (s[i] == 'h' || s[i] == 'H') && forall x :: i <= x < k ==> Plain(s[x])
  {
    var word := if SaysAt(s, i, "http://") then "http://" else "https://";
    SaysCharacters(s, i, word);
    SaysPlainly(s, i, word);
  }

  lemma MarkerWord(s: string, q: nat, end: nat) returns (word: string)
    requires MarkerAt(s, q, end)
    ensures IsMarker(word) && SaysAt(s, q, word) && q + |word| < end
    ensures forall x :: q <= x < q + |word| ==> Plain(s[x])
  {
    word :=
      if SaysAt(s, q, "/recording/") && q + 11 < end then "/recording/"
      else if SaysAt(s, q, "/recordings/") && q + 12 < end then "/recordings/"
      else if SaysAt(s, q, "/call/") && q + 6 < end then "/call/"
      else "/calls/";
    SaysPlainly(s, q, word);
  }

  lemma SaysMoved(s: string, i: nat, w: string, j: nat, word: string)
    requires i + |word| <= |s| && j + |word| <= |w| && s[i..i + |word|] == w[j..j + |word|]
    ensures SaysAt(s, i, word) <==> SaysAt(w, j, word)
  {
  }

  // ----- masking a number keeps the links

  ghost predicate Solid(space: char -> bool, w: string) {
    forall t :: 0 <= t < |w| ==> !space(w[t])
  }

  ghost predicate SolidRule(p: Pattern, with: string -> string, space: char -> bool) {
    forall w :: p.IsRun(w) ==> Solid(space, with(w))
  }

  lemma MaskIsSolid(a: Alphabet)
    requires a.Valid()
    ensures SolidRule(LogPattern(a), run => MaskPhone(a, run), a.space)
  {
    forall w: string
      ensures Solid(a.space, MaskPhone(a, w))
    {
      DigitsAreDigits(a, w);
      assert Spelled('*');
    }
  }

  /** A match, its replacement, and a character no number can hold: the match stops before it. */
  lemma MatchStopsBefore(p: Pattern, with: string -> string, s: string, i: nat, x: nat) returns (e: nat, r: string)
    requires p.Valid() && HarmlessRule(p, with) && i <= x < |s| && p.Match(s, i).Some? && p.Inert(s[x])
    ensures i < e <= x && Replaced(p, with, s, i) == r + Replaced(p, with, s, e)
    ensures r != "" && forall space :: SolidRule(p, with, space) ==> Solid(space, r)
  {
    var k;
    k, e := MatchEdges(p, s, i);
    MatchIsOccurrence(p, s, i);
    ReplacedAt(p, with, s, i, k, e);
    r := with(s[k..e]);
    assert Harmless(p, r);
    NumberHoldsNoInert(p, s, i, e);
  }

  lemma NumberHoldsNoInert(p: Pattern, s: string, i: nat, e: nat)
    requires p.Valid() && i <= e <= |s| && p.IsNumber(s[i..e])
    ensures forall x :: i <= x < e ==> !p.Inert(s[x])
  {
    var w := s[i..e];
    NumberShape(p, w);
    assert forall x :: i <= x < e ==> w[x - i] == s[x];
  }

  lemma SolidJoin(space: char -> bool, u: string, v: string)
    requires Solid(space, u) && Solid(space, v)
    ensures Solid(space, u + v)
  {
  }

  /** What the replacement writes next, on the way to a character no number can hold. */
  lemma NextWritten(p: Pattern, with: string -> string, space: char -> bool, s: string, i: nat, x: nat)
    returns (e: nat, r: string)
    requires p.Valid() && HarmlessRule(p, with) && SolidRule(p, with, space)
    requires i < x < |s| && p.Inert(s[x])
    ensures i < e <= x && Replaced(p, with, s, i) == r + Replaced(p, with, s, e)
    ensures Solid(space, s[i..x]) ==> Solid(space, r)
  {
    if p.Match(s, i).Some? {
      e, r := MatchStopsBefore(p, with, s, i, x);
    } else {
      CopiedOne(p, with, s, i);
      e, r := i + 1, [s[i]];
      assert s[i..x][0] == s[i];
    }
  }

  lemma Regroup(a: string, b: string, c: string, bc: string)
    requires bc == b + c
    ensures a + bc == (a + b) + c
  {
  }

  /** The replacement reaches every character no number can hold; without white space on the way it writes none. */
  lemma {:induction false} Reached(p: Pattern, with: string -> string, space: char -> bool, s: string, i: nat, x: nat)
    returns (u: string)
    requires p.Valid() && HarmlessRule(p, with) && SolidRule(p, with, space)
    requires i <= x < |s| && p.Inert(s[x])
    ensures Replaced(p, with, s, i) == u + Replaced(p, with, s, x)
    ensures Solid(space, s[i..x]) ==> Solid(space, u)
    decreases x - i
  {
    if i == x {
      u := "";
    } else {
      var e, r := NextWritten(p, with, space, s, i, x);
      var v := Reached(p, with, space, s, e, x);
      u := r + v;
      Regroup(r, v, Replaced(p, with, s, x), Replaced(p, with, s, e));
      if Solid(space, s[i..x]) {
        SolidFrom(space, s, i, e, x);
        SolidJoin(space, r, v);
      }
    }
  }

  lemma SolidFrom(space: char -> bool, s: string, i: nat, e: nat, x: nat)
    requires i <= e <= x <= |s| && Solid(space, s[i..x])
    ensures Solid(space, s[e..x])
  {
  }

  /** Characters no number can hold are copied. */
  lemma {:induction false} InertIsCopied(p: Pattern, with: string -> string, s: string, i: nat, x: nat)
    requires p.Valid() && HarmlessRule(p, with) && i <= x <= |s| && forall t :: i <= t < x ==> p.Inert(s[t])
    ensures Replaced(p, with, s, i) == s[i..x] + Replaced(p, with, s, x)
    decreases x - i
  {
    if i < x {
      if p.Match(s, i).Some? {
        var e, r := MatchStopsBefore(p, with, s, i, i);
      }
      CopiedOne(p, with, s, i);
      InertIsCopied(p, with, s, i + 1, x);
      Prepend(s[i], s[i + 1..x], Replaced(p, with, s, x), Replaced(p, with, s, i + 1));
      SliceHead(s, i, x);
    } else {
      assert s[i..i] == "";
    }
  }

  lemma StartsSolid(p: Pattern, with: string -> string, space: char -> bool, s: string, i: nat)
    requires p.Valid() && HarmlessRule(p, with) && SolidRule(p, with, space) && i < |s| && !space(s[i])
    ensures Replaced(p, with, s, i) != "" && !space(Replaced(p, with, s, i)[0])
  {
    if p.Match(s, i).Some? {
      var k, e := MatchEdges(p, s, i);
      MatchIsOccurrence(p, s, i);
      ReplacedAt(p, with, s, i, k, e);
      assert Harmless(p, with(s[k..e]));
      assert Replaced(p, with, s, i)[0] == with(s[k..e])[0];
    } else {
      CopiedOne(p, with, s, i);
    }
  }

  lemma SchemeMoved(s: string, i: nat, k: nat, w: string, j: nat)
    requires i <= k <= |s| && SchemeEnd(s, i) == Some(k) && j + (k - i) <= |w| && s[i..k] == w[j..j + (k - i)]
    ensures SchemeEnd(w, j) == Some(j + (k - i))
  {
    SchemeIsPlain(s, i);
    assert s[i..i + 7] == s[i..k][..7] == w[j..j + 7];
    SaysMoved(s, i, w, j, "http://");
    if !SaysAt(s, i, "http://") {
      SaysMoved(s, i, w, j, "https://");
    }
  }

  /** A scheme, characters without white space, a marker and one character more make a link wherever they stand. */
  lemma AssembledLink(a: Alphabet, w: string, i: nat, k: nat, q: nat, word: string)
    requires a.Valid() && i <= k <= q && SchemeEnd(w, i) == Some(k) && IsMarker(word) && SaysAt(w, q, word)
    requires q + |word| < |w| && !a.space(w[q + |word|]) && Solid(a.space, w[k..q])
    ensures HoldsLink(a, w)
  {
    var end := q + |word| + 1;
    SaysPlainly(w, q, word);
    forall t | k <= t < end
      ensures !a.space(w[t])
    {
      if t < q {
        assert w[k..q][t - k] == w[t];
      } else if t < q + |word| {
        PlainIsInert(a, w[t]);
      }
    }
    assert MarkerAt(w, q, end);
    LinkIsFound(a, w, i, k, q, end);
  }

  lemma Pieces(u: string, s: string, v: string, m: string, rest: string)
    ensures var w := u + (s + (v + (m + rest)));
      var (k, q) := (|u| + |s|, |u| + |s| + |v|);
      && w[|u|..k] == s && w[k..q] == v && w[q..q + |m|] == m && w[q + |m|..] == rest
  {
  }

  lemma PlainIsCopied(a: Alphabet, s: string, i: nat, x: nat)
    requires a.Valid() && i <= x <= |s| && forall t :: i <= t < x ==> Plain(s[t])
    ensures Masked(a, s, i) == s[i..x] + Masked(a, s, x)
  {
    LogPatternIsSound(a);
    forall t | i <= t < x
      ensures LogPattern(a).Inert(s[t])
    {
      PlainIsInert(a, s[t]);
    }
    InertIsCopied(LogPattern(a), run => MaskPhone(a, run), s, i, x);
  }

  function Masked(a: Alphabet, s: string, i: nat): string
    requires i <= |s|
  {
    Replaced(LogPattern(a), run => MaskPhone(a, run), s, i)
  }

  lemma PlainIsReached(a: Alphabet, s: string, i: nat, x: nat) returns (u: string)
    requires a.Valid() && i <= x < |s| && Plain(s[x])
    ensures Masked(a, s, i) == u + Masked(a, s, x)
    ensures Solid(a.space, s[i..x]) ==> Solid(a.space, u)
  {
    LogPatternIsSound(a);
    MaskIsSolid(a);
    PlainIsInert(a, s[x]);
    u := Reached(LogPattern(a), run => MaskPhone(a, run), a.space, s, i, x);
  }

  /** What masking makes of a text with a link in it. */
  lemma MaskedPieces(a: Alphabet, s: string, i: nat, k: nat, q: nat, after: nat)
    returns (u: string, v: string, rest: string)
    requires a.Valid() && i < k <= q < after < |s| && !a.space(s[after]) && Solid(a.space, s[k..q])
    requires (forall x :: i <= x < k ==> Plain(s[x])) && forall x :: q <= x < after ==> Plain(s[x])
    ensures MaskNumbers(a, s) == u + (s[i..k] + (v + (s[q..after] + rest)))
    ensures Solid(a.space, v) && rest != "" && !a.space(rest[0])
  {
    u := PlainIsReached(a, s, 0, i);
    PlainIsCopied(a, s, i, k);
    v := PlainIsReached(a, s, k, q);
    PlainIsCopied(a, s, q, after);
    LogPatternIsSound(a);
    MaskIsSolid(a);
    StartsSolid(LogPattern(a), run => MaskPhone(a, run), a.space, s, after);
    rest := Masked(a, s, after);
  }

  lemma PiecesHoldLink(a: Alphabet, s: string, i: nat, k: nat, q: nat, word: string, u: string, v: string, rest: string)
    requires a.Valid() && i <= k <= q && q + |word| <= |s| && SchemeEnd(s, i) == Some(k)
    requires IsMarker(word) && SaysAt(s, q, word)
    requires Solid(a.space, v) && rest != "" && !a.space(rest[0])
    ensures HoldsLink(a, u + (s[i..k] + (v + (s[q..q + |word|] + rest))))
  {
    var w := u + (s[i..k] + (v + (s[q..q + |word|] + rest)));
    Pieces(u, s[i..k], v, s[q..q + |word|], rest);
    var k' := |u| + (k - i);
    var q' := k' + |v|;
    SchemeMoved(s, i, k, w, |u|);
    SaysMoved(s, q, w, q', word);
    assert w[q' + |word|] == w[q' + |word|..][0];
    AssembledLink(a, w, |u|, k', q', word);
  }

  lemma SolidStretch(a: Alphabet, s: string, k: nat, q: nat)
    requires k <= q <= |s| && forall t :: k <= t < q ==> !a.space(s[t])
    ensures Solid(a.space, s[k..q])
  {
  }

  lemma LinkParts(a: Alphabet, s: string, i: nat) returns (k: nat, q: nat, word: string)
    requires a.Valid() && i <= |s| && LinkEnd(a, s, i).Some?
    ensures i < k <= q && SchemeEnd(s, i) == Some(k) && forall x :: i <= x < k ==> Plain(s[x])
    ensures q + |word| < |s| && IsMarker(word) && SaysAt(s, q, word) && forall x :: q <= x < q + |word| ==> Plain(s[x])
    ensures Solid(a.space, s[k..q]) && !a.space(s[q + |word|])
  {
    var end;
    k, q, end := FoundIsLink(a, s, i);
    SchemeIsPlain(s, i);
    word := MarkerWord(s, q, end);
    SolidStretch(a, s, k, q);
  }

  lemma MaskedLinkStays(a: Alphabet, s: string, i: nat)
    requires a.Valid() && i <= |s| && LinkEnd(a, s, i).Some?
    ensures HoldsLink(a, MaskNumbers(a, s))
  {
    var k, q, word := LinkParts(a, s, i);
    var u, v, rest := MaskedPieces(a, s, i, k, q, q + |word|);
    PiecesHoldLink(a, s, i, k, q, word, u, v, rest);
  }

  /** Masking the numbers of a text leaves it with a link, if it had one. */
  lemma MaskingKeepsLinks(a: Alphabet, s: string)
    requires a.Valid() && HoldsLink(a, s)
    ensures HoldsLink(a, MaskNumbers(a, s))
  {
    var i: nat :| i <= |s| && LinkEnd(a, s, i).Some?;
    MaskedLinkStays(a, s, i);
  }

  // ----- taking the links out leaves none

  lemma CopiedSlice(s: string, i: nat, m: nat, rest: string, x: nat, y: nat)
    requires i <= m <= |s| && x <= y <= m - i
    ensures (s[i..m] + rest)[x..y] == s[i + x..i + y]
  {
    var w := s[i..m] + rest;
    SliceTwice(s, i, m, x, y);
    var copied := s[i..m];
    assert w[x..y] == copied[x..y];
  }

  lemma SliceTwice(s: string, i: nat, m: nat, x: nat, y: nat)
    requires i <= m <= |s| && x <= y <= m - i
    ensures s[i..m][x..y] == s[i + x..i + y]
  {
    var (whole, part) := (s[i..m][x..y], s[i + x..i + y]);
    forall t | 0 <= t < y - x
      ensures whole[t] == part[t]
    {
      assert whole[t] == s[i..m][x + t] == s[i + (x + t)];
    }
  }

  lemma SchemeEndsBefore(w: string, k: nat, n: nat)
    requires SchemeEnd(w, 0) == Some(k) && n < |w| && !Plain(w[n])
    ensures k <= n
  {
    SchemeIsPlain(w, 0);
  }

  lemma CopiedScheme(s: string, i: nat, m: nat, rest: string, k: nat)
    requires i <= m <= |s| && (rest != "" ==> rest[0] == '[') && SchemeEnd(s[i..m] + rest, 0) == Some(k)
    ensures i + k <= m && SchemeEnd(s, i) == Some(i + k)
  {
    var w := s[i..m] + rest;
    SchemeIsPlain(w, 0);
    if rest != "" {
      assert w[m - i] == rest[0];
      SchemeEndsBefore(w, k, m - i);
    }
    CopiedSlice(s, i, m, rest, 0, k);
    SchemeMoved(w, 0, k, s, i);
  }

  lemma CopiedMarker(s: string, i: nat, m: nat, rest: string, q: nat, end: nat)
    requires i <= m <= |s| && MarkerAt(s[i..m] + rest, q, end) && end <= m - i
    ensures MarkerAt(s, i + q, i + end)
  {
    var w := s[i..m] + rest;
    var word := MarkerWord(w, q, end);
    CopiedSlice(s, i, m, rest, q, q + |word|);
    SaysMoved(w, q, s, i + q, word);
  }

  lemma CopiedSolid(a: Alphabet, s: string, i: nat, m: nat, rest: string, k: nat, end: nat)
    requires i <= m <= |s| && end <= |s[i..m] + rest| && forall t :: k <= t < end ==> !a.space((s[i..m] + rest)[t])
    ensures forall t :: i + k <= t < m && t < i + end ==> !a.space(s[t])
  {
    var w := s[i..m] + rest;
    forall t | i + k <= t < m && t < i + end
      ensures !a.space(s[t])
    {
      assert w[t - i] == s[t];
    }
  }

  /** A link that ends in copied text stood in the text it was copied from. */
  lemma CopiedLinkStands(a: Alphabet, s: string, i: nat, m: nat, rest: string, k: nat, q: nat, end: nat)
    requires i <= m <= |s| && (rest != "" ==> rest[0] == '[')
    requires LinkAt(a, s[i..m] + rest, 0, k, q, end) && end <= m - i
    ensures LinkAt(a, s, i, i + k, i + q, i + end)
  {
    CopiedScheme(s, i, m, rest, k);
    CopiedSolid(a, s, i, m, rest, k, end);
    CopiedMarker(s, i, m, rest, q, end);
  }

  ghost predicate NoLinkFrom(a: Alphabet, w: string, x: nat) {
    forall k: nat, q: nat, end: nat :: !LinkAt(a, w, x, k, q, end)
  }

  lemma NoneFoundWhereNone(a: Alphabet, s: string, i: nat)
    requires i <= |s|
    ensures NoLinkFrom(a, s, i) <==> LinkEnd(a, s, i) == None
  {
    if LinkEnd(a, s, i).Some? {
      var k, q, end := FoundIsLink(a, s, i);
    }
    if !NoLinkFrom(a, s, i) {
      var k: nat, q: nat, end: nat :| LinkAt(a, s, i, k, q, end);
      LinkIsFound(a, s, i, k, q, end);
    }
  }

  /** Two links that share their token: the earlier scheme takes in the later marker. */
  lemma EarlierSchemeFound(a: Alphabet, s: string, i: nat, k: nat, m: nat)
    requires a.Valid() && i <= k <= m <= |s| && SchemeEnd(s, i) == Some(k) && !NoLinkFrom(a, s, m)
    requires forall t :: k <= t < m ==> !a.space(s[t])
    ensures !NoLinkFrom(a, s, i)
  {
    var k': nat, q: nat, end: nat :| LinkAt(a, s, m, k', q, end);
    SchemeIsPlain(s, m);
    forall t | k <= t < end
      ensures !a.space(s[t])
    {
      if m <= t < k' {
        PlainIsInert(a, s[t]);
      }
    }
    assert LinkAt(a, s, i, k, q, end);
  }

  /** A link that goes beyond copied text takes in the link that stands there. */
  lemma CopiedLinkReaches(a: Alphabet, s: string, i: nat, m: nat, rest: string, k: nat, q: nat, end: nat)
    requires a.Valid() && i <= m <= |s| && rest != "" && rest[0] == '[' && !NoLinkFrom(a, s, m)
    requires LinkAt(a, s[i..m] + rest, 0, k, q, end) && end > m - i
    ensures !NoLinkFrom(a, s, i)
  {
    CopiedScheme(s, i, m, rest, k);
    CopiedSolid(a, s, i, m, rest, k, end);
    EarlierSchemeFound(a, s, i, i + k, m);
  }

  lemma NoLinkAcross(a: Alphabet, s: string, i: nat, m: nat, rest: string)
    requires a.Valid() && i <= m <= |s| && NoLinkFrom(a, s, i)
    requires rest != "" ==> rest[0] == '[' && !NoLinkFrom(a, s, m)
    ensures NoLinkFrom(a, s[i..m] + rest, 0)
  {
    var w := s[i..m] + rest;
    forall k: nat, q: nat, end: nat
      ensures !LinkAt(a, w, 0, k, q, end)
    {
      if LinkAt(a, w, 0, k, q, end) {
        if end <= m - i {
          CopiedLinkStands(a, s, i, m, rest, k, q, end);
        } else {
          CopiedLinkReaches(a, s, i, m, rest, k, q, end);
        }
      }
    }
  }

  lemma NoLinkAtCopied(a: Alphabet, s: string, i: nat)
    requires a.Valid() && i < |s| && LinkEnd(a, s, i) == None
    ensures NoLinkFrom(a, WithoutLinks(a, s, i), 0)
  {
    CopiedUpToLink(a, s, i);
    var m := NextLink(a, s, i);
    RestStartsBracket(a, s, m);
    NoneFoundWhereNone(a, s, i);
    NoneFoundWhereNone(a, s, m);
    NoLinkAcross(a, s, i, m, WithoutLinks(a, s, m));
  }

  lemma RestStartsBracket(a: Alphabet, s: string, m: nat)
    requires a.Valid() && m <= |s| && (m < |s| ==> LinkEnd(a, s, m).Some?)
    ensures WithoutLinks(a, s, m) != "" ==> m < |s| && WithoutLinks(a, s, m)[0] == '['
  {
    if m < |s| {
      AfterLink(a, s, m);
    }
  }

  lemma LinkInRest(a: Alphabet, r: string, w: string, x: nat, k: nat, q: nat, end: nat)
    requires |r| <= x && LinkAt(a, r + w, x, k, q, end)
    ensures k >= |r| && LinkAt(a, w, x - |r|, k - |r|, q - |r|, end - |r|)
  {
    var v := r + w;
    SchemeIsPlain(v, x);
    assert v[x..k] == w[x - |r|..k - |r|];
    SchemeMoved(v, x, k, w, x - |r|);
    forall t | k - |r| <= t < end - |r|
      ensures !a.space(w[t])
    {
      assert v[t + |r|] == w[t];
    }
    var word := MarkerWord(v, q, end);
    assert v[q..q + |word|] == w[q - |r|..q - |r| + |word|];
    SaysMoved(v, q, w, q - |r|, word);
  }

  lemma NoLinkBehind(a: Alphabet, r: string, w: string, x: nat)
    requires |r| <= x && NoLinkFrom(a, w, x - |r|)
    ensures NoLinkFrom(a, r + w, x)
  {
    forall k: nat, q: nat, end: nat
      ensures !LinkAt(a, r + w, x, k, q, end)
    {
      if LinkAt(a, r + w, x, k, q, end) {
        LinkInRest(a, r, w, x, k, q, end);
      }
    }
  }

  lemma NoLinkWithoutH(a: Alphabet, w: string, x: nat)
    requires x < |w| ==> w[x] != 'h' && w[x] != 'H'
    ensures SchemeEnd(w, x) == None && NoLinkFrom(a, w, x)
  {
    if SchemeEnd(w, x).Some? {
      SchemeIsPlain(w, x);
    }
  }

  lemma NoLinkAfterMark(a: Alphabet, rest: string, x: nat)
    requires x >= |REDACTED| ==> NoLinkFrom(a, rest, x - |REDACTED|)
    ensures NoLinkFrom(a, REDACTED + rest, x)
  {
    if x < |REDACTED| {
      assert (REDACTED + rest)[x] == REDACTED[x];
      NoLinkWithoutH(a, REDACTED + rest, x);
    } else {
      NoLinkBehind(a, REDACTED, rest, x);
    }
  }

  lemma {:induction false} NoLinkLeft(a: Alphabet, s: string, i: nat, x: nat)
    requires a.Valid() && i <= |s|
    ensures NoLinkFrom(a, WithoutLinks(a, s, i), x)
    decreases |s| - i, 1
  {
    if i == |s| {
    } else if LinkEnd(a, s, i).Some? {
      NoLinkLeftAtLink(a, s, i, x);
    } else if x == 0 {
      NoLinkAtCopied(a, s, i);
    } else {
      NoLinkLeftAtCopied(a, s, i, x);
    }
  }

  lemma {:induction false} NoLinkLeftAtLink(a: Alphabet, s: string, i: nat, x: nat)
    requires a.Valid() && i < |s| && LinkEnd(a, s, i).Some?
    ensures NoLinkFrom(a, WithoutLinks(a, s, i), x)
    decreases |s| - i, 0
  {
    AfterLink(a, s, i);
    var e := LinkEnd(a, s, i).value;
    if x >= |REDACTED| {
      NoLinkLeft(a, s, e, x - |REDACTED|);
    }
    NoLinkAfterMark(a, WithoutLinks(a, s, e), x);
  }

  lemma {:induction false} NoLinkLeftAtCopied(a: Alphabet, s: string, i: nat, x: nat)
    requires a.Valid() && i < |s| && LinkEnd(a, s, i) == None && x > 0
    ensures NoLinkFrom(a, WithoutLinks(a, s, i), x)
    decreases |s| - i, 0
  {
    CopiedOneMore(a, s, i);
    NoLinkLeft(a, s, i + 1, x - 1);
    NoLinkBehind(a, [s[i]], WithoutLinks(a, s, i + 1), x);
  }

  lemma WithoutLinksHoldsNone(a: Alphabet, s: string)
    requires a.Valid()
    ensures !HoldsLink(a, WithoutLinks(a, s, 0))
  {
    var w := WithoutLinks(a, s, 0);
    if HoldsLink(a, w) {
      var i: nat :| i <= |w| && LinkEnd(a, w, i).Some?;
      var k, q, end := FoundIsLink(a, w, i);
      NoLinkLeft(a, s, 0, i);
    }
  }

  lemma MaskHoldsNoLink(a: Alphabet, s: string)
    requires a.Valid()
    ensures !HoldsLink(a, MaskPhone(a, s))
  {
    var w := MaskPhone(a, s);
    DigitsAreDigits(a, s);
    assert Spelled('h') && Spelled('H');
    forall i: nat | i <= |w|
      ensures LinkEnd(a, w, i) == None
    {
      NoLinkWithoutH(a, w, i);
    }
  }

  /**
   Of a text with a link in it, redaction leaves a link exactly when a number stood in it too and its
   key is not a phone key: the search for links comes only after the search for numbers has failed.
   */
  lemma LinkStaysIffNumber(a: Alphabet, lowered: string, s: string)
    requires a.Valid() && HoldsLink(a, s)
    ensures HoldsLink(a, RedactText(a, lowered, s)) <==> lowered !in PHONE_KEYS && HoldsNumber(a, s)
  {
    MaskHoldsNoLink(a, s);
    MaskingKeepsLinks(a, s);
    WithoutLinksHoldsNone(a, s);
  }

  // ----- a text with both

  lemma {:induction false} DigitsAreBody(p: Pattern, w: string)
    requires forall k :: 0 <= k < |w| ==> p.digit(w[k])
    ensures p.IsBody(w, |w|)
    decreases |w|
  {
    if w != "" {
      DigitsAreBody(p, w[1..]);
    }
  }

  lemma TenDigitsAreHeld(a: Alphabet, s: string, i: nat)
    requires a.Valid() && 0 < i && i + 10 == |s| && !a.digit(s[i - 1])
    requires '6' <= s[i] <= '9' && forall k :: i <= k < |s| ==> '0' <= s[k] <= '9'
    ensures HoldsNumber(a, s)
  {
    var p := LogPattern(a);
    var w := s[i..|s|];
    assert forall k :: 0 <= k < 10 ==> a.digit(w[k]);
    DigitsAreBody(p, w[1..]);
    assert p.IsRun(w) && p.Occurs(s, i, |s|);
    LogPatternIsSound(a);
    MatcherIsExact(p, s, i);
  }

  lemma CallLinkIsHeld(a: Alphabet, s: string, end: nat)
    requires a.Valid() && 15 <= end <= |s| && s[0..7] == "http://" && s[8..14] == "/call/"
    requires forall t :: 7 <= t < end ==> Plain(s[t]) || '0' <= s[t] <= '9'
    ensures HoldsLink(a, s)
  {
    assert Lower("http://") == "http://" && Lower("/call/") == "/call/";
    forall t | 7 <= t < end
      ensures !a.space(s[t])
    {
      if Plain(s[t]) {
        PlainIsInert(a, s[t]);
      }
    }
    LinkIsFound(a, s, 0, 7, 8, end);
  }

  lemma LinkWithNumberStays(a: Alphabet, lowered: string, s: string)
    requires a.Valid() && lowered !in PHONE_KEYS
    requires |s| == 24 && s[0..7] == "http://" && s[7] == 'a' && s[8..14] == "/call/" && '6' <= s[14] <= '9'
    requires forall k :: 14 <= k < 24 ==> '0' <= s[k] <= '9'
    ensures HoldsLink(a, s) && HoldsNumber(a, s) && HoldsLink(a, RedactText(a, lowered, s))
  {
    assert forall t :: 8 <= t < 14 ==> s[t] == s[8..14][t - 8];
    assert s[13] == '/' && Spelled('/');
    CallLinkIsHeld(a, s, 24);
    TenDigitsAreHeld(a, s, 14);
    LinkStaysIffNumber(a, lowered, s);
  }

  /** A link to a call that ends in a number is still a link after redaction, under a key that is no phone key. */
  lemma ALinkStays(a: Alphabet) returns (s: string)
    requires a.Valid()
    ensures s == "http://a/call/9876543210" && HoldsLink(a, s) && HoldsNumber(a, s)
    ensures HoldsLink(a, RedactText(a, "event", s))
  {
    s := "http://a/call/9876543210";
    assert s[0..7] == "http://" && s[8..14] == "/call/";
    LinkWithNumberStays(a, "event", s);
  }
}
