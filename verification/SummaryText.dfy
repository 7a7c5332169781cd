/**
 Reading the model's two-line summary: `parse_summary`, `_unlabel` and `scrub_numbers` of
 apps/worker/src/worker/summary.py. Letters are folded to lower case as ASCII.
 */
module SummaryText {
  import opened Wrappers
  import opened LogRedaction

  // ----- lines

  predicate IsBreak(c: char) {
    var n := c as int;
    10 <= n <= 13 || 0x1C <= n <= 0x1E || n == 0x85 || n == 0x2028 || n == 0x2029
  }

  /** Where the next line starts: a carriage return and the line feed after it are one break. */
  function NextLine(text: string, n: nat): (m: nat)
    requires n < |text|
    ensures n < m <= |text|
  {
    if text[n] == '\r' && n + 1 < |text| && text[n + 1] == '\n' then n + 2 else n + 1
  }

  /** The lines from `start` on, where the characters before `i` are known to be of the first of them. */
  function LinesFrom(text: string, start: nat, i: nat): seq<string>
    requires start <= i <= |text|
    decreases |text| - i
  {
    if i == |text| then if start == i then [] else [text[start..i]]
    else if IsBreak(text[i]) then [text[start..i]] + LinesFrom(text, NextLine(text, i), NextLine(text, i))
    else LinesFrom(text, start, i + 1)
  }

  function Lines(text: string): seq<string> {
    LinesFrom(text, 0, 0)
  }

  function Skip(is_: char -> bool, s: string, i: nat): (j: nat)
    requires i <= |s|
    ensures i <= j <= |s| && (j < |s| ==> !is_(s[j])) && forall k :: i <= k < j ==> is_(s[k])
    decreases |s| - i
  {
    if i < |s| && is_(s[i]) then Skip(is_, s, i + 1) else i
  }

  function TrimEnd(a: Alphabet, s: string): string {
    if s != "" && a.space(s[|s| - 1]) then TrimEnd(a, s[..|s| - 1]) else s
  }

  function Trim(a: Alphabet, s: string): string {
    TrimEnd(a, s[Skip(a.space, s, 0)..])
  }

  function NonBlank(a: Alphabet, lines: seq<string>): seq<string> {
    if lines == [] then []
    else (if Trim(a, lines[0]) == "" then [] else [lines[0]]) + NonBlank(a, lines[1..])
  }

  /** The lines that are read. */
  function Kept(a: Alphabet, text: string): seq<string> {
    NonBlank(a, Lines(text))
  }

  // ----- labels

  const LABELS: seq<string> := ["hindi", "english", "hi", "en", "हिंदी", "अंग्रेज़ी"]

  predicate IsColon(c: char) {
    c == ':' || c == '：' || c == '-'
  }

  /** Where a numeral with its dot or bracket ends, spaces after it included. */
  function NumeralEnd(a: Alphabet, s: string, i: nat): Option<nat>
    requires i <= |s|
  {
    var j := Skip(a.digit, s, i);
    if i < j < |s| && (s[j] == '.' || s[j] == ')') then Some(Skip(a.space, s, j + 1)) else None
  }

  /** Where a word with its colon ends, spaces after it included. */
  function WordEnd(a: Alphabet, s: string, i: nat, word: string): Option<nat>
    requires i <= |s|
  {
    if SaysAt(s, i, word) then
      var j := Skip(a.space, s, i + |word|);
      if j < |s| && IsColon(s[j]) then Some(Skip(a.space, s, j + 1)) else None
    else None
  }

  function WordsEnd(a: Alphabet, s: string, i: nat, words: seq<string>): Option<nat>
    requires i <= |s|
    decreases |words|
  {
    if words == [] then None
    else
      var e := WordEnd(a, s, i, words[0]);
      if e.Some? then e else WordsEnd(a, s, i, words[1..])
  }

  /** The line after a leading label, if it has one of these words or a numeral. */
  function AfterLabel(a: Alphabet, s: string, words: seq<string>): string {
    var i := Skip(a.space, s, 0);
    var numeral := NumeralEnd(a, s, i);
    var end := if numeral.Some? then numeral else WordsEnd(a, s, i, words);
    if end.Some? && end.value <= |s| then s[end.value..] else s
  }

  function Unlabel(a: Alphabet, s: string): string {
    Trim(a, AfterLabel(a, s, LABELS))
  }

  /** The first two lines that are not blank, without their labels, scrubbed. */
  function ParseSummary(a: Alphabet, text: string): (string, string) {
    var lines := Kept(a, text);
    (ScrubNumbers(a, if |lines| > 0 then Unlabel(a, lines[0]) else ""),
     ScrubNumbers(a, if |lines| > 1 then Unlabel(a, lines[1]) else ""))
  }

  /** No summary holds anything that looks like a subscriber number, and scrubbing again changes nothing. */
  lemma SummariesHoldNoNumber(a: Alphabet, text: string)
    requires a.Valid()
    ensures var (hindi, english) := ParseSummary(a, text);
      SummaryPattern(a).Free(hindi) && SummaryPattern(a).Free(english)
      && ScrubNumbers(a, hindi) == hindi && ScrubNumbers(a, english) == english
  {
    var lines := Kept(a, text);
    var first := if |lines| > 0 then Unlabel(a, lines[0]) else "";
    var second := if |lines| > 1 then Unlabel(a, lines[1]) else "";
    ScrubbedIsFree(a, first);
    ScrubbedIsFree(a, second);
  }

  // ----- a blank line costs nothing

  predicate AllSpace(a: Alphabet, s: string) {
    forall k :: 0 <= k < |s| ==> a.space(s[k])
  }

  lemma {:induction false} LinesBehind(front: string, text: string, start: nat, i: nat)
    requires start <= i <= |text|
    ensures LinesFrom(front + text, |front| + start, |front| + i) == LinesFrom(text, start, i)
    decreases |text| - i
  {
    var whole := front + text;
    assert whole[|front| + start..|front| + i] == text[start..i];
    if i < |text| {
      if IsBreak(text[i]) {
        assert NextLine(whole, |front| + i) == |front| + NextLine(text, i);
        LinesBehind(front, text, NextLine(text, i), NextLine(text, i));
      } else {
        LinesBehind(front, text, start, i + 1);
      }
    }
  }

  /** Some lines and then others, but for an empty one between them. */
  predicate Joined(all: seq<string>, front: seq<string>, rest: seq<string>) {
    all == front + rest || all == front + ([""] + rest)
  }

  lemma OneMoreJoined(line: string, all: seq<string>, front: seq<string>, rest: seq<string>)
    requires Joined(all, front, rest)
    ensures Joined([line] + all, [line] + front, rest)
  {
    assert [line] + (front + rest) == [line] + front + rest;
    assert [line] + (front + ([""] + rest)) == [line] + front + ([""] + rest);
  }

  /** The lines of a text and a line feed are its own and what follows, but for an empty one. */
  lemma {:induction false} LinesBefore(front: string, text: string, start: nat, i: nat)
    requires start <= i <= |front|
    ensures var whole := front + ("\n" + text);
      Joined(LinesFrom(whole, start, i), LinesFrom(front, start, i), LinesFrom(whole, |front| + 1, |front| + 1))
    decreases |front| - i
  {
    var whole := front + ("\n" + text);
    var rest := LinesFrom(whole, |front| + 1, |front| + 1);
    assert whole[start..i] == front[start..i];
    if i == |front| {
      assert whole[i] == '\n' && LinesFrom(whole, start, i) == [whole[start..i]] + rest;
    } else if !IsBreak(front[i]) {
      LinesBefore(front, text, start, i + 1);
    } else if front[i] == '\r' && i + 1 == |front| {
      assert whole[i + 1] == '\n' && LinesFrom(whole, start, i) == [whole[start..i]] + rest;
      assert LinesFrom(front, start, i) == [front[start..i]] + [];
    } else {
      var m := NextLine(front, i);
      assert NextLine(whole, i) == m;
      LinesBefore(front, text, m, m);
      OneMoreJoined(front[start..i], LinesFrom(whole, m, m), LinesFrom(front, m, m), rest);
    }
  }

  lemma {:induction false} NonBlankJoins(a: Alphabet, front: seq<string>, rest: seq<string>)
    ensures NonBlank(a, front + rest) == NonBlank(a, front) + NonBlank(a, rest)
  {
    if front == [] {
      assert front + rest == rest;
    } else {
      assert (front + rest)[1..] == front[1..] + rest;
      NonBlankJoins(a, front[1..], rest);
    }
  }

  lemma EmptyIsBlank(a: Alphabet, rest: seq<string>)
    ensures NonBlank(a, [""] + rest) == NonBlank(a, rest)
  {
    assert ([""] + rest)[1..] == rest;
  }

  /** A text that ends in a line feed and one that follows are read line by line, first the one and then the other. */
  lemma LinesJoin(a: Alphabet, front: string, text: string)
    ensures Kept(a, front + "\n" + text) == Kept(a, front) + Kept(a, text)
  {
    assert front + ("\n" + text) == front + "\n" + text;
    LinesBefore(front, text, 0, 0);
    LinesBehind(front + "\n", text, 0, 0);
    NonBlankJoins(a, Lines(front), Lines(text));
    NonBlankJoins(a, Lines(front), [""] + Lines(text));
    EmptyIsBlank(a, Lines(text));
  }

  /** Of white space every line is blank. */
  lemma {:induction false} SpaceLines(a: Alphabet, s: string, start: nat, i: nat)
    requires AllSpace(a, s) && start <= i <= |s|
    ensures forall line :: line in LinesFrom(s, start, i) ==> AllSpace(a, line)
    decreases |s| - i
  {
    if i < |s| {
      if IsBreak(s[i]) {
        SpaceLines(a, s, NextLine(s, i), NextLine(s, i));
      } else {
        SpaceLines(a, s, start, i + 1);
      }
    }
  }

  lemma {:induction false} BlankLinesGo(a: Alphabet, lines: seq<string>)
    requires forall line :: line in lines ==> AllSpace(a, line)
    ensures NonBlank(a, lines) == []
  {
    if lines != [] {
      assert lines[0] in lines && Skip(a.space, lines[0], 0) == |lines[0]|;
      BlankLinesGo(a, lines[1..]);
    }
  }

  lemma AllSpaceIsBlank(a: Alphabet, s: string)
    requires AllSpace(a, s)
    ensures Kept(a, s) == []
  {
    SpaceLines(a, s, 0, 0);
    BlankLinesGo(a, Lines(s));
  }

  /** White space on lines of its own costs nothing, before, between or after. */
  lemma BlankLineCostsNothing(a: Alphabet, front: string, blank: string, rest: string)
    requires AllSpace(a, blank)
    ensures ParseSummary(a, blank + "\n" + rest) == ParseSummary(a, rest)
    ensures ParseSummary(a, front + "\n" + (blank + "\n" + rest)) == ParseSummary(a, front + "\n" + rest)
    ensures ParseSummary(a, front + "\n" + blank) == ParseSummary(a, front)
  {
    AllSpaceIsBlank(a, blank);
    LinesJoin(a, blank, rest);
    LinesJoin(a, front, blank + "\n" + rest);
    LinesJoin(a, front, rest);
    LinesJoin(a, front, blank);
  }

  predicate OneLine(s: string) {
    forall k :: 0 <= k < |s| ==> !IsBreak(s[k])
  }

  lemma {:induction false} NoBreakAhead(s: string, i: nat)
    requires OneLine(s) && i <= |s| && s != ""
    ensures LinesFrom(s, 0, i) == [s]
    decreases |s| - i
  {
    if i < |s| {
      NoBreakAhead(s, i + 1);
    } else {
      assert s[0..i] == s;
    }
  }

  lemma OneLineAlone(a: Alphabet, s: string)
    requires OneLine(s) && Trim(a, s) != ""
    ensures Kept(a, s) == [s]
  {
    NoBreakAhead(s, 0);
    assert NonBlank(a, [s]) == [s] + NonBlank(a, [s][1..]);
  }

  /** Whatever white space stands around them, the first two lines are read, and nothing after them. */
  lemma TwoLinesAreRead(a: Alphabet, before: string, first: string, between: string, second: string, rest: string)
    requires AllSpace(a, before) && AllSpace(a, between)
    requires OneLine(first) && OneLine(second) && Trim(a, first) != "" && Trim(a, second) != ""
    ensures ParseSummary(a, before + "\n" + (first + "\n" + (between + "\n" + (second + "\n" + rest))))
         == (ScrubNumbers(a, Unlabel(a, first)), ScrubNumbers(a, Unlabel(a, second)))
  {
    AllSpaceIsBlank(a, before);
    AllSpaceIsBlank(a, between);
    OneLineAlone(a, first);
    OneLineAlone(a, second);
    LinesJoin(a, second, rest);
    LinesJoin(a, between, second + "\n" + rest);
    LinesJoin(a, first, between + "\n" + (second + "\n" + rest));
    LinesJoin(a, before, first + "\n" + (between + "\n" + (second + "\n" + rest)));
  }

  // ----- a label costs nothing

  /** Small letters and Devanagari ones. */
  predicate Lettered(word: string) {
    word != "" && forall k :: 0 <= k < |word| ==> 'a' <= word[k] <= 'z' || 0x900 <= word[k] as int <= 0x963
  }

  lemma SaidIsLettered(a: Alphabet, s: string, i: nat, word: string, x: nat)
    requires a.Valid() && SaysAt(s, i, word) && Lettered(word) && i <= x < i + |word|
    ensures !a.space(s[x]) && !a.digit(s[x]) && !IsColon(s[x])
  {
    var w := s[i..i + |word|];
    assert w[x - i] == s[x] && Lower(w)[x - i] == LowerChar(s[x]) == word[x - i];
    assert Spelled(s[x]);
  }

  /** A word whose colon follows ends there: no longer word is said at the same place. */
  lemma NoLongerLabel(a: Alphabet, s: string, i: nat, word: string, other: string)
    requires a.Valid() && Lettered(word) && Lettered(other) && i <= |s| && |word| < |other|
    requires WordEnd(a, s, i, word).Some?
    ensures !SaysAt(s, i, other)
  {
    if SaysAt(s, i, other) {
      SaidIsLettered(a, s, i, other, i + |word|);
    }
  }

  lemma OneLabel(a: Alphabet, s: string, i: nat, word: string, other: string)
    requires a.Valid() && Lettered(word) && Lettered(other) && i <= |s|
    requires WordEnd(a, s, i, word).Some? && WordEnd(a, s, i, other).Some?
    ensures word == other
  {
    if |word| < |other| {
      NoLongerLabel(a, s, i, word, other);
    } else if |other| < |word| {
      NoLongerLabel(a, s, i, other, word);
    }
  }

  lemma {:induction false} LabelIsFound(a: Alphabet, s: string, i: nat, words: seq<string>, word: string)
    requires a.Valid() && i <= |s| && word in words && forall w :: w in words ==> Lettered(w)
    requires WordEnd(a, s, i, word).Some?
    ensures WordsEnd(a, s, i, words) == WordEnd(a, s, i, word)
    decreases |words|
  {
    assert words == [words[0]] + words[1..];
    if WordEnd(a, s, i, words[0]).Some? {
      OneLabel(a, s, i, word, words[0]);
    } else {
      LabelIsFound(a, s, i, words[1..], word);
    }
  }

  lemma SkipAfter(is_: char -> bool, front: string, text: string)
    ensures Skip(is_, front + text, |front|) == |front| + Skip(is_, text, 0)
  {
    SkipShifted(is_, front, text, 0);
  }

  lemma {:induction false} SkipShifted(is_: char -> bool, front: string, text: string, i: nat)
    requires i <= |text|
    ensures Skip(is_, front + text, |front| + i) == |front| + Skip(is_, text, i)
    decreases |text| - i
  {
    if i < |text| {
      assert (front + text)[|front| + i] == text[i];
      SkipShifted(is_, front, text, i + 1);
    }
  }

  /** Where a stretch of such characters ends that starts at `i`. */
  lemma SkipEnds(is_: char -> bool, s: string, i: nat, j: nat)
    requires i <= j <= |s| && (j < |s| ==> !is_(s[j])) && forall k :: i <= k < j ==> is_(s[k])
    ensures Skip(is_, s, i) == j
  {
  }

  /** White space, and then a character that is none: there the label would start, and no numeral does. */
  lemma LeadEnds(a: Alphabet, s: string, i: nat)
    requires i < |s| && !a.space(s[i]) && !a.digit(s[i]) && forall x :: 0 <= x < i ==> a.space(s[x])
    ensures Skip(a.space, s, 0) == i && NumeralEnd(a, s, i) == None
  {
    SkipEnds(a.space, s, 0, i);
    SkipEnds(a.digit, s, i, i);
  }

  /** A word, white space, and then the colon. */
  lemma ColonEnds(a: Alphabet, s: string, i: nat, k: nat, word: string)
    requires a.Valid() && i + |word| <= k < |s| && SaysAt(s, i, word) && IsColon(s[k])
    requires forall x :: i + |word| <= x < k ==> a.space(s[x])
    ensures WordEnd(a, s, i, word) == Some(Skip(a.space, s, k + 1))
  {
    assert Spelled(s[k]);
    SkipEnds(a.space, s, i + |word|, k);
  }

  /** Behind white space stands a label, a word with its colon. */
  lemma LabelAt(a: Alphabet, s: string, i: nat, j: nat, k: nat, word: string)
    requires a.Valid() && i <= j <= k < |s| && Lettered(word) && |word| == j - i && SaysAt(s, i, word)
    requires forall x :: 0 <= x < i || j <= x < k ==> a.space(s[x])
    requires IsColon(s[k])
    ensures Skip(a.space, s, 0) == i && NumeralEnd(a, s, i) == None
    ensures WordEnd(a, s, i, word) == Some(Skip(a.space, s, k + 1))
  {
    SaidIsLettered(a, s, i, word, i);
    LeadEnds(a, s, i);
    ColonEnds(a, s, i, k, word);
  }

  lemma PiecesStand(lead: string, said: string, gap: string, colon: char, text: string)
    ensures var s := lead + said + gap + [colon] + text;
      var j := |lead| + |said|;
      && s[|lead|..j] == said && s[j + |gap|] == colon
      && (forall x :: 0 <= x < |lead| ==> s[x] == lead[x])
      && (forall x :: j <= x < j + |gap| ==> s[x] == gap[x - j])
  {
  }

  lemma LabelStands(a: Alphabet, lead: string, said: string, gap: string, colon: char, text: string)
    requires a.Valid() && AllSpace(a, lead) && AllSpace(a, gap) && Lettered(Lower(said)) && IsColon(colon)
    ensures var front := lead + said + gap + [colon];
      var s := front + text;
      && Skip(a.space, s, 0) == |lead| && NumeralEnd(a, s, |lead|) == None
      && WordEnd(a, s, |lead|, Lower(said)) == Some(|front| + Skip(a.space, text, 0))
  {
    var front := lead + said + gap + [colon];
    var j := |lead| + |said|;
    PiecesStand(lead, said, gap, colon, text);
    LabelAt(a, front + text, |lead|, j, j + |gap|, Lower(said));
    SkipAfter(a.space, front, text);
  }

  lemma LabelGoes(
    a: Alphabet, words: seq<string>, lead: string, said: string, gap: string, colon: char, text: string)
    requires a.Valid() && AllSpace(a, lead) && AllSpace(a, gap) && IsColon(colon)
    requires Lower(said) in words && forall w :: w in words ==> Lettered(w)
    ensures AfterLabel(a, lead + said + gap + [colon] + text, words) == text[Skip(a.space, text, 0)..]
  {
    LabelStands(a, lead, said, gap, colon, text);
    LabelIsFound(a, lead + said + gap + [colon] + text, |lead|, words, Lower(said));
  }

  /**
   A label and its colon are dropped and the rest is trimmed, in capitals or small letters, with white
   space before the label and before the colon or without. Of two labels only the first is dropped.
   */
  lemma LabelCostsNothing(a: Alphabet, lead: string, said: string, gap: string, colon: char, text: string)
    requires a.Valid() && AllSpace(a, lead) && AllSpace(a, gap)
    requires Lower(said) in ["hindi", "english", "hi", "en", "हिंदी", "अंग्रेज़ी"]
    requires colon == ':' || colon == '：' || colon == '-'
    ensures Unlabel(a, lead + said + gap + [colon] + text) == Trim(a, text)
  {
    LabelGoes(a, LABELS, lead, said, gap, colon, text);
  }

  /** A line that starts with neither a digit nor one of the labels is only trimmed. */
  lemma PlainLineStays(a: Alphabet, lead: string, text: string)
    requires AllSpace(a, lead) && text != "" && !a.space(text[0]) && !a.digit(text[0])
    requires forall word :: word in ["hindi", "english", "hi", "en", "हिंदी", "अंग्रेज़ी"] ==> !SaysAt(text, 0, word)
    ensures Unlabel(a, lead + text) == Trim(a, lead + text)
  {
    var s := lead + text;
    var i := |lead|;
    assert s[i] == text[0] && forall x :: 0 <= x < i ==> s[x] == lead[x];
    SkipEnds(a.space, s, 0, i);
    SkipEnds(a.digit, s, i, i);
    forall word | word in LABELS
      ensures !SaysAt(s, i, word)
    {
      assert |word| <= |text| ==> s[i..i + |word|] == text[0..|word|];
    }
    NoLabelFound(a, s, i, LABELS);
  }

  lemma {:induction false} NoLabelFound(a: Alphabet, s: string, i: nat, words: seq<string>)
    requires i <= |s| && forall word :: word in words ==> !SaysAt(s, i, word)
    ensures WordsEnd(a, s, i, words) == None
    decreases |words|
  {
    if words != [] {
      assert words[0] in words;
      NoLabelFound(a, s, i, words[1..]);
    }
  }

  /** Trimming takes the white space at both ends, and nothing else. */
  lemma TrimIs(a: Alphabet, s: string) returns (i: nat, j: nat)
    ensures i <= j <= |s| && Trim(a, s) == s[i..j]
    ensures forall k :: 0 <= k < i || j <= k < |s| ==> a.space(s[k])
    ensures i < j ==> !a.space(s[i]) && !a.space(s[j - 1])
  {
    i := Skip(a.space, s, 0);
    var n := TrimEndIs(a, s[i..]);
    j := i + n;
    assert s[i..][..n] == s[i..j];
    assert forall k :: j <= k < |s| ==> s[k] == s[i..][k - i];
  }

  lemma {:induction false} TrimEndIs(a: Alphabet, s: string) returns (n: nat)
    ensures n <= |s| && TrimEnd(a, s) == s[..n]
    ensures (forall k :: n <= k < |s| ==> a.space(s[k])) && (n > 0 ==> !a.space(s[n - 1]))
  {
    if s != "" && a.space(s[|s| - 1]) {
      n := TrimEndIs(a, s[..|s| - 1]);
      assert s[..|s| - 1][..n] == s[..n];
    } else {
      n := |s|;
      assert s[..n] == s;
    }
  }

  /** Every line break of Unicode ends a line, and no other character does. */
  lemma BreakEndsLine(first: string, c: char, second: string)
    requires OneLine(first) && OneLine(second) && second != ""
    ensures Lines(first + [c] + second) ==
      if c in "\n\r\U{B}\U{C}\U{1C}\U{1D}\U{1E}\U{85}\U{2028}\U{2029}" then [first, second]
      else [first + [c] + second]
  {
    var s := first + [c] + second;
    if IsBreak(c) {
      BrokenAt(first, c, second, 0);
    } else {
      assert forall k :: 0 <= k < |s| ==> !IsBreak(s[k]);
      NoBreakAhead(s, 0);
    }
  }

  lemma {:induction false} BrokenAt(first: string, c: char, second: string, i: nat)
    requires OneLine(first) && OneLine(second) && second != "" && IsBreak(c) && i <= |first|
    ensures LinesFrom(first + [c] + second, 0, i) == [first, second]
    decreases |first| - i
  {
    var s := first + [c] + second;
    if i < |first| {
      assert s[i] == first[i];
      BrokenAt(first, c, second, i + 1);
    } else {
      assert s[i] == c && s[i + 1] == second[0] && s[0..i] == first;
      assert NextLine(s, i) == i + 1;
      LinesBehind(first + [c], second, 0, 0);
      NoBreakAhead(second, 0);
    }
  }

  /** Behind white space stands a numeral with its dot or bracket. */
  lemma NumeralAt(a: Alphabet, s: string, i: nat, j: nat)
    requires a.Valid() && i < j < |s| && (s[j] == '.' || s[j] == ')')
    requires forall x :: 0 <= x < i ==> a.space(s[x])
    requires forall x :: i <= x < j ==> a.digit(s[x])
    ensures Skip(a.space, s, 0) == i && NumeralEnd(a, s, i) == Some(Skip(a.space, s, j + 1))
  {
    assert Spelled(s[j]) && a.digit(s[i]);
    SkipEnds(a.space, s, 0, i);
    SkipEnds(a.digit, s, i, j);
  }

  /** And so is a numeral with a dot or a bracket. */
  lemma NumeralCostsNothing(a: Alphabet, lead: string, digits: string, mark: char, text: string)
    requires a.Valid() && AllSpace(a, lead) && (mark == '.' || mark == ')')
    requires digits != "" && forall k :: 0 <= k < |digits| ==> a.digit(digits[k])
    ensures Unlabel(a, lead + digits + [mark] + text) == Trim(a, text)
  {
    NumeralGoes(a, LABELS, lead, digits, mark, text);
  }

  lemma NumeralGoes(a: Alphabet, words: seq<string>, lead: string, digits: string, mark: char, text: string)
    requires a.Valid() && AllSpace(a, lead) && (mark == '.' || mark == ')')
    requires digits != "" && forall k :: 0 <= k < |digits| ==> a.digit(digits[k])
    ensures AfterLabel(a, lead + digits + [mark] + text, words) == text[Skip(a.space, text, 0)..]
  {
    var front := lead + digits + [mark];
    var s := front + text;
    var j := |lead| + |digits|;
    assert forall x :: 0 <= x < |lead| ==> s[x] == lead[x];
    assert forall x :: |lead| <= x < j ==> s[x] == digits[x - |lead|];
    NumeralAt(a, s, |lead|, j);
    SkipAfter(a.space, front, text);
    assert s[|front| + Skip(a.space, text, 0)..] == text[Skip(a.space, text, 0)..];
  }
}
