/**
 What redaction makes of an event, told by its keys and texts: `_redact_value`, `_mask_phone` and the
 key sets of packages/domain/src/uaagro_domain/logging.py, and what the patterns there and in
 apps/worker/src/worker/summary.py take for a number and for a link.
 */
module RedactedEvents {
  import opened Wrappers
  import opened NumberPattern
  import opened NumberScrub
  import opened LogRedaction

  // ----- keys

  /** The word, in capitals or small letters. */
  predicate SameWord(said: string, word: string) {
    |said| == |word| && forall i :: 0 <= i < |word| ==>
      said[i] == word[i] || ('a' <= word[i] <= 'z' && said[i] as int + 32 == word[i] as int)
  }

  predicate EndsIn(key: string, word: string) {
    |word| <= |key| && SameWord(key[|key| - |word|..], word)
  }

  predicate NamesSecret(key: string) {
    SecretWord(key) || SecretEnding(key)
  }

  predicate SecretWord(key: string) {
    || SameWord(key, "password") || SameWord(key, "token") || SameWord(key, "api_key")
    || SameWord(key, "access_token") || SameWord(key, "authorization") || SameWord(key, "secret")
    || SameWord(key, "key_hash") || SameWord(key, "mfa_secret") || SameWord(key, "phone_enc")
    || SameWord(key, "pepper") || SameWord(key, "dek") || SameWord(key, "recording_url") || SameWord(key, "signed_url")
  }

  predicate SecretEnding(key: string) {
    || EndsIn(key, "_secret") || EndsIn(key, "_token") || EndsIn(key, "_password") || EndsIn(key, "_key")
  }

  predicate NamesPhone(key: string) {
    || SameWord(key, "phone") || SameWord(key, "from_number") || SameWord(key, "to_number")
    || SameWord(key, "msisdn") || SameWord(key, "caller") || SameWord(key, "cli")
  }

  predicate Small(word: string) {
    forall i :: 0 <= i < |word| ==> !('A' <= word[i] <= 'Z')
  }

  lemma LowerSays(said: string, word: string)
    requires Small(word)
    ensures Lower(said) == word <==> SameWord(said, word)
  {
    if SameWord(said, word) {
      assert forall i :: 0 <= i < |word| ==> Lower(said)[i] == word[i];
    }
    if Lower(said) == word {
      assert forall i :: 0 <= i < |word| ==> LowerChar(said[i]) == word[i];
    }
  }

  lemma LowerEnds(key: string, word: string)
    requires Small(word)
    ensures EndsWith(Lower(key), word) <==> EndsIn(key, word)
  {
    if |word| <= |key| {
      assert Lower(key)[|key| - |word|..] == Lower(key[|key| - |word|..]);
      LowerSays(key[|key| - |word|..], word);
    }
  }

  lemma SomeSecretWords(key: string)
    ensures Lower(key) in {"password", "token", "api_key", "access_token", "authorization", "secret"} <==>
      || SameWord(key, "password") || SameWord(key, "token") || SameWord(key, "api_key")
      || SameWord(key, "access_token") || SameWord(key, "authorization") || SameWord(key, "secret")
  {
    LowerSays(key, "password");
    LowerSays(key, "token");
    LowerSays(key, "api_key");
    LowerSays(key, "access_token");
    LowerSays(key, "authorization");
    LowerSays(key, "secret");
  }

  lemma OtherSecretWords(key: string)
    ensures Lower(key) in {"key_hash", "mfa_secret", "phone_enc", "pepper", "dek", "recording_url", "signed_url"} <==>
      || SameWord(key, "key_hash") || SameWord(key, "mfa_secret") || SameWord(key, "phone_enc")
      || SameWord(key, "pepper") || SameWord(key, "dek")
      || SameWord(key, "recording_url") || SameWord(key, "signed_url")
  {
    LowerSays(key, "key_hash");
    LowerSays(key, "mfa_secret");
    LowerSays(key, "phone_enc");
    LowerSays(key, "pepper");
    LowerSays(key, "dek");
    LowerSays(key, "recording_url");
    LowerSays(key, "signed_url");
  }

  lemma SecretWords(key: string)
    ensures Lower(key) in SECRET_KEYS <==> SecretWord(key)
  {
    SomeSecretWords(key);
    OtherSecretWords(key);
  }

  lemma SecretEndings(key: string)
    ensures SecretEnding(key) <==>
      || EndsWith(Lower(key), "_secret") || EndsWith(Lower(key), "_token")
      || EndsWith(Lower(key), "_password") || EndsWith(Lower(key), "_key")
  {
    LowerEnds(key, "_secret");
    LowerEnds(key, "_token");
    LowerEnds(key, "_password");
    LowerEnds(key, "_key");
  }

  lemma SecretIs(key: string)
    ensures IsSecretKey(Lower(key)) <==> NamesSecret(key)
  {
    SecretWords(key);
    SecretEndings(key);
  }

  lemma PhoneIs(key: string)
    ensures Lower(key) in PHONE_KEYS <==> NamesPhone(key)
  {
    LowerSays(key, "phone");
    LowerSays(key, "from_number");
    LowerSays(key, "to_number");
    LowerSays(key, "msisdn");
    LowerSays(key, "caller");
    LowerSays(key, "cli");
  }

  // ----- masked numbers

  /** Four digits or more show their last four and a star for each other; fewer show stars only. */
  predicate ShowsLastFour(digits: string, shown: string) {
    |shown| == |digits| && forall i :: 0 <= i < |shown| ==>
      shown[i] == if |digits| >= 4 && i >= |digits| - 4 then digits[i] else '*'
  }

  lemma MaskShowsLastFour(a: Alphabet, text: string)
    ensures ShowsLastFour(DigitsOf(a, text), MaskPhone(a, text))
  {
  }

  lemma {:induction false} DigitsOfBoth(a: Alphabet, s: string, t: string)
    ensures DigitsOf(a, s + t) == DigitsOf(a, s) + DigitsOf(a, t)
  {
    if t == "" {
      assert s + t == s;
    } else {
      assert (s + t)[..|s + t| - 1] == s + t[..|t| - 1];
      DigitsOfBoth(a, s, t[..|t| - 1]);
    }
  }

  lemma DigitsOfOne(a: Alphabet, c: char)
    ensures DigitsOf(a, [c]) == if a.digit(c) then [c] else ""
  {
    assert [c][..0] == "";
  }

  // ----- what becomes of a value

  /**
   `after` is what a value may show under a key: nothing of it under a key that names a secret; the last
   four digits of a text under a phone key; a text as it is if it holds neither number nor link; entries
   each under its own key, and items under the key of their list.
   */
  ghost predicate Shown(a: Alphabet, key: string, before: Value, after: Value)
    decreases before
  {
    if NamesSecret(key) then after == Str("[redacted]")
    else
      match before
      case Str(text) =>
        && after.Str?
        && (NamesPhone(key) ==> ShowsLastFour(DigitsOf(a, text), after.text))
        && (!NamesPhone(key) && LogPattern(a).Free(text) && !HoldsLink(a, text) ==> after.text == text)
      case Mapping(entries) => after.Mapping? && EntriesShown(a, entries, after.entries)
      case Listing(items) =>
        && after.Listing? && |after.items| == |items|
        && forall i :: 0 <= i < |items| ==> Shown(a, key, items[i], after.items[i])
      case Other(number) => after == Other(number)
  }

  ghost predicate EntriesShown(a: Alphabet, before: seq<Entry>, after: seq<Entry>)
    decreases before
  {
    |after| == |before| && forall i :: 0 <= i < |before| ==>
      after[i].key == before[i].key && Shown(a, before[i].key, before[i].value, after[i].value)
  }

  lemma PlainTextStays(a: Alphabet, text: string)
    requires a.Valid() && LogPattern(a).Free(text)
    ensures !HoldsNumber(a, text)
  {
    LogPatternIsSound(a);
    if HoldsNumber(a, text) {
      var i :| 0 <= i <= |text| && LogPattern(a).Match(text, i).Some?;
      MatcherIsExact(LogPattern(a), text, i);
    }
  }

  /** At any depth of any value, what redaction leaves is what may be shown. */
  lemma {:induction false} RedactedIsShown(a: Alphabet, key: string, v: Value)
    requires a.Valid()
    ensures Shown(a, key, v, RedactValue(a, key, v))
    decreases v
  {
    SecretIs(key);
    if !NamesSecret(key) {
      match v
      case Str(text) =>
        PhoneIs(key);
        MaskShowsLastFour(a, text);
        if LogPattern(a).Free(text) {
          PlainTextStays(a, text);
        }
      case Mapping(entries) => RedactedEntriesAreShown(a, entries);
      case Listing(items) => RedactedItemsAreShown(a, key, items);
      case Other(_) =>
    }
  }

  lemma {:induction false} RedactedEntriesAreShown(a: Alphabet, entries: seq<Entry>)
    requires a.Valid()
    ensures EntriesShown(a, entries, RedactEntries(a, entries))
    decreases entries
  {
    if entries != [] {
      RedactedIsShown(a, entries[0].key, entries[0].value);
      RedactedEntriesAreShown(a, entries[1..]);
      assert forall i :: 0 < i < |entries| ==> entries[i] == entries[1..][i - 1];
    }
  }

  lemma {:induction false} RedactedItemsAreShown(a: Alphabet, key: string, items: seq<Value>)
    requires a.Valid()
    ensures var after := RedactItems(a, key, items);
      |after| == |items| && forall i :: 0 <= i < |items| ==> Shown(a, key, items[i], after[i])
    decreases items
  {
    if items != [] {
      RedactedIsShown(a, key, items[0]);
      RedactedItemsAreShown(a, key, items[1..]);
      assert forall i :: 0 < i < |items| ==> items[i] == items[1..][i - 1];
    }
  }

  // ----- what is a number

  predicate AllDigits(digit: char -> bool, s: string) {
    forall i :: 0 <= i < |s| ==> digit(s[i])
  }

  lemma {:induction false} DigitsAreBody(p: Pattern, w: string, n: nat)
    requires |w| == n && AllDigits(p.digit, w)
    ensures p.IsBody(w, n)
    decreases n
  {
    if n > 0 {
      DigitsAreBody(p, w[1..], n - 1);
    } else {
      assert w == "";
    }
  }

  /** A run behind a prefix would be too short. */
  lemma TenIsARun(p: Pattern, s: string)
    requires p.Valid() && |s| <= 10 && p.IsNumber(s)
    ensures p.IsRun(s)
  {
    if !p.IsRun(s) {
      var k :| 0 <= k <= |s| && p.IsPrefix(s[..k]) && p.IsRun(s[k..]);
      RunShape(p, s[k..]);
    }
  }

  /** Of ten digits alone a number is made exactly by the first of them. */
  lemma TenDigitsAreANumber(p: Pattern, s: string)
    requires p.Valid() && p.more == 9 && |s| == 10 && AllDigits(p.digit, s)
    ensures p.Free(s) <==> !p.lead(s[0])
    ensures p.lead(s[0]) ==> p.Match(s, 0) == Some((0, 10))
  {
    assert s[0..10] == s;
    if p.lead(s[0]) {
      DigitsAreBody(p, s[1..], 9);
      assert p.Occurs(s, 0, 10);
      MatcherIsExact(p, s, 0);
      MatchIsOccurrence(p, s, 0);
    } else {
      forall i: nat, j: nat
        ensures !p.Occurs(s, i, j)
      {
        if p.Occurs(s, i, j) {
          assert i == 0 && j == 10;
          TenIsARun(p, s);
        }
      }
    }
  }

  lemma MatchReplaced(p: Pattern, with: string -> string, s: string, k: nat, e: nat)
    requires k <= e == |s| && 0 < e && p.Match(s, 0) == Some((k, e))
    ensures Replaced(p, with, s, 0) == with(s[k..e])
  {
    assert with(s[k..e]) + "" == with(s[k..e]);
  }

  lemma Lead(a: Alphabet, s: string)
    requires a.Valid() && |s| == 10 && AllDigits(a.digit, s)
    ensures LogPattern(a).Free(s) <==> !('6' <= s[0] <= '9')
    ensures SummaryPattern(a).Free(s) <==> !('6' <= s[0] <= '9') && !('६' <= s[0] <= '९')
    ensures '6' <= s[0] <= '9' ==> LogPattern(a).Match(s, 0) == Some((0, 10))
    ensures '6' <= s[0] <= '9' || '६' <= s[0] <= '९' ==> SummaryPattern(a).Match(s, 0) == Some((0, 10))
  {
    LogPatternIsSound(a);
    SummaryPatternIsSound(a);
    TenDigitsAreANumber(LogPattern(a), s);
    TenDigitsAreANumber(SummaryPattern(a), s);
  }

  lemma TenMasked(a: Alphabet, s: string)
    requires |s| == 10 && AllDigits(a.digit, s)
    ensures MaskPhone(a, s) == "******" + s[6..]
  {
    DigitsOfDigits(a, s);
  }

  /** Ten digits alone: a log text shows the last four of them exactly if the first is 6, 7, 8 or 9. */
  lemma TenDigitsInALog(a: Alphabet, s: string)
    requires a.Valid() && |s| == 10 && AllDigits(a.digit, s)
    ensures MaskNumbers(a, s) == if '6' <= s[0] <= '9' then "******" + s[6..] else s
  {
    Lead(a, s);
    LogPatternIsSound(a);
    if '6' <= s[0] <= '9' {
      assert s[0..10] == s;
      MatchReplaced(LogPattern(a), run => MaskPhone(a, run), s, 0, 10);
      TenMasked(a, s);
    } else {
      UnchangedIffFree(LogPattern(a), run => MaskPhone(a, run), s);
    }
  }

  /** And a summary holds the mark instead of them exactly if it is one of these, in Devanagari or not. */
  lemma TenDigitsInASummary(a: Alphabet, s: string)
    requires a.Valid() && |s| == 10 && AllDigits(a.digit, s)
    ensures ScrubNumbers(a, s) == if '6' <= s[0] <= '9' || '६' <= s[0] <= '९' then "[नंबर]" else s
  {
    Lead(a, s);
    SummaryPatternIsSound(a);
    if '6' <= s[0] <= '9' || '६' <= s[0] <= '९' {
      MatchReplaced(SummaryPattern(a), _ => NUMBER_MARK, s, 0, 10);
    } else {
      UnchangedIffFree(SummaryPattern(a), _ => NUMBER_MARK, s);
    }
  }

  /** The country code goes with the number, with or without its plus sign and a separator behind it. */
  lemma CodedNumber(p: Pattern, plus: bool, sep: string, s: string)
    requires p.Valid() && p.more == 9 && |s| == 10 && AllDigits(p.digit, s) && p.lead(s[0])
    requires sep == "" || (|sep| == 1 && p.prefixSep(sep[0]))
    ensures var code := (if plus then "+" else "") + "91" + sep;
      p.Match(code + s, 0) == Some((|code|, |code| + 10))
  {
    RunBehind(p, (if plus then "+" else "") + "91" + sep, s);
    CodeBefore(p, plus, sep, s);
  }

  lemma RunBehind(p: Pattern, code: string, s: string)
    requires p.Valid() && p.more == 9 && |s| == 10 && AllDigits(p.digit, s) && p.lead(s[0])
    ensures p.RunEnd(code + s, |code|) == Some(|code| + 10)
  {
    var w := code + s;
    DigitsAreBody(p, s[1..], 9);
    assert w[|code| + 1..|code| + 10] == s[1..];
    BodyEndIsBody(p, w, |code| + 1, |code| + 10, 9);
  }

  lemma CodeBefore(p: Pattern, plus: bool, sep: string, s: string)
    requires p.Valid() && |s| == 10 && AllDigits(p.digit, s)
    requires sep == "" || (|sep| == 1 && p.prefixSep(sep[0]))
    ensures var code := (if plus then "+" else "") + "91" + sep;
      p.PrefixEnd(code + s, 0) == Some(|code|)
  {
    var w := (if plus then "+" else "") + "91" + sep + s;
    var k := if plus then 1 else 0;
    assert w[k] == '9' && w[k + 1] == '1' && w[k + 2] == if sep == "" then s[0] else sep[0];
  }

  /** So a log text shows only the last four digits of a number that stands there with its country code. */
  lemma CodedNumberInALog(a: Alphabet, plus: bool, sep: string, s: string)
    requires a.Valid() && |s| == 10 && AllDigits(a.digit, s) && '6' <= s[0] <= '9'
    requires sep == "" || sep == "-" || (|sep| == 1 && a.space(sep[0]))
    ensures MaskNumbers(a, (if plus then "+" else "") + "91" + sep + s) == "******" + s[6..]
  {
    LogPatternIsSound(a);
    CodedNumber(LogPattern(a), plus, sep, s);
    NumberBehind(a, (if plus then "+" else "") + "91" + sep, s);
  }

  lemma NumberBehind(a: Alphabet, code: string, s: string)
    requires |s| == 10 && AllDigits(a.digit, s)
    requires LogPattern(a).Match(code + s, 0) == Some((|code|, |code| + 10))
    ensures MaskNumbers(a, code + s) == "******" + s[6..]
  {
    MatchReplaced(LogPattern(a), run => MaskPhone(a, run), code + s, |code|, |code| + 10);
    assert (code + s)[|code|..|code| + 10] == s;
    TenMasked(a, s);
  }

  lemma CodedNumberInASummary(a: Alphabet, plus: bool, sep: string, s: string)
    requires a.Valid() && |s| == 10 && AllDigits(a.digit, s) && ('6' <= s[0] <= '9' || '६' <= s[0] <= '९')
    requires sep == "" || sep == "-" || (|sep| == 1 && a.space(sep[0]))
    ensures ScrubNumbers(a, (if plus then "+" else "") + "91" + sep + s) == "[नंबर]"
  {
    SummaryPatternIsSound(a);
    CodedNumber(SummaryPattern(a), plus, sep, s);
    var code := (if plus then "+" else "") + "91" + sep;
    MatchReplaced(SummaryPattern(a), _ => NUMBER_MARK, code + s, |code|, |code| + 10);
  }

  /** A summary's digits may stand apart, each from the next by a space or a hyphen. */
  lemma SpacedNumber(a: Alphabet, front: string, sep: char, back: string)
    requires a.Valid() && |front| + |back| == 10 && front != "" && back != ""
    requires AllDigits(a.digit, front) && AllDigits(a.digit, back) && '6' <= front[0] <= '9'
    requires a.space(sep) || sep == '-'
    ensures ScrubNumbers(a, front + [sep] + back) == "[नंबर]"
  {
    var w := front + [sep] + back;
    SummaryPatternIsSound(a);
    SeparatedBody(SummaryPattern(a), front[1..], sep, back, 9);
    assert w[1..] == front[1..] + [sep] + back;
    ElevenIsMatched(SummaryPattern(a), w);
    MatchReplaced(SummaryPattern(a), _ => NUMBER_MARK, w, 0, 11);
  }

  lemma ElevenIsMatched(p: Pattern, w: string)
    requires p.Valid() && p.more == 9 && |w| == 11 && p.lead(w[0]) && p.IsBody(w[1..], 9)
    ensures p.Match(w, 0) == Some((0, 11))
  {
    assert w[1..11] == w[1..];
    BodyEndIsBody(p, w, 1, 11, 9);
    CodeIsTooLong(p, w);
  }

  lemma {:induction false} SeparatedBody(p: Pattern, front: string, sep: char, back: string, n: nat)
    requires p.Valid() && |front| + |back| == n && back != "" && p.bodySep(sep)
    requires AllDigits(p.digit, front) && AllDigits(p.digit, back)
    ensures p.IsBody(front + [sep] + back, n)
    decreases |front|
  {
    var w := front + [sep] + back;
    if front == "" {
      assert w[2..] == back[1..];
      DigitsAreBody(p, back[1..], n - 1);
    } else {
      assert w[1..] == front[1..] + [sep] + back;
      SeparatedBody(p, front[1..], sep, back, n - 1);
    }
  }

  /** Behind a country code too little is left for a run. */
  lemma CodeIsTooLong(p: Pattern, w: string)
    requires p.Valid() && p.more == 9 && |w| == 11
    ensures p.PrefixEnd(w, 0).Some? ==> p.RunEnd(w, p.PrefixEnd(w, 0).value) == None
  {
    if p.PrefixEnd(w, 0).Some? && p.PrefixEnd(w, 0).value < 11 {
      BodyEndAdvances(p, w, p.PrefixEnd(w, 0).value + 1, 9);
    }
  }

  // ----- what is a link

  predicate IsScheme(w: string) {
    SameWord(w, "http://") || SameWord(w, "https://")
  }

  predicate IsMarker(w: string) {
    SameWord(w, "/recording/") || SameWord(w, "/recordings/") || SameWord(w, "/call/") || SameWord(w, "/calls/")
  }

  predicate NoSpace(a: Alphabet, s: string, i: nat, j: nat) {
    i <= j <= |s| && forall x :: i <= x < j ==> !a.space(s[x])
  }

  lemma SaysSame(s: string, i: nat, word: string)
    requires Small(word)
    ensures SaysAt(s, i, word) <==> i + |word| <= |s| && SameWord(s[i..i + |word|], word)
  {
    if i + |word| <= |s| {
      LowerSays(s[i..i + |word|], word);
    }
  }

  lemma MarkerIs(s: string, q: nat, end: nat)
    requires end <= |s|
    ensures MarkerAt(s, q, end) <==> exists m :: q <= m < end && IsMarker(s[q..m])
  {
    SaysSame(s, q, "/recording/");
    SaysSame(s, q, "/recordings/");
    SaysSame(s, q, "/call/");
    SaysSame(s, q, "/calls/");
  }

  lemma SchemeIs(s: string, i: nat)
    requires i <= |s|
    ensures SchemeEnd(s, i).Some? ==> i <= SchemeEnd(s, i).value <= |s| && IsScheme(s[i..SchemeEnd(s, i).value])
    ensures forall k :: i <= k <= |s| && IsScheme(s[i..k]) ==> SchemeEnd(s, i) == Some(k)
  {
    SaysSame(s, i, "http://");
    SaysSame(s, i, "https://");
    forall k | i <= k <= |s| && IsScheme(s[i..k])
      ensures SchemeEnd(s, i) == Some(k)
    {
      if SameWord(s[i..k], "https://") && i + 7 <= |s| {
        assert s[i..k][4] == s[i + 4] && s[i..i + 7][4] == s[i + 4];
      }
    }
  }

  /**
   Where a link stands: a scheme, and behind it without white space a marker of recordings or calls and
   at least one character more, in capitals or not. It reaches to the next white space.
   */
  lemma LinkIs(a: Alphabet, s: string, i: nat)
    requires i <= |s|
    ensures LinkEnd(a, s, i).Some? <==>
      exists k, q, m :: i <= k <= q <= m < |s| && IsScheme(s[i..k]) && IsMarker(s[q..m]) && NoSpace(a, s, k, m + 1)
    ensures LinkEnd(a, s, i).Some? ==>
      var e := LinkEnd(a, s, i).value;
      e <= |s| && (e < |s| ==> a.space(s[e])) && exists k :: i <= k <= e && IsScheme(s[i..k]) && NoSpace(a, s, k, e)
  {
    SchemeIs(s, i);
    if LinkEnd(a, s, i).Some? {
      var k := SchemeEnd(s, i).value;
      TokenEnds(a, s, k);
      var q :| k <= q < TokenEnd(a, s, k) && MarkerAt(s, q, TokenEnd(a, s, k));
      MarkerIs(s, q, TokenEnd(a, s, k));
      var m :| q <= m < TokenEnd(a, s, k) && IsMarker(s[q..m]);
      assert NoSpace(a, s, k, m + 1) && NoSpace(a, s, k, TokenEnd(a, s, k));
    }
    if k, q, m :| i <= k <= q <= m < |s| && IsScheme(s[i..k]) && IsMarker(s[q..m]) && NoSpace(a, s, k, m + 1) {
      TokenEnds(a, s, k);
      MarkerIs(s, q, TokenEnd(a, s, k));
    }
  }

  /** A text that is a link and nothing else becomes the mark. */
  lemma LinkAlone(a: Alphabet, s: string)
    requires s != "" && LinkEnd(a, s, 0) == Some(|s|)
    ensures WithoutLinks(a, s, 0) == "[redacted]"
  {
    assert WithoutLinks(a, s, |s|) == "";
  }
}
