/**
 Redaction of log events: `_mask_phone`, `_redact_value` and `redact_processor` of
 packages/domain/src/uaagro_domain/logging.py, and the summary scrubber of
 apps/worker/src/worker/summary.py, as two uses of the number patterns.

 Which characters are decimal digits and which are white space is a parameter; what is asked of it
 holds in Unicode. Keys are lowered as ASCII.
 */
module LogRedaction {
  import opened Wrappers
  import opened NumberPattern
  import opened NumberScrub

  datatype Alphabet = Alphabet(digit: char -> bool, space: char -> bool) {
    ghost predicate Valid() {
      && (forall c :: '0' <= c <= '9' || '०' <= c <= '९' ==> digit(c))
      && (forall c :: digit(c) ==> !space(c))
      && (forall c :: Spelled(c) ==> !digit(c) && !space(c))
    }
  }

  /** The characters beside digits that patterns, labels and replacements spell out, Devanagari letters among them. */
  predicate Spelled(c: char) {
    || c == '+' || c == '-' || c == '*' || c == '[' || c == ']' || c == ':' || c == '/' || c == '.' || c == ')'
    || 'a' <= c <= 'z' || 'A' <= c <= 'Z' || 0x900 <= c as int <= 0x963 || c == '：'
  }

  // ----- the summary

  const NUMBER_MARK := "[नंबर]"

  function SummaryPattern(a: Alphabet): Pattern {
    Pattern(a.digit,
            c => '6' <= c <= '9' || '६' <= c <= '९',
            c => a.space(c) || c == '-',
            c => a.space(c) || c == '-',
            9)
  }

  function ScrubNumbers(a: Alphabet, text: string): string {
    Replaced(SummaryPattern(a), _ => NUMBER_MARK, text, 0)
  }

  lemma SummaryPatternIsSound(a: Alphabet)
    requires a.Valid()
    ensures SummaryPattern(a).Valid() && HarmlessRule(SummaryPattern(a), _ => NUMBER_MARK)
  {
    var p := SummaryPattern(a);
    assert a.digit('9') && a.digit('1') && Spelled('+') && Spelled('-');
    assert forall k :: 0 <= k < |NUMBER_MARK| ==>
      Spelled(NUMBER_MARK[k]) && NUMBER_MARK[k] != '+' && NUMBER_MARK[k] != '-';
    assert HarmlessFrom(p, NUMBER_MARK, 6);
  }

  /** A scrubbed text holds no number; scrubbing again changes nothing, and changes only texts with one. */
  lemma ScrubbedIsFree(a: Alphabet, text: string)
    requires a.Valid()
    ensures SummaryPattern(a).Free(ScrubNumbers(a, text))
    ensures ScrubNumbers(a, ScrubNumbers(a, text)) == ScrubNumbers(a, text)
    ensures ScrubNumbers(a, text) == text <==> SummaryPattern(a).Free(text)
  {
    SummaryPatternIsSound(a);
    var p := SummaryPattern(a);
    NothingSurvives(p, _ => NUMBER_MARK, text);
    ReplacingIsIdempotent(p, _ => NUMBER_MARK, text);
    UnchangedIffFree(p, _ => NUMBER_MARK, text);
  }

  // ----- log events

  const REDACTED := "[redacted]"

  const SECRET_KEYS: set<string> := {
    "password", "token", "api_key", "access_token", "authorization", "secret", "key_hash", "mfa_secret", "phone_enc",
    "pepper", "dek", "recording_url", "signed_url"}

  const PHONE_KEYS: set<string> := {"phone", "from_number", "to_number", "msisdn", "caller", "cli"}

  datatype Value =
    | Str(text: string)
    | Mapping(entries: seq<Entry>)
    | Listing(items: seq<Value>)
    | Other(number: int)

  datatype Entry = Entry(key: string, value: Value)

  function LogPattern(a: Alphabet): Pattern {
    Pattern(a.digit, c => '6' <= c <= '9', c => a.space(c) || c == '-', c => false, 9)
  }

  function LowerChar(c: char): char {
    if 'A' <= c <= 'Z' then c - 'A' + 'a' else c
  }

  function Lower(s: string): string {
    seq(|s|, i requires 0 <= i < |s| => LowerChar(s[i]))
  }

  predicate EndsWith(s: string, suffix: string) {
    |suffix| <= |s| && s[|s| - |suffix|..] == suffix
  }

  predicate IsSecretKey(lowered: string) {
    || lowered in SECRET_KEYS
    || EndsWith(lowered, "_secret") || EndsWith(lowered, "_token")
    || EndsWith(lowered, "_password") || EndsWith(lowered, "_key")
  }

  function DigitsOf(a: Alphabet, s: string): string {
    if s == "" then ""
    else DigitsOf(a, s[..|s| - 1]) + if a.digit(s[|s| - 1]) then [s[|s| - 1]] else ""
  }

  function Stars(n: nat): string {
    seq(n, _ => '*')
  }

  function MaskPhone(a: Alphabet, value: string): string {
    var digits := DigitsOf(a, value);
    if |digits| < 4 then Stars(|digits|) else Stars(|digits| - 4) + digits[|digits| - 4..]
  }

  // ----- recording links: https?://\S*/(?:recordings?|calls?)/\S+ whatever the case of its letters

  predicate SaysAt(s: string, i: nat, word: string) {
    i + |word| <= |s| && Lower(s[i..i + |word|]) == word
  }

  /** The position after the scheme, if one stands at `i`. */
  function SchemeEnd(s: string, i: nat): Option<nat> {
    if SaysAt(s, i, "http://") then Some(i + 7)
    else if SaysAt(s, i, "https://") then Some(i + 8)
    else None
  }

  function TokenEnd(a: Alphabet, s: string, i: nat): nat
    requires i <= |s|
    decreases |s| - i
  {
    if i == |s| || a.space(s[i]) then i else TokenEnd(a, s, i + 1)
  }

  predicate MarkerAt(s: string, q: nat, end: nat) {
    || (SaysAt(s, q, "/recording/") && q + 11 < end)
    || (SaysAt(s, q, "/recordings/") && q + 12 < end)
    || (SaysAt(s, q, "/call/") && q + 6 < end)
    || (SaysAt(s, q, "/calls/") && q + 7 < end)
  }

  /** A link at `i` takes in the whole token after its scheme. */
  function LinkEnd(a: Alphabet, s: string, i: nat): Option<nat>
    requires i <= |s|
  {
    var k := SchemeEnd(s, i);
    if k.Some? && k.value <= |s| then
      var end := TokenEnd(a, s, k.value);
      if exists q :: k.value <= q < end && MarkerAt(s, q, end) then Some(end) else None
    else None
  }

  function WithoutLinks(a: Alphabet, s: string, i: nat): string
    requires i <= |s|
    decreases |s| - i
  {
    if i == |s| then ""
    else
      var e := LinkEnd(a, s, i);
      if e.Some? && i < e.value <= |s| then REDACTED + WithoutLinks(a, s, e.value)
      else [s[i]] + WithoutLinks(a, s, i + 1)
  }

  predicate HoldsNumber(a: Alphabet, s: string) {
    exists i :: 0 <= i <= |s| && LogPattern(a).Match(s, i).Some?
  }

  predicate HoldsLink(a: Alphabet, s: string) {
    exists i :: 0 <= i <= |s| && LinkEnd(a, s, i).Some?
  }

  function MaskNumbers(a: Alphabet, s: string): string {
    Replaced(LogPattern(a), run => MaskPhone(a, run), s, 0)
  }

  function RedactText(a: Alphabet, lowered: string, s: string): string {
    if lowered in PHONE_KEYS then MaskPhone(a, s)
    else if HoldsNumber(a, s) then MaskNumbers(a, s)
    else if HoldsLink(a, s) then WithoutLinks(a, s, 0)
    else s
  }

  /** One value, masked by its key and its content; the key travels into lists, and mappings bring their own. */
  function RedactValue(a: Alphabet, key: string, v: Value): Value
    decreases v
  {
    if IsSecretKey(Lower(key)) then Str(REDACTED)
    else
      match v
      case Str(text) => Str(RedactText(a, Lower(key), text))
      case Mapping(entries) => Mapping(RedactEntries(a, entries))
      case Listing(items) => Listing(RedactItems(a, key, items))
      case Other(_) => v
  }

  function RedactEntries(a: Alphabet, entries: seq<Entry>): seq<Entry>
    decreases entries
  {
    if entries == [] then []
    else [RedactEntry(a, entries[0])] + RedactEntries(a, entries[1..])
  }

  function RedactEntry(a: Alphabet, entry: Entry): Entry
    decreases entry
  {
    Entry(entry.key, RedactValue(a, entry.key, entry.value))
  }

  function RedactItems(a: Alphabet, key: string, items: seq<Value>): seq<Value>
    decreases items
  {
    if items == [] then [] else [RedactValue(a, key, items[0])] + RedactItems(a, key, items[1..])
  }

  /** The processor overwrites each entry of the event in turn. */
  method RedactProcessor(a: Alphabet, event: seq<Entry>) returns (r: seq<Entry>)
    ensures r == RedactEntries(a, event)
  {
    r := event;
    for i := 0 to |event|
      invariant |r| == |event|
      invariant r[..i] == RedactEntries(a, event[..i])
      invariant r[i..] == event[i..]
    {
      var redacted := Entry(r[i].key, RedactValue(a, r[i].key, r[i].value));
      assert r[i..][0] == event[i];
      EntriesGrow(a, event[..i], event[i]);
      assert event[..i] + [event[i]] == event[..i + 1];
      assert r[i := redacted][..i + 1] == r[..i] + [redacted];
      assert r[i := redacted][i + 1..] == r[i..][1..] == event[i..][1..] == event[i + 1..];
      r := r[i := redacted];
    }
    assert r[..|event|] == r && event[..|event|] == event;
  }

  lemma {:induction false} EntriesGrow(a: Alphabet, entries: seq<Entry>, last: Entry)
    ensures RedactEntries(a, entries + [last]) == RedactEntries(a, entries) + [RedactEntry(a, last)]
  {
    if entries == [] {
      assert entries + [last] == [last];
      assert [last][1..] == [];
    } else {
      assert (entries + [last])[1..] == entries[1..] + [last];
      EntriesGrow(a, entries[1..], last);
    }
  }

  // ----- no string leaf holds a number

  ghost predicate LeavesFree(a: Alphabet, v: Value)
    decreases v
  {
    match v
    case Str(text) => LogPattern(a).Free(text)
    case Mapping(entries) => EntriesFree(a, entries)
    case Listing(items) => ItemsFree(a, items)
    case Other(_) => true
  }

  ghost predicate EntriesFree(a: Alphabet, entries: seq<Entry>)
    decreases entries
  {
    entries == [] || (EntryFree(a, entries[0]) && EntriesFree(a, entries[1..]))
  }

  ghost predicate EntryFree(a: Alphabet, entry: Entry)
    decreases entry
  {
    LeavesFree(a, entry.value)
  }

  ghost predicate ItemsFree(a: Alphabet, items: seq<Value>)
    decreases items
  {
    items == [] || (LeavesFree(a, items[0]) && ItemsFree(a, items[1..]))
  }

  lemma {:induction false} DigitsAreDigits(a: Alphabet, s: string)
    ensures forall k :: 0 <= k < |DigitsOf(a, s)| ==> a.digit(DigitsOf(a, s)[k])
  {
    if s != "" {
      DigitsAreDigits(a, s[..|s| - 1]);
    }
  }

  lemma {:induction false} DigitsOfDigits(a: Alphabet, s: string)
    requires forall k :: 0 <= k < |s| ==> a.digit(s[k])
    ensures DigitsOf(a, s) == s
  {
    if s != "" {
      DigitsOfDigits(a, s[..|s| - 1]);
      assert s == s[..|s| - 1] + [s[|s| - 1]];
    }
  }

  lemma LogPatternIsSound(a: Alphabet)
    requires a.Valid()
    ensures LogPattern(a).Valid() && HarmlessRule(LogPattern(a), run => MaskPhone(a, run))
  {
    var p := LogPattern(a);
    assert a.digit('9') && a.digit('1') && Spelled('+') && Spelled('*') && Spelled('-');
    forall run | p.IsRun(run)
      ensures Harmless(p, MaskPhone(a, run))
    {
      RunIsTenDigits(a, run);
      DigitsOfDigits(a, run);
      assert HarmlessFrom(p, MaskPhone(a, run), 6);
    }
  }

  lemma RunIsTenDigits(a: Alphabet, run: string)
    requires a.Valid() && LogPattern(a).IsRun(run)
    ensures |run| == 10 && forall k :: 0 <= k < 10 ==> a.digit(run[k])
  {
    var p := LogPattern(a);
    DigitsOnly(p, run[1..], p.more);
    assert forall k :: 1 <= k < |run| ==> run[k] == run[1..][k - 1];
  }

  /** A text whose possible number characters are few, or none, holds no number. */
  lemma FewDigitsAreFree(p: Pattern, s: string, cut: nat)
    requires p.Valid() && cut <= |s| < cut + 10 && forall k :: 0 <= k < cut ==> p.Inert(s[k])
    ensures p.Free(s)
  {
    forall i: nat, j: nat | p.Occurs(s, i, j)
      ensures false
    {
      NumberShape(p, s[i..j]);
    }
  }

  lemma MaskIsFree(a: Alphabet, s: string)
    requires a.Valid()
    ensures LogPattern(a).Free(MaskPhone(a, s))
  {
    LogPatternIsSound(a);
    assert Spelled('*') && LogPattern(a).Inert('*');
    var digits := DigitsOf(a, s);
    FewDigitsAreFree(LogPattern(a), MaskPhone(a, s), if |digits| < 4 then |digits| else |digits| - 4);
  }

  // ----- taking out a link puts no number together

  lemma {:induction false} TokenEnds(a: Alphabet, s: string, i: nat)
    requires i <= |s|
    ensures i <= TokenEnd(a, s, i) <= |s|
    ensures TokenEnd(a, s, i) < |s| ==> a.space(s[TokenEnd(a, s, i)])
    ensures forall x :: i <= x < TokenEnd(a, s, i) ==> !a.space(s[x])
    decreases |s| - i
  {
    if i < |s| && !a.space(s[i]) {
      TokenEnds(a, s, i + 1);
    }
  }

  lemma LinkShape(a: Alphabet, s: string, i: nat)
    requires a.Valid() && i <= |s| && LinkEnd(a, s, i).Some?
    ensures var e := LinkEnd(a, s, i).value;
      && i < e <= |s| && !a.digit(s[i]) && (e < |s| ==> a.space(s[e]))
  {
    var k := SchemeEnd(s, i).value;
    TokenEnds(a, s, k);
    var head := if SaysAt(s, i, "http://") then "http://" else "https://";
    assert Lower(s[i..i + |head|])[0] == head[0] == 'h';
    assert s[i..i + |head|][0] == s[i];
    assert s[i] == 'h' || s[i] == 'H';
    assert Spelled(s[i]);
  }

  /** What may stand before position `i`: a digit only if one stood there, or else white space follows. */
  ghost predicate LinkContext(a: Alphabet, s: string, i: nat, prev: Option<char>)
    requires i <= |s|
  {
    var was := i > 0 && a.digit(s[i - 1]);
    var is_ := prev.Some? && a.digit(prev.value);
    (is_ ==> was) && (was && !is_ ==> i == |s| || a.space(s[i]))
  }

  /** The text up to the next link, which is copied, and the rest. */
  function NextLink(a: Alphabet, s: string, i: nat): nat
    requires i <= |s|
    decreases |s| - i
  {
    if i == |s| || LinkEnd(a, s, i).Some? then i else NextLink(a, s, i + 1)
  }

  lemma CopiedOneMore(a: Alphabet, s: string, i: nat)
    requires i < |s| && LinkEnd(a, s, i) == None
    ensures WithoutLinks(a, s, i) == [s[i]] + WithoutLinks(a, s, i + 1)
    ensures NextLink(a, s, i) == NextLink(a, s, i + 1)
  {
  }

  lemma CopyJoins(s: string, i: nat, m: nat, copied: string, later: string, rest: string)
    requires i < m <= |s| && copied == [s[i]] + later && later == s[i + 1..m] + rest
    ensures copied == s[i..m] + rest
  {
    Prepend(s[i], s[i + 1..m], rest, later);
    SliceHead(s, i, m);
  }

  lemma {:induction false} CopiedUpToLink(a: Alphabet, s: string, i: nat)
    requires i <= |s|
    ensures var m := NextLink(a, s, i);
      && i <= m <= |s| && (m < |s| ==> LinkEnd(a, s, m).Some?)
      && WithoutLinks(a, s, i) == s[i..m] + WithoutLinks(a, s, m)
    decreases |s| - i
  {
    if i < |s| && LinkEnd(a, s, i) == None {
      CopiedUpToLink(a, s, i + 1);
      CopiedOneMore(a, s, i);
      var m := NextLink(a, s, i + 1);
      CopyJoins(s, i, m, WithoutLinks(a, s, i), WithoutLinks(a, s, i + 1), WithoutLinks(a, s, m));
    } else {
      assert s[i..i] == "";
    }
  }

  lemma RedactedIsInert(a: Alphabet)
    requires a.Valid()
    ensures forall k :: 0 <= k < |REDACTED| ==> LogPattern(a).Inert(REDACTED[k])
  {
  }

  /** The copied text before the next link, and what the rest starts with. */
  lemma SplitAtLink(a: Alphabet, s: string, i: nat) returns (m: nat, rest: string)
    requires a.Valid() && i <= |s|
    ensures i <= m <= |s| && WithoutLinks(a, s, i) == s[i..m] + rest
    ensures rest != "" ==> LogPattern(a).Inert(rest[0])
    ensures m < |s| ==> !a.digit(s[m])
  {
    CopiedUpToLink(a, s, i);
    m := NextLink(a, s, i);
    rest := WithoutLinks(a, s, m);
    if m < |s| {
      LinkShape(a, s, m);
      RedactedIsInert(a);
      assert rest[0] == REDACTED[0];
    }
  }

  lemma NoneAtCopiedText(a: Alphabet, prev: Option<char>, s: string, i: nat, j: nat)
    requires a.Valid() && LogPattern(a).Valid() && LogPattern(a).Free(s) && i < |s| && LinkContext(a, s, i, prev)
    ensures !LogPattern(a).OccursAfter(prev, WithoutLinks(a, s, i), 0, j)
  {
    var m, rest := SplitAtLink(a, s, i);
    assert Spelled('+');
    if LogPattern(a).OccursAfter(prev, s[i..m] + rest, 0, j) {
      CopyOccurs(LogPattern(a), prev, s, i, m, rest, j);
    }
  }

  lemma NoneAcrossLink(a: Alphabet, prev: Option<char>, rest: string, x: nat, y: nat)
    requires a.Valid() && LogPattern(a).Valid()
    requires x >= |REDACTED| && y >= |REDACTED| ==>
      !LogPattern(a).OccursAfter(Some(REDACTED[|REDACTED| - 1]), rest, x - |REDACTED|, y - |REDACTED|)
    ensures !LogPattern(a).OccursAfter(prev, REDACTED + rest, x, y)
  {
    RedactedIsInert(a);
    if x < |REDACTED| {
      NoneFromInert(LogPattern(a), prev, REDACTED + rest, x, y);
    } else if y >= |REDACTED| {
      NoneInRest(LogPattern(a), prev, REDACTED, rest, x, y);
    }
  }

  lemma AfterLink(a: Alphabet, s: string, i: nat)
    requires a.Valid() && i < |s| && LinkEnd(a, s, i).Some?
    ensures var e := LinkEnd(a, s, i).value;
      && i < e <= |s| && WithoutLinks(a, s, i) == REDACTED + WithoutLinks(a, s, e)
      && LinkContext(a, s, e, Some(REDACTED[|REDACTED| - 1]))
  {
    LinkShape(a, s, i);
    RedactedIsInert(a);
  }

  lemma {:induction false} NoneBesideLinks(a: Alphabet, s: string, i: nat, prev: Option<char>, x: nat, y: nat)
    requires a.Valid() && LogPattern(a).Valid() && LogPattern(a).Free(s) && i <= |s| && LinkContext(a, s, i, prev)
    ensures !LogPattern(a).OccursAfter(prev, WithoutLinks(a, s, i), x, y)
    decreases |s| - i
  {
    if i == |s| {
    } else if LinkEnd(a, s, i).Some? {
      AfterLink(a, s, i);
      var e := LinkEnd(a, s, i).value;
      if x >= |REDACTED| && y >= |REDACTED| {
        NoneBesideLinks(a, s, e, Some(REDACTED[|REDACTED| - 1]), x - |REDACTED|, y - |REDACTED|);
      }
      NoneAcrossLink(a, prev, WithoutLinks(a, s, e), x, y);
    } else if x == 0 {
      NoneAtCopiedText(a, prev, s, i, y);
    } else if y >= 1 {
      NoneBesideLinks(a, s, i + 1, Some(s[i]), x - 1, y - 1);
      NoneInRest(LogPattern(a), prev, [s[i]], WithoutLinks(a, s, i + 1), x, y);
    }
  }

  lemma NoneFromInert(p: Pattern, prev: Option<char>, w: string, i: nat, j: nat)
    requires p.Valid() && i < |w| && p.Inert(w[i])
    ensures !p.OccursAfter(prev, w, i, j)
  {
  }

  lemma LinksLeaveFree(a: Alphabet, s: string)
    requires a.Valid() && LogPattern(a).Free(s)
    ensures LogPattern(a).Free(WithoutLinks(a, s, 0))
  {
    LogPatternIsSound(a);
    forall i: nat, j: nat
      ensures !LogPattern(a).Occurs(WithoutLinks(a, s, 0), i, j)
    {
      NoneBesideLinks(a, s, 0, None, i, j);
    }
  }

  lemma TextIsFree(a: Alphabet, lowered: string, s: string)
    requires a.Valid()
    ensures LogPattern(a).Free(RedactText(a, lowered, s))
  {
    var p := LogPattern(a);
    LogPatternIsSound(a);
    MaskIsFree(a, s);
    NothingSurvives(p, run => MaskPhone(a, run), s);
    if !HoldsNumber(a, s) {
      forall i: nat, j: nat
        ensures !p.Occurs(s, i, j)
      {
        if p.Occurs(s, i, j) {
          OccurrenceIsMatched(p, s, i, j);
        }
      }
      LinksLeaveFree(a, s);
    }
  }

  lemma RedactedIsFree(a: Alphabet)
    requires a.Valid()
    ensures LogPattern(a).Free(REDACTED)
  {
    LogPatternIsSound(a);
    RedactedIsInert(a);
    FewDigitsAreFree(LogPattern(a), REDACTED, |REDACTED|);
  }

  /** Whatever the event holds and however deep, after redaction no string leaf holds a phone number. */
  lemma {:induction false} RedactionLeavesNoNumber(a: Alphabet, key: string, v: Value)
    requires a.Valid()
    ensures LeavesFree(a, RedactValue(a, key, v))
    decreases v
  {
    RedactedIsFree(a);
    if !IsSecretKey(Lower(key)) {
      match v
      case Str(text) => TextIsFree(a, Lower(key), text);
      case Mapping(entries) => EntriesLeaveNoNumber(a, entries);
      case Listing(items) => ItemsLeaveNoNumber(a, key, items);
      case Other(_) =>
    }
  }

  lemma {:induction false} EntriesLeaveNoNumber(a: Alphabet, entries: seq<Entry>)
    requires a.Valid()
    ensures EntriesFree(a, RedactEntries(a, entries))
    decreases entries
  {
    if entries != [] {
      EntryLeavesNoNumber(a, entries[0]);
      EntriesLeaveNoNumber(a, entries[1..]);
    }
  }

  lemma EntryLeavesNoNumber(a: Alphabet, entry: Entry)
    requires a.Valid()
    ensures EntryFree(a, RedactEntry(a, entry))
    decreases entry
  {
    RedactionLeavesNoNumber(a, entry.key, entry.value);
  }

  lemma {:induction false} ItemsLeaveNoNumber(a: Alphabet, key: string, items: seq<Value>)
    requires a.Valid()
    ensures ItemsFree(a, RedactItems(a, key, items))
    decreases items
  {
    if items != [] {
      RedactionLeavesNoNumber(a, key, items[0]);
      ItemsLeaveNoNumber(a, key, items[1..]);
    }
  }
}
