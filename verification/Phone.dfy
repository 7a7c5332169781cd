/**
 Indian mobile numbers, packages/domain/src/uaagro_domain/phone.py: the one canonical form of every
 spelling, over ASCII digits.
 */
module PhoneNumbers {
  import opened Wrappers

  const COUNTRY_CODE := "91"

  /** Why a spelling is refused; no reason repeats the number. */
  datatype Refusal = Empty | NoDigits | WrongLength(got: nat) | NotMobile

  predicate IsDigit(c: char) {
    '0' <= c <= '9'
  }

  predicate IsSpace(c: char) {
    var n := c as int;
    || 9 <= n <= 13 || 28 <= n <= 32 || n == 0x85 || n == 0xA0 || n == 0x1680 || 0x2000 <= n <= 0x200A
    || n == 0x2028 || n == 0x2029 || n == 0x202F || n == 0x205F || n == 0x3000
  }

  predicate IsBlank(raw: string) {
    forall c | c in raw :: IsSpace(c)
  }

  /** What is left when everything but digits is removed. */
  function Digits(raw: string): (digits: string)
    ensures AllDigits(digits)
  {
    if raw == "" then "" else (if IsDigit(raw[0]) then [raw[0]] else "") + Digits(raw[1..])
  }

  predicate AllDigits(s: string) {
    forall k | 0 <= k < |s| :: IsDigit(s[k])
  }

  predicate IsNational(n: string) {
    |n| == 10 && AllDigits(n) && '6' <= n[0] <= '9'
  }

  function WithoutAccess(digits: string): string {
    if "00" <= digits then digits[2..] else digits
  }

  function WithoutCountry(digits: string): string {
    if |digits| > 10 && COUNTRY_CODE <= digits then digits[|COUNTRY_CODE|..] else digits
  }

  function WithoutTrunk(digits: string): string {
    if |digits| == 11 && "0" <= digits then digits[1..] else digits
  }

  function Significant(digits: string): string {
    WithoutTrunk(WithoutCountry(WithoutAccess(digits)))
  }

  function Normalise(raw: string): Result<string, Refusal> {
    if IsBlank(raw) then Err(Empty)
    else if Digits(raw) == "" then Err(NoDigits)
    else
      var national := Significant(Digits(raw));
      if |national| != 10 then Err(WrongLength(|national|))
      else if !('6' <= national[0] <= '9') then Err(NotMobile)
      else Ok(national)
  }

  function E164(national: string): string {
    "+" + COUNTRY_CODE + national
  }

  // ----- spellings

  /** The prefixes a spelling may carry: access code, country code and trunk zero, in this order. */
  datatype Prefixes = Prefixes(access: bool, country: bool, trunk: bool) {
    function Spelling(national: string): string {
      (if access then "00" else "")
      + ((if country then COUNTRY_CODE else "") + ((if trunk then "0" else "") + national))
    }
  }

  ghost predicate Spells(digits: string, national: string) {
    exists p: Prefixes :: digits == p.Spelling(national)
  }

  /** Ten digits stand behind some of the prefixes, and no access code is made of what follows them. */
  ghost predicate SpellsTen(digits: string, ten: string) {
    |ten| == 10 && exists p: Prefixes :: digits == p.Spelling(ten) && (p.access || p.country || !("00" <= digits))
  }

  lemma TrunkGoes(ten: string, trunk: bool)
    requires |ten| == 10
    ensures WithoutTrunk((if trunk then "0" else "") + ten) == ten
  {
    assert ("0" + ten)[1..] == ten;
    assert "" + ten == ten;
  }

  /** Ten digits that themselves begin with 91 keep those. */
  lemma CountryGoes(ten: string, country: bool, trunk: bool)
    requires |ten| == 10
    ensures var rest := (if trunk then "0" else "") + ten;
      WithoutCountry((if country then COUNTRY_CODE else "") + rest) == rest
  {
    var rest := (if trunk then "0" else "") + ten;
    if country {
      assert (COUNTRY_CODE + rest)[..2] == COUNTRY_CODE;
      assert (COUNTRY_CODE + rest)[2..] == rest;
    } else {
      assert "" + rest == rest;
      assert trunk ==> rest[0] == '0';
    }
  }

  lemma AccessGoes(ten: string, p: Prefixes)
    requires |ten| == 10 && (p.access || p.country || !("00" <= p.Spelling(ten)))
    ensures WithoutAccess(p.Spelling(ten)) == p.(access := false).Spelling(ten)
  {
    var rest := (if p.country then COUNTRY_CODE else "") + ((if p.trunk then "0" else "") + ten);
    assert "" + rest == rest;
    if p.access {
      assert ("00" + rest)[..2] == "00";
      assert ("00" + rest)[2..] == rest;
    } else if p.country {
      assert rest[0] == '9';
    }
  }

  lemma SpellingIsUndone(ten: string, p: Prefixes)
    requires |ten| == 10 && (p.access || p.country || !("00" <= p.Spelling(ten)))
    ensures Significant(p.Spelling(ten)) == ten
  {
    AccessGoes(ten, p);
    var rest := (if p.country then COUNTRY_CODE else "") + ((if p.trunk then "0" else "") + ten);
    assert "" + rest == rest;
    CountryGoes(ten, p.country, p.trunk);
    TrunkGoes(ten, p.trunk);
  }

  /** Whatever was stripped was one of the prefixes, in their order. */
  lemma SignificantIsSpelled(digits: string) returns (p: Prefixes)
    ensures digits == p.Spelling(Significant(digits)) && (p.access <==> "00" <= digits)
  {
    var local := WithoutAccess(digits);
    var rest := WithoutCountry(local);
    var left := WithoutTrunk(rest);
    p := Prefixes("00" <= digits, |local| > 10 && COUNTRY_CODE <= local, |rest| == 11 && "0" <= rest);
    assert rest == (if p.trunk then "0" else "") + left;
    assert local == (if p.country then COUNTRY_CODE else "") + rest;
    assert digits == (if p.access then "00" else "") + local;
  }

  /** The ten digits left over are the ten that are spelled. */
  lemma LeftOverIsSpelled(digits: string, ten: string)
    ensures SpellsTen(digits, ten) <==> |ten| == 10 && Significant(digits) == ten
  {
    if SpellsTen(digits, ten) {
      var p: Prefixes :| digits == p.Spelling(ten) && (p.access || p.country || !("00" <= digits));
      SpellingIsUndone(ten, p);
    }
    var p := SignificantIsSpelled(digits);
  }

  /** No national number lends a digit to an access code. */
  lemma NationalIsSpelledPlainly(digits: string, national: string)
    requires IsNational(national)
    ensures Spells(digits, national) <==> SpellsTen(digits, national)
  {
    if Spells(digits, national) {
      var p: Prefixes :| digits == p.Spelling(national);
      if !p.access && !p.country {
        assert "" + ("" + ((if p.trunk then "0" else "") + national)) == (if p.trunk then "0" else "") + national;
        assert if p.trunk then digits[1] == national[0] else digits[0] == national[0];
      }
      assert p.access || p.country || !("00" <= digits);
    }
    if SpellsTen(digits, national) {
      var p: Prefixes :| digits == p.Spelling(national) && (p.access || p.country || !("00" <= digits));
    }
  }

  lemma {:induction false} DigitsFound(raw: string)
    ensures |Digits(raw)| <= |raw| && (Digits(raw) == "" <==> forall c | c in raw :: !IsDigit(c))
  {
    if raw != "" {
      DigitsFound(raw[1..]);
      assert raw == [raw[0]] + raw[1..];
    }
  }

  lemma {:induction false} DigitsOfDigits(s: string)
    requires AllDigits(s)
    ensures Digits(s) == s
  {
    if s != "" {
      DigitsOfDigits(s[1..]);
      assert s == [s[0]] + s[1..];
    }
  }

  lemma DigitsAreNotBlank(raw: string)
    requires Digits(raw) != ""
    ensures !IsBlank(raw)
  {
    DigitsFound(raw);
    var c :| c in raw && IsDigit(c);
    assert !IsSpace(c);
  }

  lemma SignificantDigits(digits: string)
    requires AllDigits(digits)
    ensures AllDigits(Significant(digits))
  {
  }

  /**
   A spelling is read as this number exactly when its digits are the number behind some of the
   prefixes, whatever stands between the digits.
   */
  lemma ReadExactlyWhenSpelled(raw: string, national: string)
    ensures Normalise(raw) == Ok(national) <==> IsNational(national) && Spells(Digits(raw), national)
  {
    LeftOverIsSpelled(Digits(raw), national);
    if Normalise(raw) == Ok(national) {
      SignificantDigits(Digits(raw));
      NationalIsSpelledPlainly(Digits(raw), national);
    }
    if IsNational(national) && Spells(Digits(raw), national) {
      NationalIsSpelledPlainly(Digits(raw), national);
      DigitsAreNotBlank(raw);
    }
  }

  /** No digit string spells two numbers. */
  lemma SpelledNumberIsUnique(digits: string, m: string, n: string)
    requires IsNational(m) && IsNational(n) && Spells(digits, m) && Spells(digits, n)
    ensures m == n
  {
    NationalIsSpelledPlainly(digits, m);
    NationalIsSpelledPlainly(digits, n);
    LeftOverIsSpelled(digits, m);
    LeftOverIsSpelled(digits, n);
  }

  /** A refused spelling spells no number at all; blank texts and texts without digits are told apart. */
  lemma RefusedExactlyWhen(raw: string)
    ensures Normalise(raw).Err? <==> forall n | IsNational(n) :: !Spells(Digits(raw), n)
    ensures Normalise(raw) == Err(Empty) <==> IsBlank(raw)
    ensures Normalise(raw) == Err(NoDigits) <==> !IsBlank(raw) && forall c | c in raw :: !IsDigit(c)
  {
    DigitsFound(raw);
    if Normalise(raw).Err? {
      forall n | IsNational(n)
        ensures !Spells(Digits(raw), n)
      {
        ReadExactlyWhenSpelled(raw, n);
      }
    } else {
      ReadExactlyWhenSpelled(raw, Normalise(raw).value);
    }
  }

  /** Ten digits that are no mobile number are told from a count other than ten. */
  lemma RefusedForItsDigits(raw: string)
    ensures Normalise(raw) == Err(NotMobile) <==> exists ten :: SpellsTen(Digits(raw), ten) && !IsNational(ten)
    ensures Normalise(raw).Err? && Normalise(raw).error.WrongLength?
       <==> Digits(raw) != "" && forall ten :: !SpellsTen(Digits(raw), ten)
  {
    var left := Significant(Digits(raw));
    SignificantDigits(Digits(raw));
    forall ten
      ensures SpellsTen(Digits(raw), ten) <==> |ten| == 10 && left == ten
    {
      LeftOverIsSpelled(Digits(raw), ten);
    }
    if Digits(raw) != "" {
      DigitsAreNotBlank(raw);
    }
    assert |left| == 10 ==> SpellsTen(Digits(raw), left);
  }

  lemma DigitsAfterPlus(s: string)
    requires AllDigits(s)
    ensures Digits("+" + s) == s
  {
    DigitsOfDigits(s);
    assert ("+" + s)[1..] == s;
    assert "" + s == s;
  }

  lemma SpelledBare(n: string)
    ensures Spells(n, n) && Spells(COUNTRY_CODE + n, n)
  {
    assert n == Prefixes(false, false, false).Spelling(n);
    assert COUNTRY_CODE + n == Prefixes(false, true, false).Spelling(n);
  }

  lemma NationalReadsAsItself(n: string)
    requires IsNational(n)
    ensures Normalise(n) == Ok(n)
  {
    DigitsOfDigits(n);
    SpelledBare(n);
    ReadExactlyWhenSpelled(n, n);
  }

  lemma DialledReadsBack(n: string)
    requires IsNational(n)
    ensures Normalise(E164(n)) == Ok(n)
  {
    assert E164(n) == "+" + (COUNTRY_CODE + n);
    DigitsAfterPlus(COUNTRY_CODE + n);
    SpelledBare(n);
    ReadExactlyWhenSpelled(E164(n), n);
  }

  /** Ten digits alone are read as they stand from 6 on, and refused below as no mobile number. */
  lemma TenDigitsRead(n: string)
    requires |n| == 10 && AllDigits(n)
    ensures '6' <= n[0] <= '9' ==> Normalise(n) == Ok(n)
    ensures '1' <= n[0] <= '5' ==> Normalise(n) == Err(NotMobile)
  {
    if '6' <= n[0] <= '9' {
      NationalReadsAsItself(n);
    } else if '1' <= n[0] <= '5' {
      DigitsOfDigits(n);
      DigitsAreNotBlank(n);
    }
  }

  /** And behind a trunk zero, the country code, or the access code with it. */
  lemma PrefixedTenDigitsRead(n: string, prefix: string)
    requires |n| == 10 && AllDigits(n) && '6' <= n[0] <= '9'
    requires prefix == "0" || prefix == "91" || prefix == "910" || prefix == "0091" || prefix == "00910"
    ensures Normalise(prefix + n) == Ok(n)
  {
    if prefix == "0" {
      SpelledRead(prefix + n, n, Prefixes(false, false, true));
    } else if prefix == "91" {
      SpelledRead(prefix + n, n, Prefixes(false, true, false));
    } else if prefix == "910" {
      SpelledRead(prefix + n, n, Prefixes(false, true, true));
    } else if prefix == "0091" {
      SpelledRead(prefix + n, n, Prefixes(true, true, false));
    } else {
      SpelledRead(prefix + n, n, Prefixes(true, true, true));
    }
  }

  lemma SpelledRead(raw: string, n: string, p: Prefixes)
    requires IsNational(n) && raw == p.Spelling(n)
    ensures Normalise(raw) == Ok(n)
  {
    assert AllDigits(raw);
    DigitsOfDigits(raw);
    assert Spells(raw, n);
    ReadExactlyWhenSpelled(raw, n);
  }

  /** The canonical form and the dialled form are themselves read as the same number. */
  lemma CanonicalFormsReadBack(raw: string)
    requires Normalise(raw).Ok?
    ensures Normalise(Normalise(raw).value) == Normalise(raw)
    ensures Normalise(E164(Normalise(raw).value)) == Normalise(raw)
  {
    var n := Normalise(raw).value;
    ReadExactlyWhenSpelled(raw, n);
    NationalReadsAsItself(n);
    DialledReadsBack(n);
  }
}
