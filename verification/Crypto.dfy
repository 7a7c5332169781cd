/**
 The envelope around encrypted fields and the phone cipher, packages/db/src/uaagro_db/crypto.py.
 Authenticated encryption, the keyed hash and the key service are parameters; what is promised of the
 first is sections 7.1 and 7.2 of NIST SP 800-38D.
 */
module FieldEncryption {
  import opened Wrappers
  import Phone = PhoneNumbers

  type Byte = x: int | 0 <= x < 256
  type Bytes = seq<Byte>

  const ENVELOPE_LOCAL: Byte := 1
  const ENVELOPE_KMS: Byte := 2
  const NONCE_BYTES := 12
  const WRAPPED_LIMIT := 65536

  datatype Fault =
    | TooShort
    | UnknownVersion(version: Byte)
    | WrappedTooLong
    | KeyUnavailable
    | NotAuthentic
    | NotAscii
    | Refused(why: Phone.Refusal)

  datatype DataKey = DataKey(plaintext: Bytes, wrapped: Bytes)

  /** `seal` and `unseal` take the key, the nonce, the text and the additional authenticated data. */
  datatype Aead = Aead(
    seal: (Bytes, Bytes, Bytes, Bytes) -> Bytes,
    unseal: (Bytes, Bytes, Bytes, Bytes) -> Option<Bytes>)
  {
    /** A text opens to what was sealed, nothing else opens, and a sealed text carries its tag. */
    ghost predicate Promised() {
      && (forall k, n, p, a :: |seal(k, n, p, a)| == |p| + 16)
      && (forall k, n, c, a, p :: unseal(k, n, c, a) == Some(p) <==> c == seal(k, n, p, a))
    }
  }

  // ----- the layout

  function Header(version: Byte, wrapped: Bytes): Bytes
    requires |wrapped| < WRAPPED_LIMIT
  {
    [version, |wrapped| / 256, |wrapped| % 256] + wrapped
  }

  function Envelope(version: Byte, wrapped: Bytes, nonce: Bytes, ciphertext: Bytes): Bytes
    requires |wrapped| < WRAPPED_LIMIT
  {
    Header(version, wrapped) + nonce + ciphertext
  }

  datatype Parts = Parts(header: Bytes, wrapped: Bytes, nonce: Bytes, ciphertext: Bytes)

  /** A slice that stops at the end of the text, as slices of a text that is too short do. */
  function Clipped(s: Bytes, from: nat, to: nat): Bytes
    requires from <= to
  {
    if |s| <= from then [] else if |s| <= to then s[from..] else s[from..to]
  }

  /** Where the header ends. */
  function HeaderEnd(blob: Bytes): nat
    requires |blob| >= 3
  {
    var high: int := blob[1];
    var low: int := blob[2];
    3 + high * 256 + low
  }

  function Parse(blob: Bytes): Result<Parts, Fault> {
    if |blob| < 3 + NONCE_BYTES then Err(TooShort)
    else if blob[0] != ENVELOPE_LOCAL && blob[0] != ENVELOPE_KMS then Err(UnknownVersion(blob[0]))
    else
      var offset := HeaderEnd(blob);
      Ok(Parts(Clipped(blob, 0, offset), Clipped(blob, 3, offset),
               Clipped(blob, offset, offset + NONCE_BYTES),
               Clipped(blob, offset + NONCE_BYTES, |blob| + offset + NONCE_BYTES)))
  }

  /** What a blob says, given what every wrapped key unwraps to. */
  function Opened(aead: Aead, keyOf: Bytes -> Option<Bytes>, blob: Bytes): Result<Bytes, Fault> {
    match Parse(blob)
    case Err(fault) => Err(fault)
    case Ok(parts) => OpenedWith(aead, keyOf(parts.wrapped), parts)
  }

  function OpenedWith(aead: Aead, key: Option<Bytes>, parts: Parts): Result<Bytes, Fault> {
    match key
    case None => Err(KeyUnavailable)
    case Some(k) =>
      match aead.unseal(k, parts.nonce, parts.ciphertext, parts.header)
      case None => Err(NotAuthentic)
      case Some(plaintext) => Ok(plaintext)
  }

  predicate KnownVersion(version: Byte) {
    version == ENVELOPE_LOCAL || version == ENVELOPE_KMS
  }

  /** The blob holds this text, sealed under this version, wrapped key and nonce. */
  ghost predicate Holds(
    aead: Aead, keyOf: Bytes -> Option<Bytes>, blob: Bytes, plaintext: Bytes, version: Byte, wrapped: Bytes,
    nonce: Bytes)
  {
    && KnownVersion(version) && |wrapped| < WRAPPED_LIMIT && |nonce| == NONCE_BYTES && keyOf(wrapped).Some?
    && blob == Envelope(version, wrapped, nonce,
                        aead.seal(keyOf(wrapped).value, nonce, plaintext, Header(version, wrapped)))
  }

  lemma EnvelopeParses(version: Byte, wrapped: Bytes, nonce: Bytes, ciphertext: Bytes)
    requires KnownVersion(version) && |wrapped| < WRAPPED_LIMIT && |nonce| == NONCE_BYTES
    ensures Parse(Envelope(version, wrapped, nonce, ciphertext))
         == Ok(Parts(Header(version, wrapped), wrapped, nonce, ciphertext))
  {
    var blob := Envelope(version, wrapped, nonce, ciphertext);
    var offset := 3 + |wrapped|;
    assert HeaderEnd(blob) == offset;
    assert blob[..offset] == Header(version, wrapped);
    assert blob[3..offset] == wrapped;
    assert blob[offset..offset + NONCE_BYTES] == nonce;
    assert blob[offset + NONCE_BYTES..] == ciphertext;
    assert Clipped(blob, 0, offset) == blob[..offset] && Clipped(blob, 3, offset) == blob[3..offset];
    assert Clipped(blob, offset, offset + NONCE_BYTES) == blob[offset..offset + NONCE_BYTES];
    assert Clipped(blob, offset + NONCE_BYTES, |blob| + offset + NONCE_BYTES) == blob[offset + NONCE_BYTES..];
  }

  lemma ParsedIsEnvelope(blob: Bytes)
    requires Parse(blob).Ok? && Parse(blob).value.ciphertext != []
    ensures var parts := Parse(blob).value;
      && KnownVersion(blob[0]) && |parts.wrapped| < WRAPPED_LIMIT && |parts.nonce| == NONCE_BYTES
      && parts.header == Header(blob[0], parts.wrapped)
      && blob == Envelope(blob[0], parts.wrapped, parts.nonce, parts.ciphertext)
  {
  }

  /** A blob opens to a text exactly when it is an envelope around that text. */
  lemma OpensExactlyEnvelopes(aead: Aead, keyOf: Bytes -> Option<Bytes>, blob: Bytes, plaintext: Bytes)
    requires aead.Promised()
    ensures Opened(aead, keyOf, blob) == Ok(plaintext)
       <==> exists version, wrapped, nonce :: Holds(aead, keyOf, blob, plaintext, version, wrapped, nonce)
  {
    if Opened(aead, keyOf, blob) == Ok(plaintext) {
      var parts := Parse(blob).value;
      assert |parts.ciphertext| == |plaintext| + 16;
      ParsedIsEnvelope(blob);
      assert Holds(aead, keyOf, blob, plaintext, blob[0], parts.wrapped, parts.nonce);
    }
    if exists version, wrapped, nonce :: Holds(aead, keyOf, blob, plaintext, version, wrapped, nonce) {
      var version, wrapped, nonce :| Holds(aead, keyOf, blob, plaintext, version, wrapped, nonce);
      HeldTextOpens(aead, keyOf, blob, plaintext, version, wrapped, nonce);
    }
  }

  lemma HeldTextOpens(
    aead: Aead, keyOf: Bytes -> Option<Bytes>, blob: Bytes, plaintext: Bytes, version: Byte, wrapped: Bytes,
    nonce: Bytes)
    requires aead.Promised() && Holds(aead, keyOf, blob, plaintext, version, wrapped, nonce)
    ensures Opened(aead, keyOf, blob) == Ok(plaintext)
  {
    var ciphertext := aead.seal(keyOf(wrapped).value, nonce, plaintext, Header(version, wrapped));
    EnvelopeParses(version, wrapped, nonce, ciphertext);
    assert aead.unseal(keyOf(wrapped).value, nonce, ciphertext, Header(version, wrapped)) == Some(plaintext);
  }

  // ----- key providers

  /** The provider that asks the key service, and remembers what it was told. */
  class KmsKeyProvider {
    /** What the key service unwraps each wrapped key to; it refuses what it did not wrap. */
    const keyOf: Bytes -> Option<Bytes>
    var cached: Option<DataKey>
    var unwrapCache: map<Bytes, Bytes>

    constructor (keyOf: Bytes -> Option<Bytes>)
      ensures Valid() && this.keyOf == keyOf && cached == None && unwrapCache == map[]
    {
      this.keyOf := keyOf;
      cached := None;
      unwrapCache := map[];
    }

    /** Nothing is remembered that the key service would not say. */
    ghost predicate Valid()
      reads this
    {
      && (cached.Some? ==> keyOf(cached.value.wrapped) == Some(cached.value.plaintext))
      && (forall w | w in unwrapCache :: keyOf(w) == Some(unwrapCache[w]))
    }

    /** The key service is asked for a data key at most once; `minted` is its reply, if it is asked and answers. */
    method Generate(minted: Option<DataKey>) returns (r: Result<DataKey, Fault>)
      requires Valid() && (minted.Some? ==> keyOf(minted.value.wrapped) == Some(minted.value.plaintext))
      modifies this`cached
      ensures Valid()
      ensures cached == if old(cached).Some? then old(cached) else minted
      ensures r == if cached.Some? then Ok(cached.value) else Err(KeyUnavailable)
    {
      if cached == None {
        if minted == None {
          return Err(KeyUnavailable);
        }
        cached := minted;
      }
      r := Ok(cached.value);
    }

    /** `answers` says whether the key service is up, should it be asked. */
    method Unwrap(wrapped: Bytes, answers: bool) returns (key: Option<Bytes>)
      requires Valid()
      modifies this`unwrapCache
      ensures Valid()
      ensures key == if wrapped in old(unwrapCache) || answers then keyOf(wrapped) else None
      ensures unwrapCache == if key.Some? then old(unwrapCache)[wrapped := key.value] else old(unwrapCache)
    {
      if wrapped in unwrapCache {
        return Some(unwrapCache[wrapped]);
      }
      key := if answers then keyOf(wrapped) else None;
      if key.Some? {
        unwrapCache := unwrapCache[wrapped := key.value];
      }
    }
  }

  datatype KeyProvider = Local(key: Bytes) | Kms(keys: KmsKeyProvider) {
    function Version(): Byte {
      if Local? then ENVELOPE_LOCAL else ENVELOPE_KMS
    }

    function KeyOf(): Bytes -> Option<Bytes> {
      match this
      case Local(key) => (wrapped: Bytes) => Some(key)
      case Kms(keys) => keys.keyOf
    }

    ghost predicate Valid()
      reads if Kms? then {keys} else {}
    {
      Kms? ==> keys.Valid()
    }

    /** The wrapped key is already known to this process. */
    ghost predicate Remembers(wrapped: Bytes)
      reads if Kms? then {keys} else {}
    {
      Local? || wrapped in keys.unwrapCache
    }

    method Generate(minted: Option<DataKey>) returns (r: Result<DataKey, Fault>)
      requires Valid() && (Kms? && minted.Some? ==> keys.keyOf(minted.value.wrapped) == Some(minted.value.plaintext))
      modifies if Kms? then {keys} else {}
      ensures Valid()
      ensures Kms? ==> keys.unwrapCache == old(keys.unwrapCache)
      ensures Kms? ==> keys.cached == if old(keys.cached).Some? then old(keys.cached) else minted
      ensures r == match this
                   case Local(key) => Ok(DataKey(key, []))
                   case Kms(keys) => if keys.cached.Some? then Ok(keys.cached.value) else Err(KeyUnavailable)
    {
      match this
      case Local(key) => r := Ok(DataKey(key, []));
      case Kms(keys) => r := keys.Generate(minted);
    }

    method Unwrap(wrapped: Bytes, answers: bool) returns (key: Option<Bytes>)
      requires Valid()
      modifies if Kms? then {keys} else {}
      ensures Valid()
      ensures Kms? ==> keys.cached == old(keys.cached)
      ensures key == if old(Remembers(wrapped)) || answers then KeyOf()(wrapped) else None
      ensures forall w :: Remembers(w) <==> old(Remembers(w)) || (w == wrapped && key.Some?)
    {
      match this
      case Local(k) => key := Some(k);
      case Kms(keys) => key := keys.Unwrap(wrapped, answers);
    }
  }

  /**
   The version says which kind of provider sealed a text, and opening does not compare it with the
   provider at hand: the local one opens its own key's envelopes of the other version.
   */
  lemma OtherVersionOpens(aead: Aead, key: Bytes, wrapped: Bytes, nonce: Bytes, plaintext: Bytes) returns (blob: Bytes)
    requires aead.Promised() && |wrapped| < WRAPPED_LIMIT && |nonce| == NONCE_BYTES
    ensures blob != [] && blob[0] == ENVELOPE_KMS && Local(key).Version() == ENVELOPE_LOCAL
    ensures Opened(aead, Local(key).KeyOf(), blob) == Ok(plaintext)
  {
    blob := Envelope(ENVELOPE_KMS, wrapped, nonce, aead.seal(key, nonce, plaintext, Header(ENVELOPE_KMS, wrapped)));
    HeldTextOpens(aead, Local(key).KeyOf(), blob, plaintext, ENVELOPE_KMS, wrapped, nonce);
  }

  /** An envelope, byte by byte: version, length of the wrapped key in two bytes, key, twelve bytes of nonce, text. */
  lemma EnvelopeIs(version: Byte, wrapped: Bytes, nonce: Bytes, ciphertext: Bytes)
    requires |wrapped| < 65536 && |nonce| == 12
    ensures var blob := Envelope(version, wrapped, nonce, ciphertext);
      && |blob| == 15 + |wrapped| + |ciphertext|
      && blob[0] == version && (blob[1] as int) * 256 + blob[2] as int == |wrapped|
      && blob[3..3 + |wrapped|] == wrapped && blob[3 + |wrapped|..15 + |wrapped|] == nonce
      && blob[15 + |wrapped|..] == ciphertext
  {
  }

  /** The local key seals as version 1, the key service's keys as version 2, and no other version is read. */
  lemma VersionsAre(p: KeyProvider, blob: Bytes)
    ensures p.Version() == if p.Local? then 1 else 2
    ensures |blob| >= 15 && blob[0] != 1 && blob[0] != 2 ==> Parse(blob) == Err(UnknownVersion(blob[0]))
    ensures |blob| < 15 ==> Parse(blob) == Err(TooShort)
  {
  }

  // ----- the cipher

  function Ascii(s: string): Bytes
    requires Phone.AllDigits(s)
  {
    seq(|s|, k requires 0 <= k < |s| => s[k] as int)
  }

  function Decoded(bytes: Bytes): Result<string, Fault> {
    if forall b | b in bytes :: b < 128
    then Ok(seq(|bytes|, k requires 0 <= k < |bytes| => bytes[k] as char))
    else Err(NotAscii)
  }

  /** What a decrypted field is read as. */
  function ReadPhone(field: Result<Bytes, Fault>): Result<string, Fault> {
    match field
    case Err(fault) => Err(fault)
    case Ok(bytes) =>
      match Decoded(bytes)
      case Err(fault) => Err(fault)
      case Ok(text) =>
        match Phone.Normalise(text)
        case Err(why) => Err(Refused(why))
        case Ok(national) => Ok(national)
  }

  function HashOf(mac: (Bytes, Bytes) -> Bytes, pepper: Bytes, raw: string): Result<Bytes, Fault> {
    match Phone.Normalise(raw)
    case Err(why) => Err(Refused(why))
    case Ok(national) =>
      Phone.ReadExactlyWhenSpelled(raw, national);
      Ok(mac(pepper, Ascii(national)))
  }

  class PhoneCipher {
    const pepper: Bytes
    const keys: KeyProvider
    const aead: Aead
    const mac: (Bytes, Bytes) -> Bytes

    constructor (pepper: Bytes, keys: KeyProvider, aead: Aead, mac: (Bytes, Bytes) -> Bytes)
      ensures this.pepper == pepper && this.keys == keys && this.aead == aead && this.mac == mac
    {
      this.pepper, this.keys, this.aead, this.mac := pepper, keys, aead, mac;
    }

    /** What a blob says to this cipher, whatever its provider remembers. */
    ghost function Says(blob: Bytes): Result<Bytes, Fault> {
      Opened(aead, keys.KeyOf(), blob)
    }

    /** An encrypted field says its plaintext; encryption fails only without a key or with one that is too long. */
    method EncryptField(plaintext: Bytes, nonce: Bytes, minted: Option<DataKey>) returns (r: Result<Bytes, Fault>)
      requires aead.Promised() && keys.Valid() && |nonce| == NONCE_BYTES
      requires keys.Kms? && minted.Some? ==> keys.keys.keyOf(minted.value.wrapped) == Some(minted.value.plaintext)
      modifies if keys.Kms? then {keys.keys} else {}
      ensures keys.Valid()
      ensures forall w :: keys.Remembers(w) <==> old(keys.Remembers(w))
      ensures keys.Kms? ==> keys.keys.cached == if old(keys.keys.cached).Some? then old(keys.keys.cached) else minted
      ensures r.Ok? ==> Says(r.value) == Ok(plaintext) && r.value[0] == keys.Version()
      ensures r.Err? <==> keys.Kms? && (keys.keys.cached.Some? ==> |keys.keys.cached.value.wrapped| >= WRAPPED_LIMIT)
    {
      var dataKey :- keys.Generate(minted);
      if |dataKey.wrapped| >= WRAPPED_LIMIT {
        return Err(WrappedTooLong);
      }
      var aad := Header(keys.Version(), dataKey.wrapped);
      var ciphertext := aead.seal(dataKey.plaintext, nonce, plaintext, aad);
      r := Ok(aad + nonce + ciphertext);
      HeldTextOpens(aead, keys.KeyOf(), r.value, plaintext, keys.Version(), dataKey.wrapped, nonce);
    }

    /** Decryption says what the blob says, from the memory or from the key service alike. */
    method DecryptField(blob: Bytes, answers: bool) returns (r: Result<Bytes, Fault>)
      requires keys.Valid()
      modifies if keys.Kms? then {keys.keys} else {}
      ensures keys.Valid()
      ensures keys.Kms? ==> keys.keys.cached == old(keys.keys.cached)
      ensures forall w :: old(keys.Remembers(w)) ==> keys.Remembers(w)
      ensures r == if answers || (Parse(blob).Ok? ==> old(keys.Remembers(Parse(blob).value.wrapped))) then Says(blob)
                   else Err(KeyUnavailable)
      ensures r.Ok? ==> keys.Remembers(Parse(blob).value.wrapped)
    {
      var parts :- Parse(blob);
      var key := keys.Unwrap(parts.wrapped, answers);
      r := OpenedWith(aead, key, parts);
    }

    method Encrypt(raw: string, nonce: Bytes, minted: Option<DataKey>) returns (r: Result<Bytes, Fault>)
      requires aead.Promised() && keys.Valid() && |nonce| == NONCE_BYTES
      requires keys.Kms? && minted.Some? ==> keys.keys.keyOf(minted.value.wrapped) == Some(minted.value.plaintext)
      modifies if keys.Kms? then {keys.keys} else {}
      ensures keys.Valid()
      ensures Phone.Normalise(raw).Err? ==> r == Err(Refused(Phone.Normalise(raw).error))
      ensures r.Ok? ==> Phone.Normalise(raw).Ok? && ReadPhone(Says(r.value)) == Ok(Phone.Normalise(raw).value)
    {
      var normal := Phone.Normalise(raw);
      if normal.Err? {
        return Err(Refused(normal.error));
      }
      AcceptedNumberReads(raw, normal.value);
      r := EncryptField(Ascii(normal.value), nonce, minted);
    }

    method Decrypt(blob: Bytes, answers: bool) returns (r: Result<string, Fault>)
      requires keys.Valid()
      modifies if keys.Kms? then {keys.keys} else {}
      ensures keys.Valid()
      ensures r == if answers || (Parse(blob).Ok? ==> old(keys.Remembers(Parse(blob).value.wrapped)))
                   then ReadPhone(Says(blob)) else Err(KeyUnavailable)
    {
      var field := DecryptField(blob, answers);
      r := ReadPhone(field);
    }

    method Hash(raw: string) returns (r: Result<Bytes, Fault>)
      ensures r == HashOf(mac, pepper, raw)
    {
      r := HashOf(mac, pepper, raw);
    }
  }

  lemma AsciiReadsBack(s: string)
    requires Phone.AllDigits(s)
    ensures Decoded(Ascii(s)) == Ok(s)
  {
    assert forall k | 0 <= k < |s| :: Ascii(s)[k] < 128 && Ascii(s)[k] as char == s[k];
    assert Decoded(Ascii(s)).value == s;
  }

  lemma AcceptedNumberReads(raw: string, national: string)
    requires Phone.Normalise(raw) == Ok(national)
    ensures Phone.IsNational(national) && ReadPhone(Ok(Ascii(national))) == Ok(national)
  {
    Phone.ReadExactlyWhenSpelled(raw, national);
    AsciiReadsBack(national);
    Phone.NationalReadsAsItself(national);
  }

  /** The keyed hash tells the national numbers apart. */
  ghost predicate TellsNumbersApart(mac: (Bytes, Bytes) -> Bytes, pepper: Bytes) {
    forall m, n | Phone.IsNational(m) && Phone.IsNational(n) ::
      mac(pepper, Ascii(m)) == mac(pepper, Ascii(n)) ==> m == n
  }

  /** Two accepted spellings have one hash exactly when they spell one number. */
  lemma OneHashPerNumber(mac: (Bytes, Bytes) -> Bytes, pepper: Bytes, raw: string, other: string)
    requires TellsNumbersApart(mac, pepper) && Phone.Normalise(raw).Ok? && Phone.Normalise(other).Ok?
    ensures HashOf(mac, pepper, raw) == HashOf(mac, pepper, other)
       <==> exists n ::
              Phone.IsNational(n) && Phone.Spells(Phone.Digits(raw), n) && Phone.Spells(Phone.Digits(other), n)
  {
    var (m, n) := (Phone.Normalise(raw).value, Phone.Normalise(other).value);
    Phone.ReadExactlyWhenSpelled(raw, m);
    Phone.ReadExactlyWhenSpelled(other, n);
    forall k | Phone.IsNational(k) && Phone.Spells(Phone.Digits(raw), k) && Phone.Spells(Phone.Digits(other), k)
      ensures m == n
    {
      Phone.ReadExactlyWhenSpelled(raw, k);
      Phone.ReadExactlyWhenSpelled(other, k);
    }
  }
}
