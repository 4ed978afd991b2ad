/** Protected contact channels: versioned keys, the two envelopes, recovery for sending and
    the fingerprint of a known address (packages/application/src/services/contact-channel-protector.ts,
    protected-channel-keyring.ts and outbound-recipient-recovery.ts).
    `None` stands for a thrown error. */
module ProtectedChannel {
  import opened Foundations
  import opened JsText
  import opened Encodings

  // ---- what the runtime supplies ----

  /** `JSON.stringify` of the authenticated parts, kept apart as fields. */
  datatype Frame =
    | Fingerprinted(tenantId: string, channelType: string, canonicalValue: string)
    | Encrypted(tenantId: string, channelType: string, keyVersion: string)

  datatype Sealed = Sealed(tag: Bytes, encrypted: Bytes)

  /** Lower-casing, HMAC-SHA-256 and AES-256-GCM. */
  datatype Platform = Platform(
    lower: string -> string,
    hmac: (Bytes, Frame) -> Bytes,
    seal: (Bytes, Bytes, Frame, string) -> Sealed,
    open: (Bytes, Bytes, Frame, Sealed) -> Option<string>)

  const IV_LENGTH: nat := 12
  const AUTH_TAG_LENGTH: nat := 16
  const HMAC_LENGTH: nat := 32
  const KEY_LENGTH: nat := 32

  /** Lower-casing twice changes nothing more and leaves no white space at the ends of trimmed
      text; digests and tags have their lengths; what was sealed opens. */
  ghost predicate Lawful(p: Platform) {
    && (forall s :: p.lower(p.lower(s)) == p.lower(s))
    && (forall s :: Trimmed(s) ==> Trimmed(p.lower(s)))
    && (forall key, f :: |p.hmac(key, f)| == HMAC_LENGTH)
    && (forall key, iv, f, text :: Opens(p, key, iv, f, text))
  }

  predicate Opens(p: Platform, key: Bytes, iv: Bytes, f: Frame, text: string) {
    |key| == KEY_LENGTH && |iv| == IV_LENGTH && text != "" ==>
      var sealed := p.seal(key, iv, f, text);
      |sealed.tag| == AUTH_TAG_LENGTH && sealed.encrypted != [] && p.open(key, iv, f, sealed) == Some(text)
  }

  // ---- a lawful platform ----

  function TextBytes(text: string): Bytes {
    if text == "" then []
    else var n := text[0] as int; [n / 65536, n / 256 % 256, n % 256] + TextBytes(text[1..])
  }

  function BytesText(b: Bytes): string {
    if |b| < 3 then ""
    else
      var high: int, middle: int, low: int := b[0], b[1], b[2];
      var n := high * 65536 + middle * 256 + low;
      [if n < 0xD800 || 0xE000 <= n < 0x110000 then n as char else ' '] + BytesText(b[3..])
  }

  lemma {:induction false} TextReadsBack(text: string)
    ensures BytesText(TextBytes(text)) == text
  {
    if text != "" {
      var n, rest := text[0] as int, TextBytes(text[1..]);
      TextReadsBack(text[1..]);
      ThreeDigits(n);
      assert TextBytes(text)[3..] == rest;
    }
  }

  lemma ThreeDigits(n: nat)
    requires n < 0x110000
    ensures n / 65536 < 256 && n / 65536 * 65536 + n / 256 % 256 * 256 + n % 256 == n
  {
  }

  function ZeroBytes(n: nat): Bytes {
    seq(n, _ => 0)
  }

  /** Nothing is lower-cased, hidden or authenticated. */
  function OpenPlatform(): Platform {
    Platform((text: string) => text,
             (key: Bytes, f: Frame) => ZeroBytes(HMAC_LENGTH),
             (key: Bytes, iv: Bytes, f: Frame, text: string) => Sealed(ZeroBytes(AUTH_TAG_LENGTH), TextBytes(text)),
             (key: Bytes, iv: Bytes, f: Frame, sealed: Sealed) => Some(BytesText(sealed.encrypted)))
  }

  /** The laws can be met. */
  lemma LawfulPlatformExists()
    ensures Lawful(OpenPlatform())
  {
    forall key: Bytes, iv: Bytes, f, text ensures Opens(OpenPlatform(), key, iv, f, text) {
      TextReadsBack(text);
    }
  }

  // ---- canonical addresses ----

  /** `indexOf`, with the length of the text for "absent". */
  function IndexOf(s: string, c: char): (i: nat)
    ensures i <= |s| && (i < |s| ==> s[i] == c) && forall k :: 0 <= k < i ==> s[k] != c
  {
    if s == "" then 0 else if s[0] == c then 0 else 1 + IndexOf(s[1..], c)
  }

  function CanonicalizeEmail(p: Platform, raw: string): Option<string> {
    var trimmed := p.lower(Trim(raw));
    if trimmed == "" then None
    else
      var at := IndexOf(trimmed, '@');
      if at == |trimmed| || at < 1 || at == |trimmed| - 1 then None else Some(trimmed)
  }

  /** A canonical address is its own canonical form. */
  lemma CanonicalIsStable(p: Platform, raw: string)
    requires Lawful(p) && CanonicalizeEmail(p, raw).Some?
    ensures CanonicalizeEmail(p, CanonicalizeEmail(p, raw).value) == CanonicalizeEmail(p, raw)
  {
    TrimShape(raw);
    TrimOfTrimmed(p.lower(Trim(raw)));
  }

  /** A canonical address is lower-case and trimmed. */
  lemma CanonicalIsFolded(p: Platform, raw: string)
    requires Lawful(p) && CanonicalizeEmail(p, raw).Some?
    ensures var c := CanonicalizeEmail(p, raw).value; p.lower(c) == c && Trimmed(c) && c != ""
  {
    TrimShape(raw);
  }

  /** The first '@' stands at `i`, neither at the start nor at the end. */
  predicate ProperAt(folded: string, i: nat) {
    0 < i < |folded| - 1 && folded[i] == '@' && forall k :: 0 <= k < i ==> folded[k] != '@'
  }

  /** Exactly which addresses are accepted, and as what: whatever white space is around it, an
      address counts by its lower-cased text, whose first '@' is neither at the start nor at the end. */
  lemma AcceptedExactly(p: Platform, before: string, address: string, behind: string)
    requires Blank(before) && Blank(behind) && Trimmed(address)
    ensures var canonical := CanonicalizeEmail(p, before + address + behind);
            && (canonical.Some? <==> exists i: nat :: ProperAt(p.lower(address), i))
            && (canonical.Some? ==> canonical.value == p.lower(address))
  {
    TrimOfPadded(before, address, behind);
    var folded := p.lower(address);
    var at := IndexOf(folded, '@');
    if 0 < at < |folded| - 1 { assert ProperAt(folded, at); }
    if i: nat :| ProperAt(folded, i) { assert at == i; }
  }

  // ---- the keyring ----

  type Secrets = map<string, string>

  predicate ValidVersion(version: string) {
    1 <= |version| <= 64 && forall i :: 0 <= i < |version| ==> IsUrlChar(version[i])
  }

  /** The names under which one kind of key is stored. */
  datatype KeyNames = KeyNames(versionSecret: string, aliasSecret: string, versionedPrefix: string)

  const ENCRYPTION := KeyNames("projectx/contact-channel/encryption-key-version",
                               "projectx/contact-channel/encryption-key",
                               "projectx/contact-channel/encryption-keys/")
  const HMAC := KeyNames("projectx/contact-channel/hmac-key-version",
                         "projectx/contact-channel/hmac-key",
                         "projectx/contact-channel/hmac-keys/")

  function ParseResolvedKey(hex: string): (key: Option<Bytes>)
    ensures key.Some? ==> |key.value| == KEY_LENGTH
  {
    if |hex| == 2 * KEY_LENGTH && IsHex(hex) then Some(FromHex(hex)) else None
  }

  function ResolveVersion(secrets: Secrets, names: KeyNames, version: string): (key: Option<Bytes>)
    ensures key.Some? ==> |key.value| == KEY_LENGTH
  {
    var name := names.versionedPrefix + version;
    if ValidVersion(version) && name in secrets then ParseResolvedKey(secrets[name]) else None
  }

  datatype VersionedKey = VersionedKey(version: string, key: Bytes)

  /** The current version's own key, or the alias when that key cannot be resolved. */
  function ResolveCurrent(secrets: Secrets, names: KeyNames): (current: Option<VersionedKey>)
    ensures current.Some? ==> |current.value.key| == KEY_LENGTH && ValidVersion(current.value.version)
  {
    if names.versionSecret !in secrets || !ValidVersion(secrets[names.versionSecret]) then None
    else
      var version := secrets[names.versionSecret];
      var key := ResolveVersion(secrets, names, version);
      if key.Some? then Some(VersionedKey(version, key.value))
      else if names.aliasSecret !in secrets then None
      else
        var alias := ParseResolvedKey(secrets[names.aliasSecret]);
        if alias.Some? then Some(VersionedKey(version, alias.value)) else None
  }

  // ---- envelopes ----

  function Envelope(format: string, version: string, payload: Bytes): string {
    format + "." + version + "." + ToBase64Url(payload)
  }

  /** String.prototype.split with a one-character separator. */
  function Split(s: string, c: char): (parts: seq<string>)
    ensures parts != []
  {
    var at := IndexOf(s, c);
    if at == |s| then [s] else [s[..at]] + Split(s[at + 1..], c)
  }

  datatype ParsedEnvelope = ParsedEnvelope(version: string, payload: Bytes)

  /** What both parsers share: three segments, the expected format, a version, a decoded payload. */
  function ParseEnvelope(format: string, envelope: string): Option<ParsedEnvelope> {
    var parts := Split(envelope, '.');
    if |parts| != 3 || parts[0] != format || parts[1] == "" then None
    else Some(ParsedEnvelope(parts[1], FromBase64Url(parts[2])))
  }

  datatype ParsedFingerprint = ParsedFingerprint(version: string, hmac: Bytes)

  function ParseFingerprint(envelope: string): Option<ParsedFingerprint> {
    var parsed := ParseEnvelope("h1", envelope);
    if parsed.None? || |parsed.value.payload| != HMAC_LENGTH then None
    else Some(ParsedFingerprint(parsed.value.version, parsed.value.payload))
  }

  datatype ParsedCiphertext = ParsedCiphertext(version: string, iv: Bytes, sealed: Sealed)

  function ParseCiphertext(envelope: string): Option<ParsedCiphertext> {
    var parsed := ParseEnvelope("e1", envelope);
    if parsed.None? || |parsed.value.payload| < IV_LENGTH + AUTH_TAG_LENGTH + 1 then None
    else
      var payload := parsed.value.payload;
      Some(ParsedCiphertext(parsed.value.version, payload[..IV_LENGTH],
                            Sealed(payload[IV_LENGTH..IV_LENGTH + AUTH_TAG_LENGTH], payload[IV_LENGTH + AUTH_TAG_LENGTH..])))
  }

  function CiphertextEnvelope(version: string, iv: Bytes, sealed: Sealed): string {
    Envelope("e1", version, iv + sealed.tag + sealed.encrypted)
  }

  lemma FirstCharacterAt(x: string, rest: string, c: char)
    requires Without(x, c)
    ensures IndexOf(x + [c] + rest, c) == |x|
  {
    var s := x + [c] + rest;
    assert s[|x|] == c && forall k :: 0 <= k < |x| ==> s[k] == x[k];
  }

  lemma SplitFirst(x: string, rest: string, c: char)
    requires Without(x, c)
    ensures Split(x + [c] + rest, c) == [x] + Split(rest, c)
  {
    FirstCharacterAt(x, rest, c);
    var s := x + [c] + rest;
    assert s[..|x|] == x && s[|x| + 1..] == rest;
  }

  lemma SplitThree(x: string, y: string, z: string, c: char)
    requires Without(x, c) && Without(y, c) && Without(z, c)
    ensures Split(x + [c] + y + [c] + z, c) == [x, y, z]
  {
    assert x + [c] + y + [c] + z == x + [c] + (y + [c] + z);
    SplitFirst(x, y + [c] + z, c);
    SplitFirst(y, z, c);
    SplitNone(z, c);
  }

  lemma SplitNone(z: string, c: char)
    requires Without(z, c)
    ensures Split(z, c) == [z]
  {
  }

  lemma EnvelopeRoundTrip(format: string, version: string, payload: Bytes)
    requires Without(format, '.') && ValidVersion(version)
    ensures ParseEnvelope(format, Envelope(format, version, payload)) == Some(ParsedEnvelope(version, payload))
  {
    EncodedIsUrl(payload);
    SplitThree(format, version, ToBase64Url(payload), '.');
    Base64UrlRoundTrip(payload);
  }

  /** Parsing a built ciphertext envelope returns exactly its parts. */
  lemma CiphertextRoundTrip(version: string, iv: Bytes, sealed: Sealed)
    requires ValidVersion(version) && |iv| == IV_LENGTH && |sealed.tag| == AUTH_TAG_LENGTH && sealed.encrypted != []
    ensures ParseCiphertext(CiphertextEnvelope(version, iv, sealed)) == Some(ParsedCiphertext(version, iv, sealed))
  {
    var payload := iv + sealed.tag + sealed.encrypted;
    EnvelopeRoundTrip("e1", version, payload);
    assert payload[..IV_LENGTH] == iv && payload[IV_LENGTH..IV_LENGTH + AUTH_TAG_LENGTH] == sealed.tag;
    assert payload[IV_LENGTH + AUTH_TAG_LENGTH..] == sealed.encrypted;
  }

  /** Parsing a built fingerprint envelope returns exactly its parts. */
  lemma FingerprintRoundTrip(version: string, hmac: Bytes)
    requires ValidVersion(version) && |hmac| == HMAC_LENGTH
    ensures ParseFingerprint(Envelope("h1", version, hmac)) == Some(ParsedFingerprint(version, hmac))
  {
    EnvelopeRoundTrip("h1", version, hmac);
  }

  // ---- protecting, recovering, recomputing ----

  datatype ProtectedContactChannel = ProtectedContactChannel(fingerprint: string, ciphertext: string)

  function FingerprintOf(p: Platform, key: VersionedKey, tenantId: string, canonical: string): string {
    Envelope("h1", key.version, p.hmac(key.key, Fingerprinted(tenantId, "email", canonical)))
  }

  function CiphertextOf(p: Platform, key: VersionedKey, tenantId: string, iv: Bytes, canonical: string): string {
    CiphertextEnvelope(key.version, iv, p.seal(key.key, iv, Encrypted(tenantId, "email", key.version), canonical))
  }

  /** `parseHexKey`. */
  function ParseHexKey(hex: string, expectedBytes: nat): Option<Bytes> {
    if hex != "" && IsHex(hex) && |FromHex(hex)| == expectedBytes then Some(FromHex(hex)) else None
  }

  /** `iv` is the random draw. The resolved keys travel as hexadecimal text. */
  function ProtectEmail(p: Platform, secrets: Secrets, tenantId: string, raw: string, iv: Bytes): Option<ProtectedContactChannel> {
    var canonical, hmac, enc := CanonicalizeEmail(p, raw), ResolveCurrent(secrets, HMAC), ResolveCurrent(secrets, ENCRYPTION);
    if canonical.None? || hmac.None? || enc.None? then None
    else
      var hmacKey, encKey := ParseHexKey(ToHex(hmac.value.key), 32), ParseHexKey(ToHex(enc.value.key), 32);
      if hmacKey.None? || encKey.None? then None
      else Some(ProtectedContactChannel(
        FingerprintOf(p, VersionedKey(hmac.value.version, hmacKey.value), tenantId, canonical.value),
        CiphertextOf(p, VersionedKey(enc.value.version, encKey.value), tenantId, iv, canonical.value)))
  }

  function Decrypt(p: Platform, key: Bytes, tenantId: string, envelope: string): Option<string> {
    var parsed := ParseCiphertext(envelope);
    if parsed.None? then None
    else p.open(key, parsed.value.iv, Encrypted(tenantId, "email", parsed.value.version), parsed.value.sealed)
  }

  function RecoverEmailForSend(p: Platform, secrets: Secrets, tenantId: string, ciphertext: string): Option<string> {
    var parsed := ParseCiphertext(ciphertext);
    if parsed.None? then None
    else
      var key := ResolveVersion(secrets, ENCRYPTION, parsed.value.version);
      if key.None? then None
      else
        var plain := Decrypt(p, key.value, tenantId, ciphertext);
        if plain.None? then None else CanonicalizeEmail(p, plain.value)
  }

  function FingerprintEmailForVersion(p: Platform, secrets: Secrets, tenantId: string, raw: string, version: string): Option<string> {
    var key, canonical := ResolveVersion(secrets, HMAC, version), CanonicalizeEmail(p, raw);
    if key.None? || canonical.None? then None
    else Some(FingerprintOf(p, VersionedKey(version, key.value), tenantId, canonical.value))
  }

  /** Addresses that differ only in outer white space and in what lower-casing folds have the same
      fingerprint, under whatever key of whatever version. */
  lemma SameAddressSameFingerprint(p: Platform, secrets: Secrets, tenantId: string, version: string,
                                   before: string, one: string, behind: string, before': string, other: string, behind': string)
    requires Blank(before) && Blank(behind) && Blank(before') && Blank(behind') && Trimmed(one) && Trimmed(other)
    requires p.lower(one) == p.lower(other)
    ensures CanonicalizeEmail(p, before + one + behind) == CanonicalizeEmail(p, before' + other + behind')
    ensures FingerprintEmailForVersion(p, secrets, tenantId, before + one + behind, version) ==
            FingerprintEmailForVersion(p, secrets, tenantId, before' + other + behind', version)
  {
    AcceptedExactly(p, before, one, behind);
    AcceptedExactly(p, before', other, behind');
  }

  /** Protection succeeds exactly when the address is well formed and both current keys
      resolve; it then uses those keys and names their versions. */
  lemma ProtectUsesCurrentKeys(p: Platform, secrets: Secrets, tenantId: string, raw: string, iv: Bytes)
    ensures var channel, canonical := ProtectEmail(p, secrets, tenantId, raw, iv), CanonicalizeEmail(p, raw);
            var hmac, enc := ResolveCurrent(secrets, HMAC), ResolveCurrent(secrets, ENCRYPTION);
            && (channel.Some? <==> canonical.Some? && hmac.Some? && enc.Some?)
            && (channel.Some? ==> channel.value == ProtectedContactChannel(FingerprintOf(p, hmac.value, tenantId, canonical.value),
                                                                            CiphertextOf(p, enc.value, tenantId, iv, canonical.value)))
  {
    var hmac, enc := ResolveCurrent(secrets, HMAC), ResolveCurrent(secrets, ENCRYPTION);
    if hmac.Some? { HexRoundTrip(hmac.value.key); }
    if enc.Some? { HexRoundTrip(enc.value.key); }
  }

  // ---- rotations ----

  /** An operator's change to the secret store. */
  datatype Update = Write(name: string, value: string) | Drop(name: string)

  function Applied(secrets: Secrets, u: Update): Secrets {
    match u
    case Write(name, value) => secrets[name := value]
    case Drop(name) => secrets - {name}
  }

  function AfterUpdates(secrets: Secrets, updates: seq<Update>): Secrets
    decreases |updates|
  {
    if updates == [] then secrets else AfterUpdates(Applied(secrets, updates[0]), updates[1..])
  }

  predicate IsPrefix(prefix: string, s: string) {
    |prefix| <= |s| && s[..|prefix|] == prefix
  }

  /** Rotations may add versions and move the current one, but never touch a versioned key
      that is already there. */
  predicate KeepsVersionedKeys(secrets: Secrets, updates: seq<Update>)
    decreases |updates|
  {
    updates != [] ==>
      && (updates[0].name in secrets ==>
            !IsPrefix(ENCRYPTION.versionedPrefix, updates[0].name) && !IsPrefix(HMAC.versionedPrefix, updates[0].name))
      && KeepsVersionedKeys(Applied(secrets, updates[0]), updates[1..])
  }

  lemma {:induction false} VersionedKeysSurvive(secrets: Secrets, updates: seq<Update>, names: KeyNames, version: string)
    requires KeepsVersionedKeys(secrets, updates) && (names == ENCRYPTION || names == HMAC)
    requires ResolveVersion(secrets, names, version).Some?
    ensures ResolveVersion(AfterUpdates(secrets, updates), names, version) == ResolveVersion(secrets, names, version)
    decreases |updates|
  {
    if updates != [] {
      assert IsPrefix(names.versionedPrefix, names.versionedPrefix + version);
      assert updates[0].name != names.versionedPrefix + version;
      VersionedKeysSurvive(Applied(secrets, updates[0]), updates[1..], names, version);
    }
  }

  // ---- main results ----

  /** Recovery with the key the envelope was built with gives the canonical address back. */
  lemma RecoversWithItsKey(p: Platform, secrets: Secrets, tenantId: string, raw: string, iv: Bytes, key: VersionedKey)
    requires Lawful(p) && |iv| == IV_LENGTH && CanonicalizeEmail(p, raw).Some?
    requires ResolveVersion(secrets, ENCRYPTION, key.version) == Some(key.key)
    ensures RecoverEmailForSend(p, secrets, tenantId, CiphertextOf(p, key, tenantId, iv, CanonicalizeEmail(p, raw).value))
            == CanonicalizeEmail(p, raw)
  {
    var canonical, f := CanonicalizeEmail(p, raw).value, Encrypted(tenantId, "email", key.version);
    assert Opens(p, key.key, iv, f, canonical);
    CiphertextRoundTrip(key.version, iv, p.seal(key.key, iv, f, canonical));
    CanonicalIsStable(p, raw);
  }

  /** The fingerprint built with a key names its version and is recomputed with that key. */
  lemma RecomputesWithItsKey(p: Platform, secrets: Secrets, tenantId: string, raw: string, key: VersionedKey)
    requires Lawful(p) && CanonicalizeEmail(p, raw).Some?
    requires ResolveVersion(secrets, HMAC, key.version) == Some(key.key)
    ensures var stored := FingerprintOf(p, key, tenantId, CanonicalizeEmail(p, raw).value);
            && ParseFingerprint(stored).Some? && ParseFingerprint(stored).value.version == key.version
            && FingerprintEmailForVersion(p, secrets, tenantId, raw, key.version) == Some(stored)
  {
    FingerprintRoundTrip(key.version, p.hmac(key.key, Fingerprinted(tenantId, "email", CanonicalizeEmail(p, raw).value)));
  }

  /** A built ciphertext envelope names the version of its key. */
  lemma CiphertextNamesVersion(p: Platform, key: VersionedKey, tenantId: string, iv: Bytes, canonical: string)
    requires Lawful(p) && |iv| == IV_LENGTH && |key.key| == KEY_LENGTH && ValidVersion(key.version) && canonical != ""
    ensures var envelope := CiphertextOf(p, key, tenantId, iv, canonical);
            ParseCiphertext(envelope).Some? && ParseCiphertext(envelope).value.version == key.version
  {
    var f := Encrypted(tenantId, "email", key.version);
    assert Opens(p, key.key, iv, f, canonical);
    CiphertextRoundTrip(key.version, iv, p.seal(key.key, iv, f, canonical));
  }

  /** Main theorem: an address protected while the current encryption version had its own key
      can, after any number of rotations that keep versioned keys, be recovered in canonical form. */
  lemma RecoverableAfterRotations(p: Platform, secrets: Secrets, tenantId: string, raw: string, iv: Bytes, updates: seq<Update>)
    requires Lawful(p) && |iv| == IV_LENGTH && ProtectEmail(p, secrets, tenantId, raw, iv).Some?
    requires ResolveVersion(secrets, ENCRYPTION, secrets[ENCRYPTION.versionSecret]).Some?
    requires KeepsVersionedKeys(secrets, updates)
    ensures RecoverEmailForSend(p, AfterUpdates(secrets, updates), tenantId, ProtectEmail(p, secrets, tenantId, raw, iv).value.ciphertext)
            == CanonicalizeEmail(p, raw)
  {
    var enc := ResolveCurrent(secrets, ENCRYPTION).value;
    ProtectUsesCurrentKeys(p, secrets, tenantId, raw, iv);
    VersionedKeysSurvive(secrets, updates, ENCRYPTION, enc.version);
    RecoversWithItsKey(p, AfterUpdates(secrets, updates), tenantId, raw, iv, enc);
  }

  /** Likewise the fingerprint: recomputed from the address under the version the stored
      fingerprint names, it equals the stored one. */
  lemma FingerprintStableAfterRotations(p: Platform, secrets: Secrets, tenantId: string, raw: string, iv: Bytes, updates: seq<Update>)
    requires Lawful(p) && ProtectEmail(p, secrets, tenantId, raw, iv).Some?
    requires ResolveVersion(secrets, HMAC, secrets[HMAC.versionSecret]).Some?
    requires KeepsVersionedKeys(secrets, updates)
    ensures var stored := ProtectEmail(p, secrets, tenantId, raw, iv).value.fingerprint;
            && ParseFingerprint(stored).Some?
            && FingerprintEmailForVersion(p, AfterUpdates(secrets, updates), tenantId, raw, ParseFingerprint(stored).value.version)
               == Some(stored)
  {
    var hmac := ResolveCurrent(secrets, HMAC).value;
    ProtectUsesCurrentKeys(p, secrets, tenantId, raw, iv);
    VersionedKeysSurvive(secrets, updates, HMAC, hmac.version);
    RecomputesWithItsKey(p, AfterUpdates(secrets, updates), tenantId, raw, hmac);
  }

  /** Without a versioned key for the version an envelope names, recovery fails. */
  lemma RecoveryNeedsTheVersionedKey(p: Platform, secrets: Secrets, later: Secrets, tenantId: string, raw: string, iv: Bytes)
    requires Lawful(p) && |iv| == IV_LENGTH && ProtectEmail(p, secrets, tenantId, raw, iv).Some?
    requires ResolveVersion(later, ENCRYPTION, secrets[ENCRYPTION.versionSecret]).None?
    ensures RecoverEmailForSend(p, later, tenantId, ProtectEmail(p, secrets, tenantId, raw, iv).value.ciphertext) == None
  {
    var enc, canonical := ResolveCurrent(secrets, ENCRYPTION).value, CanonicalizeEmail(p, raw).value;
    ProtectUsesCurrentKeys(p, secrets, tenantId, raw, iv);
    CiphertextNamesVersion(p, enc, tenantId, iv, canonical);
  }

  /** The exact condition: with the store unchanged, a protected address can be recovered if
      and only if the current encryption version has its own key. Protection alone does not
      need one, because it falls back on the alias; recovery never does. */
  lemma RecoverableExactlyWithVersionedKey(p: Platform, secrets: Secrets, tenantId: string, raw: string, iv: Bytes)
    requires Lawful(p) && |iv| == IV_LENGTH && ProtectEmail(p, secrets, tenantId, raw, iv).Some?
    ensures RecoverEmailForSend(p, secrets, tenantId, ProtectEmail(p, secrets, tenantId, raw, iv).value.ciphertext) == CanonicalizeEmail(p, raw)
            <==> ResolveVersion(secrets, ENCRYPTION, secrets[ENCRYPTION.versionSecret]).Some?
  {
    ProtectUsesCurrentKeys(p, secrets, tenantId, raw, iv);
    if ResolveVersion(secrets, ENCRYPTION, secrets[ENCRYPTION.versionSecret]).Some? {
      RecoversWithItsKey(p, secrets, tenantId, raw, iv, ResolveCurrent(secrets, ENCRYPTION).value);
    } else {
      RecoveryNeedsTheVersionedKey(p, secrets, secrets, tenantId, raw, iv);
    }
  }

  function Zeros(n: nat): (s: string)
    ensures |s| == n && forall i :: 0 <= i < n ==> s[i] == '0'
  {
    if n == 0 then "" else "0" + Zeros(n - 1)
  }

  /** A store that holds only versions and aliases. */
  function AliasOnly(): Secrets {
    map[ENCRYPTION.versionSecret := "v1", ENCRYPTION.aliasSecret := Zeros(64), HMAC.versionSecret := "v1", HMAC.aliasSecret := Zeros(64)]
  }

  lemma AliasOnlyResolves()
    ensures ResolveCurrent(AliasOnly(), ENCRYPTION).Some? && ResolveCurrent(AliasOnly(), HMAC).Some?
    ensures AliasOnly()[ENCRYPTION.versionSecret] == "v1" && ResolveVersion(AliasOnly(), ENCRYPTION, "v1").None?
  {
    assert |ENCRYPTION.versionSecret| == 47 && |ENCRYPTION.aliasSecret| == 39 && |ENCRYPTION.versionedPrefix + "v1"| == 43;
    assert |HMAC.versionSecret| == 41 && |HMAC.aliasSecret| == 33 && |HMAC.versionedPrefix + "v1"| == 37;
  }

  /** The failing input: an address protected under that store is lost at once. */
  lemma AliasOnlyStoreLosesAddresses(p: Platform, tenantId: string, raw: string, iv: Bytes)
    requires Lawful(p) && |iv| == IV_LENGTH && CanonicalizeEmail(p, raw).Some?
    ensures var channel := ProtectEmail(p, AliasOnly(), tenantId, raw, iv);
            channel.Some? && RecoverEmailForSend(p, AliasOnly(), tenantId, channel.value.ciphertext) == None
  {
    AliasOnlyResolves();
    ProtectUsesCurrentKeys(p, AliasOnly(), tenantId, raw, iv);
    RecoveryNeedsTheVersionedKey(p, AliasOnly(), AliasOnly(), tenantId, raw, iv);
  }
}
