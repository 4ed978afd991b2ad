/** Keys, envelopes and tenants of the protected channels, told by what is stored
    (packages/application/src/services/protected-channel-keyring.ts:20-60,
    contact-channel-protector.ts:50-103, 145-310 and outbound-recipient-recovery.ts:20-45). */
module ChannelRules {
  import opened Foundations
  import opened JsText
  import opened Encodings
  import opened ProtectedChannel

  // ---- keys ----

  /** The store holds this key, as hexadecimal, under this name. */
  predicate Holds(secrets: Secrets, name: string, key: Bytes) {
    |key| == 32 && name in secrets && secrets[name] == ToHex(key)
  }

  /** A versioned key that is stored is found, under every proper version. */
  lemma StoredKeyResolves(secrets: Secrets, names: KeyNames, version: string, key: Bytes)
    requires Holds(secrets, names.versionedPrefix + version, key)
    ensures ResolveVersion(secrets, names, version) == if ValidVersion(version) then Some(key) else None
  {
    HexRoundTrip(key);
  }

  /** And nothing else is: there must be a secret of 64 hexadecimal digits under the name. */
  lemma ResolvedKeyIsStored(secrets: Secrets, names: KeyNames, version: string)
    ensures ResolveVersion(secrets, names, version).Some? <==>
            && ValidVersion(version) && names.versionedPrefix + version in secrets
            && |secrets[names.versionedPrefix + version]| == 64 && IsHex(secrets[names.versionedPrefix + version])
  {
  }

  /** Keys of 32 bytes survive the way through hexadecimal; no other length is taken. */
  lemma HexKeyExactly(key: Bytes, expectedBytes: nat)
    ensures ParseHexKey(ToHex(key), expectedBytes) == if key != [] && |key| == expectedBytes then Some(key) else None
  {
    HexRoundTrip(key);
  }

  // ---- a store with its own keys works ----

  /** Versions and versioned keys, for both kinds of key. */
  predicate Keyed(secrets: Secrets, version: string, encryptionKey: Bytes, hmacVersion: string, hmacKey: Bytes) {
    && ValidVersion(version) && ValidVersion(hmacVersion)
    && ENCRYPTION.versionSecret in secrets && secrets[ENCRYPTION.versionSecret] == version
    && HMAC.versionSecret in secrets && secrets[HMAC.versionSecret] == hmacVersion
    && Holds(secrets, ENCRYPTION.versionedPrefix + version, encryptionKey)
    && Holds(secrets, HMAC.versionedPrefix + hmacVersion, hmacKey)
  }

  /** From end to end: with such a store every accepted address is protected, under the stored keys,
      recovered in canonical form, and its fingerprint recomputed. */
  lemma KeyedStoreWorks(p: Platform, secrets: Secrets, version: string, encryptionKey: Bytes, hmacVersion: string, hmacKey: Bytes,
                        tenantId: string, raw: string, iv: Bytes)
    requires Lawful(p) && |iv| == IV_LENGTH && Keyed(secrets, version, encryptionKey, hmacVersion, hmacKey)
    requires CanonicalizeEmail(p, raw).Some?
    ensures var channel, canonical := ProtectEmail(p, secrets, tenantId, raw, iv), CanonicalizeEmail(p, raw).value;
            && channel.Some?
            && RecoverEmailForSend(p, secrets, tenantId, channel.value.ciphertext) == Some(canonical)
            && FingerprintEmailForVersion(p, secrets, tenantId, canonical, hmacVersion) == Some(channel.value.fingerprint)
            && ParseFingerprint(channel.value.fingerprint) ==
                 Some(ParsedFingerprint(hmacVersion, p.hmac(hmacKey, Fingerprinted(tenantId, "email", canonical))))
  {
    StoredKeyResolves(secrets, ENCRYPTION, version, encryptionKey);
    StoredKeyResolves(secrets, HMAC, hmacVersion, hmacKey);
    ProtectUsesCurrentKeys(p, secrets, tenantId, raw, iv);
    RecoverableExactlyWithVersionedKey(p, secrets, tenantId, raw, iv);
    CanonicalIsStable(p, raw);
    FingerprintRoundTrip(hmacVersion, p.hmac(hmacKey, Fingerprinted(tenantId, "email", CanonicalizeEmail(p, raw).value)));
  }

  // ---- envelopes ----

  predicate NoDot(s: string) {
    Without(s, '.')
  }

  /** A fingerprint envelope is read exactly when it has the three parts: `h1`, a version, and the
      encoding of 32 bytes. */
  lemma FingerprintReadExactly(format: string, version: string, payload: string)
    requires NoDot(format) && NoDot(version) && NoDot(payload)
    ensures var read, bytes := ParseFingerprint(format + "." + version + "." + payload), FromBase64Url(payload);
            read == if format == "h1" && version != "" && |bytes| == 32 then Some(ParsedFingerprint(version, bytes)) else None
  {
    SplitThree(format, version, payload, '.');
  }

  /** A ciphertext envelope, exactly when it has `e1`, a version, and the encoding of at least 29
      bytes: 12 of the vector, 16 of the tag, the rest encrypted. */
  lemma CiphertextReadExactly(format: string, version: string, payload: string)
    requires NoDot(format) && NoDot(version) && NoDot(payload)
    ensures var read, bytes := ParseCiphertext(format + "." + version + "." + payload), FromBase64Url(payload);
            && (read.Some? <==> format == "e1" && version != "" && |bytes| >= 29)
            && (read.Some? ==> read.value == ParsedCiphertext(version, bytes[..12], Sealed(bytes[12..28], bytes[28..])))
  {
    SplitThree(format, version, payload, '.');
  }

  /** A text with another number of parts is never read. */
  lemma OtherPartsAreNotRead(envelope: string)
    requires |Split(envelope, '.')| != 3
    ensures ParseFingerprint(envelope).None? && ParseCiphertext(envelope).None?
  {
  }

  // ---- tenants ----

  /** Two tenants share a fingerprint under a key exactly when the digest does not tell their frames apart. */
  lemma FingerprintsApartExactly(p: Platform, key: VersionedKey, one: string, other: string, a: string, b: string)
    requires Lawful(p) && ValidVersion(key.version)
    ensures FingerprintOf(p, key, one, a) == FingerprintOf(p, key, other, b) <==>
            p.hmac(key.key, Fingerprinted(one, "email", a)) == p.hmac(key.key, Fingerprinted(other, "email", b))
  {
    FingerprintRoundTrip(key.version, p.hmac(key.key, Fingerprinted(one, "email", a)));
    FingerprintRoundTrip(key.version, p.hmac(key.key, Fingerprinted(other, "email", b)));
  }

  /** What was sealed for one tenant opens for another, or under another key version, only if the
      cipher opens it with the other frame: recovery always asks with the asking tenant's own. */
  lemma RecoversOnlyWhatOpens(p: Platform, secrets: Secrets, version: string, encryptionKey: Bytes, one: string, other: string,
                              iv: Bytes, canonical: string)
    requires Lawful(p) && |iv| == IV_LENGTH && ValidVersion(version) && canonical != ""
    requires Holds(secrets, ENCRYPTION.versionedPrefix + version, encryptionKey)
    ensures var sealed := p.seal(encryptionKey, iv, Encrypted(one, "email", version), canonical);
            var plain := p.open(encryptionKey, iv, Encrypted(other, "email", version), sealed);
            RecoverEmailForSend(p, secrets, other, CiphertextOf(p, VersionedKey(version, encryptionKey), one, iv, canonical)) ==
            if plain.Some? then CanonicalizeEmail(p, plain.value) else None
  {
    StoredKeyResolves(secrets, ENCRYPTION, version, encryptionKey);
    var sealed := p.seal(encryptionKey, iv, Encrypted(one, "email", version), canonical);
    assert Opens(p, encryptionKey, iv, Encrypted(one, "email", version), canonical);
    CiphertextRoundTrip(version, iv, sealed);
  }
}
