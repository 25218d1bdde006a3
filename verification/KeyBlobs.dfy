/** Sealing account keys under a face, a PIN and a relay-held share.

Encryption is ideal: decrypting with the sealing key gives the text, with any other key nothing. Key
derivation, quantization and face comparison are parameters (`Kdf`); every theorem holds for all of them.
 */
module KeyBlobs {
  import opened Prelude
  import opened Polynomials

  type Key = k: seq<Byte> | |k| == 32 witness seq(32, _ => 0)
  type Descriptor = seq<real>
  type Salt = seq<Byte>

  /** PBKDF2 over the PIN, PBKDF2 over the quantized descriptor (the same 32 bytes serve as the face key),
  quantization into bins, the biometric comparison, the hash of a quantized descriptor, and the engine
  account id of a private key. */
  datatype Kdf = Kdf(
    pinBits: (string, Salt) -> Key,
    faceBits: (Descriptor, string) -> Key,
    quantize: Descriptor -> Descriptor,
    matches: (Descriptor, Descriptor) -> bool,
    faceHash: Descriptor -> string,
    accountId: string -> string)
  {
    /** The enrollment face key of a canonical descriptor. */
    function FaceKey(canonical: Descriptor, pub: string): Key {
      faceBits(quantize(canonical), pub)
    }
  }

  datatype KeyPair = KeyPair(pub: string, priv: string, epub: string, epriv: string) {
    predicate Complete() { pub != "" && priv != "" && epub != "" && epriv != "" }
  }

  datatype Attempts = Attempts(failedAttempts: nat, lockedUntil: nat)

  const NO_ATTEMPTS: Attempts := Attempts(0, 0)

  datatype Text =
    | KeysText(keys: KeyPair)
    | CanonicalText(canonical: Descriptor)
    | PinOk
    | AttemptsText(attempts: Attempts)
    | CipherText(inner: Cipher)

  datatype Cipher = Cipher(key: Key, text: Text)

  function Encrypt(text: Text, key: Key): Cipher {
    Cipher(key, text)
  }

  function Decrypt(c: Cipher, key: Key): Option<Text> {
    if c.key == key then Some(c.text) else None
  }

  /** The hash over (encryptedKeys, faceMapHash, pub) that ties a blob to its account record. */
  datatype Anchor = Anchor(encryptedKeys: Cipher, faceMapHash: string, pub: string)

  datatype Blob = Blob(
    encryptedKeys: Cipher,
    faceMapHash: string,
    pub: string,
    linkedAnchor: Option<Anchor>,
    pinSalt: Option<Salt>,
    pinVersion: nat,
    pinAttemptState: Option<Cipher>,
    pinVerifier: Option<Cipher>,
    encryptedCanonical: Option<Cipher>)

  function AnchorOf(blob: Blob): Anchor {
    Anchor(blob.encryptedKeys, blob.faceMapHash, blob.pub)
  }

  /** `verifyKeyBlobHash`. */
  predicate Verifies(blob: Blob, expected: Anchor) {
    AnchorOf(blob) == expected
  }

  // ---------------------------------------------------------------- Combining key factors

  function XorByte(a: Byte, b: Byte): Byte {
    ByteBounds();
    XorFits(a, b, 8);
    Xor(a, b)
  }

  function XorKeys(a: Key, b: Key): Key {
    seq(32, i requires 0 <= i < 32 => XorByte(a[i], b[i]))
  }

  function ZeroKey(): Key {
    seq(32, _ => 0)
  }

  /** The exclusive or of all factors. */
  function Combined(parts: seq<Key>): Key {
    if parts == [] then ZeroKey() else XorKeys(Combined(parts[..|parts| - 1]), parts[|parts| - 1])
  }

  /** `xorKey`: fold each factor into the buffer, byte by byte. */
  method XorKey(parts: seq<Key>) returns (key: Key)
    ensures key == Combined(parts)
  {
    var xored := new Byte[32](_ => 0);
    assert xored[..] == ZeroKey();
    for k := 0 to |parts|
      invariant xored[..] == Combined(parts[..k])
    {
      assert parts[..k + 1][..k] == parts[..k];
      ghost var before := Combined(parts[..k]);
      for i := 0 to 32
        invariant forall j :: 0 <= j < i ==> xored[j] == XorByte(before[j], parts[k][j])
        invariant forall j :: i <= j < 32 ==> xored[j] == before[j]
      {
        xored[i] := XorByte(xored[i], parts[k][i]);
      }
      assert xored[..] == XorKeys(before, parts[k]);
    }
    assert parts[..|parts|] == parts;
    key := xored[..];
  }

  function PairKey(a: Key, b: Key): Key {
    Combined([a, b])
  }

  function TripleKey(a: Key, b: Key, c: Key): Key {
    Combined([a, b, c])
  }

  lemma CombinedShape(a: Key, b: Key, c: Key)
    ensures PairKey(a, b) == XorKeys(a, b)
    ensures TripleKey(a, b, c) == XorKeys(XorKeys(a, b), c)
  {
    forall i | 0 <= i < 32 ensures XorKeys(ZeroKey(), a)[i] == a[i] { XorUnits(a[i]); }
    assert [a][..0] == [] && [a, b][..1] == [a] && [a, b, c][..2] == [a, b];
    assert Combined([]) == ZeroKey();
    assert XorKeys(ZeroKey(), a) == a;
    assert Combined([a]) == a;
  }

  lemma XorKeysCancels(a: Key, b: Key)
    ensures XorKeys(a, XorKeys(a, b)) == b
  {
    forall i | 0 <= i < 32 ensures XorKeys(a, XorKeys(a, b))[i] == b[i] { XorCancels(a[i], b[i]); }
  }

  lemma XorKeysDecides(a: Key, b: Key, c: Key)
    ensures XorKeys(a, b) == XorKeys(a, c) <==> b == c
  {
    XorKeysCancels(a, b);
    XorKeysCancels(a, c);
  }

  /** Withholding one factor hides the key completely: whatever the other two are, every key is the combined
  key of exactly one missing factor. */
  lemma MissingFactorHidesKey(face: Key, pin: Key, key: Key)
    ensures exists share: Key :: TripleKey(face, pin, share) == key
    ensures forall s: Key, u: Key :: TripleKey(face, pin, s) == key && TripleKey(face, pin, u) == key ==> s == u
  {
    var share := XorKeys(XorKeys(face, pin), key);
    CombinedShape(face, pin, share);
    XorKeysCancels(XorKeys(face, pin), key);
    forall s: Key, u: Key | TripleKey(face, pin, s) == key && TripleKey(face, pin, u) == key ensures s == u {
      CombinedShape(face, pin, s);
      CombinedShape(face, pin, u);
      XorKeysDecides(XorKeys(face, pin), s, u);
    }
  }

  // ---------------------------------------------------------------- Creation

  /** Create a blob: version 3 with a PIN and a share, 2 with a PIN alone, 0 with neither. `salt` is the fresh
  random PIN salt. */
  function CreateBlob(k: Kdf, keys: KeyPair, canonical: Descriptor, faceMapHash: string, pin: Option<string>,
                      pub: string, share: Option<seq<Byte>>, salt: Salt): Result<Blob> {
    if share.Some? && (pin.None? || pin.value == "" || |share.value| != 32) then
      Error("recoveryShare requires a PIN and must be 32 bytes")
    else
      var faceKey := k.FaceKey(canonical, pub);
      var attempts := Encrypt(AttemptsText(NO_ATTEMPTS), faceKey);
      if pin.None? then
        var sealed := Encrypt(KeysText(keys), faceKey);
        Ok(Blob(sealed, faceMapHash, pub, Some(Anchor(sealed, faceMapHash, pub)), None, 0, Some(attempts), None, None))
      else
        var pinBytes := k.pinBits(pin.value, salt);
        var verifier := Encrypt(PinOk, pinBytes);
        if share.Some? then
          var sealed := Encrypt(KeysText(keys), TripleKey(faceKey, pinBytes, share.value));
          var sealedCanonical := Encrypt(CanonicalText(canonical), PairKey(pinBytes, share.value));
          Ok(Blob(sealed, faceMapHash, pub, Some(Anchor(sealed, faceMapHash, pub)), Some(salt), 3,
                  Some(attempts), Some(verifier), Some(sealedCanonical)))
        else
          var sealed := Encrypt(KeysText(keys), PairKey(faceKey, pinBytes));
          var sealedCanonical := Encrypt(CanonicalText(canonical), pinBytes);
          Ok(Blob(sealed, faceMapHash, pub, Some(Anchor(sealed, faceMapHash, pub)), Some(salt), 2,
                  Some(attempts), Some(verifier), Some(sealedCanonical)))
  }

  // ---------------------------------------------------------------- Recovery

  datatype Recovered = Recovered(keys: KeyPair, faceKey: Key, attempts: Attempts)

  /** The counter under the face key it was written with; unreadable or absent reads as none. */
  function ReadAttempts(blob: Blob, faceKey: Key): Attempts {
    if blob.pinAttemptState.None? then NO_ATTEMPTS
    else match Decrypt(blob.pinAttemptState.value, faceKey)
      case Some(AttemptsText(a)) => a
      case _ => NO_ATTEMPTS
  }

  function UpdateAttempts(blob: Blob, faceKey: Key, a: Attempts): Blob {
    blob.(pinAttemptState := Some(Encrypt(AttemptsText(a), faceKey)))
  }

  /** Open the keys once their key and the face key are settled. */
  function OpenKeys(blob: Blob, sealed: Cipher, key: Key, faceKey: Key): Option<Recovered> {
    match Decrypt(sealed, key)
    case Some(KeysText(keys)) => if keys.Complete() then Some(Recovered(keys, faceKey, ReadAttempts(blob, faceKey)))
      else None
    case _ => None
  }

  predicate PinRefused(blob: Blob, pinKey: Key) {
    blob.pinVerifier.Some? && Decrypt(blob.pinVerifier.value, pinKey) != Some(PinOk)
  }

  function StoredCanonical(blob: Blob, key: Key): Option<Descriptor>
    requires blob.encryptedCanonical.Some?
  {
    match Decrypt(blob.encryptedCanonical.value, key)
    case Some(CanonicalText(d)) => Some(d)
    case _ => None
  }

  function RecoverSplit(k: Kdf, blob: Blob, live: Descriptor, pin: string, share: Key): Option<Recovered>
    requires blob.pinSalt.Some? && blob.encryptedCanonical.Some?
  {
    var pinBytes := k.pinBits(pin, blob.pinSalt.value);
    var canonical := StoredCanonical(blob, PairKey(pinBytes, share));
    if PinRefused(blob, pinBytes) || canonical.None? || !k.matches(canonical.value, live) then None
    else
      var faceKey := k.FaceKey(canonical.value, blob.pub);
      OpenKeys(blob, blob.encryptedKeys, TripleKey(faceKey, pinBytes, share), faceKey)
  }

  function RecoverCombined(k: Kdf, blob: Blob, live: Descriptor, pin: string): Option<Recovered>
    requires blob.pinSalt.Some? && blob.encryptedCanonical.Some?
  {
    var pinBytes := k.pinBits(pin, blob.pinSalt.value);
    var canonical := StoredCanonical(blob, pinBytes);
    if PinRefused(blob, pinBytes) || canonical.None? || !k.matches(canonical.value, live) then None
    else
      var faceKey := k.FaceKey(canonical.value, blob.pub);
      OpenKeys(blob, blob.encryptedKeys, PairKey(faceKey, pinBytes), faceKey)
  }

  function RecoverLayered(k: Kdf, blob: Blob, live: Descriptor, pin: string): Option<Recovered>
    requires blob.pinSalt.Some?
  {
    var pinBytes := k.pinBits(pin, blob.pinSalt.value);
    match Decrypt(blob.encryptedKeys, pinBytes)
    case Some(CipherText(inner)) =>
      var canonical := if blob.encryptedCanonical.Some? then StoredCanonical(blob, pinBytes) else None;
      if canonical.Some? && !k.matches(canonical.value, live) then None
      else
        var faceKey := k.FaceKey(if canonical.Some? then canonical.value else live, blob.pub);
        OpenKeys(blob, inner, faceKey, faceKey)
    case _ => None
  }

  /** `recoverKeysWithFace`. An empty PIN counts as none. */
  function Recover(k: Kdf, blob: Blob, live: Descriptor, pin: Option<string>, share: Option<seq<Byte>>)
    : Option<Recovered>
  {
    var hasPin := pin.Some? && pin.value != "";
    if blob.pinVersion == 3 then
      if !hasPin || share.None? || |share.value| != 32 || blob.pinSalt.None? || blob.encryptedCanonical.None? then None
      else RecoverSplit(k, blob, live, pin.value, share.value)
    else if blob.pinVersion == 2 then
      if !hasPin || blob.pinSalt.None? || blob.encryptedCanonical.None? then None
      else RecoverCombined(k, blob, live, pin.value)
    else if blob.pinVersion == 1 then
      if !hasPin || blob.pinSalt.None? then None else RecoverLayered(k, blob, live, pin.value)
    else
      var faceKey := k.FaceKey(live, blob.pub);
      OpenKeys(blob, blob.encryptedKeys, faceKey, faceKey)
  }

  // ---------------------------------------------------------------- Well-sealed blobs

  /** What only the owner has: the PIN, the face as enrolled, and for version 3 the share the relays hold. */
  datatype Owner = Owner(pin: string, canonical: Descriptor, share: Option<Key>)

  /** The blob seals these keys for this owner: split three ways when there is a share, otherwise under the
  combined key, or in the two layers of version 1. */
  ghost predicate SealedFor(k: Kdf, blob: Blob, keys: KeyPair, owner: Owner, a: Attempts) {
    && owner.pin != "" && blob.pinSalt.Some?
    && var pinBytes := k.pinBits(owner.pin, blob.pinSalt.value);
       var faceKey := k.FaceKey(owner.canonical, blob.pub);
       && blob.pinVerifier == Some(Encrypt(PinOk, pinBytes))
       && blob.pinAttemptState == Some(Encrypt(AttemptsText(a), faceKey))
       && if owner.share.Some? then
            && blob.pinVersion == 3
            && blob.encryptedKeys == Encrypt(KeysText(keys), TripleKey(faceKey, pinBytes, owner.share.value))
            && blob.encryptedCanonical ==
                  Some(Encrypt(CanonicalText(owner.canonical), PairKey(pinBytes, owner.share.value)))
          else
            && (blob.pinVersion == 1 || blob.pinVersion == 2)
            && blob.encryptedKeys == (if blob.pinVersion == 2
                                      then Encrypt(KeysText(keys), PairKey(faceKey, pinBytes))
                                      else Encrypt(CipherText(Encrypt(KeysText(keys), faceKey)), pinBytes))
            && blob.encryptedCanonical == Some(Encrypt(CanonicalText(owner.canonical), pinBytes))
  }

  /** The factors somebody presents at recovery are the owner's: a PIN with the same derived bits, the very
  share, and a live face matching the enrolled one. */
  ghost predicate Opens(k: Kdf, blob: Blob, owner: Owner, live: Descriptor, pin: Option<string>,
                        share: Option<seq<Byte>>)
    requires blob.pinSalt.Some?
  {
    && pin.Some? && pin.value != ""
    && k.pinBits(pin.value, blob.pinSalt.value) == k.pinBits(owner.pin, blob.pinSalt.value)
    && (owner.share.Some? ==> share == owner.share)
    && k.matches(owner.canonical, live)
  }

  /** A well-sealed blob opens for the owner's factors and for nothing else, and gives back the keys, the face
  key the counter is sealed under, and the counter. */
  lemma RecoveryIsExact(k: Kdf, blob: Blob, keys: KeyPair, owner: Owner, a: Attempts,
                        live: Descriptor, pin: Option<string>, share: Option<seq<Byte>>)
    requires SealedFor(k, blob, keys, owner, a) && keys.Complete()
    ensures Recover(k, blob, live, pin, share) ==
      if Opens(k, blob, owner, live, pin, share) then Some(Recovered(keys, k.FaceKey(owner.canonical, blob.pub), a))
        else None
  {
    if owner.share.Some? && pin.Some? && share.Some? && |share.value| == 32 {
      var pinBytes := k.pinBits(pin.value, blob.pinSalt.value);
      CombinedShape(pinBytes, share.value, share.value);
      CombinedShape(pinBytes, owner.share.value, share.value);
      XorKeysDecides(pinBytes, share.value, owner.share.value);
    }
  }

  /** A created blob is well sealed, verifies against its own anchor, and starts with a zero counter. */
  lemma CreatedIsSealed(k: Kdf, keys: KeyPair, canonical: Descriptor, faceMapHash: string, pin: string,
                        pub: string, share: Option<seq<Byte>>, salt: Salt)
    requires pin != "" && (share.Some? ==> |share.value| == 32)
    ensures
      var r := CreateBlob(k, keys, canonical, faceMapHash, Some(pin), pub, share, salt);
      && r.Ok? && SealedFor(k, r.value, keys, Owner(pin, canonical, share), NO_ATTEMPTS)
      && r.value.linkedAnchor == Some(AnchorOf(r.value)) && Verifies(r.value, r.value.linkedAnchor.value)
  {}
}
