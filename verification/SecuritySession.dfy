/** The security handlers as they run on a device, rewriting blob, record, account and session in place. */
module SecuritySessions {
  import opened Prelude
  import opened KeyBlobs
  import opened Rotation

  class SecuritySession {
    const kdf: Kdf
    var account: Option<Account>
    var session: Option<Key>
    var share: Option<Key>
    var blob: Blob
    var record: Option<Anchor>

    constructor (kdf: Kdf, blob: Blob, record: Option<Anchor>)
      ensures this.kdf == kdf && View() == Device(None, None, None, blob, record)
    {
      this.kdf := kdf;
      account, session, share, this.blob, this.record := None, None, None, blob, record;
    }

    function View(): Device
      reads this
    {
      Device(account, session, share, blob, record)
    }

    /** `requirePin`. */
    method PromptPin(entered: Option<string>) returns (passed: bool)
      requires account.Some?
      modifies this
      ensures (View(), passed) == RequirePin(kdf, old(View()), entered)
    {
      var acc := account.value;
      if (acc.pinSalt.None? || acc.pinVerifier.None?) && blob.pinSalt.Some? && blob.pinVerifier.Some? {
        acc := acc.(pinSalt := blob.pinSalt, pinVerifier := blob.pinVerifier);
        account := Some(acc);
      }
      if acc.pinSalt.None? || acc.pinVerifier.None? { return true; }
      if session.Some? { return true; }
      if entered.None? { return false; }
      var bits := kdf.pinBits(entered.value, acc.pinSalt.value);
      passed := Decrypt(acc.pinVerifier.value, bits) == Some(PinOk);
      if passed { session := Some(bits); }
    }

    /** `syncAccountRecord`, as far as the anchor goes. */
    method SyncAccountRecord(anchor: Anchor)
      modifies this`record
      ensures record == Some(anchor)
    {
      record := Some(anchor);
    }

    /** Update PIN. */
    method UpdatePin(entered: Option<string>, newPin: string, salt: Salt, lapses: bool) returns (done: bool)
      modifies this
      ensures View() == ChangePin(kdf, old(View()), entered, newPin, salt, lapses)
      ensures done == Completes(kdf, old(View()), PinChange(entered, newPin, salt, lapses))
    {
      if account.None? || account.value.pinSalt.None? || account.value.pinVerifier.None? { return false; }
      var passed := PromptPin(entered);
      if !passed || newPin == "" || blob.pinVersion < 1 { return false; }
      if lapses { session := None; }
      if session.None? { return false; }

      var acc, current, renewed := account.value, session.value, kdf.pinBits(newPin, salt);
      var newKeys: Cipher;
      var newCanonical: Option<Cipher> := None;
      var newVersion: nat;
      if blob.pinVersion == 3 {
        if share.None? || blob.encryptedCanonical.None? { return false; }
        var canonical := StoredCanonical(blob, PairKey(current, share.value));
        if canonical.None? { return false; }
        newKeys := Encrypt(KeysText(acc.keys), TripleKey(kdf.FaceKey(canonical.value, acc.pub), renewed, share.value));
        newCanonical := Some(Encrypt(CanonicalText(canonical.value), PairKey(renewed, share.value)));
        newVersion := 3;
      } else if blob.pinVersion == 2 {
        if blob.encryptedCanonical.None? { return false; }
        var canonical := StoredCanonical(blob, current);
        if canonical.None? { return false; }
        newKeys := Encrypt(KeysText(acc.keys), PairKey(kdf.FaceKey(canonical.value, acc.pub), renewed));
        newVersion := 2;
      } else {
        var inner := Decrypt(blob.encryptedKeys, current);
        if inner.None? { return false; }
        newKeys := Encrypt(inner.value, renewed);
        newVersion := 1;
      }
      if blob.pinVersion != 3 && blob.encryptedCanonical.Some? {
        var text := Decrypt(blob.encryptedCanonical.value, current);
        if text.Some? { newCanonical := Some(Encrypt(text.value, renewed)); }
      }

      var anchor := Anchor(newKeys, blob.faceMapHash, acc.pub);
      var verifier := Encrypt(PinOk, renewed);
      blob := blob.(encryptedKeys := newKeys, pinSalt := Some(salt), pinVersion := newVersion,
                    pinVerifier := Some(verifier), linkedAnchor := Some(anchor),
                    encryptedCanonical := OrElse(newCanonical, blob.encryptedCanonical));
      SyncAccountRecord(anchor);
      account := Some(acc.(pinSalt := Some(salt), pinVerifier := Some(verifier)));
      session := Some(renewed);
      done := true;
    }

    /** Update Face. */
    method UpdateFace(entered: Option<string>, captured: Option<Descriptor>, lapse: Lapse) returns (done: bool)
      modifies this
      ensures View() == ChangeFace(kdf, old(View()), entered, captured, lapse)
      ensures done == Completes(kdf, old(View()), FaceChange(entered, captured, lapse))
    {
      if account.None? { return false; }
      var wasLive := session.Some?;
      var passed := PromptPin(entered);
      if wasLive && lapse.BeforeKeyIsRead? { session := None; }
      if !passed { return false; }
      var hadSession := session.Some?;
      if (blob.pinVersion == 1 || blob.pinVersion == 2) && !hadSession { return false; }
      if captured.None? { return false; }
      if hadSession && lapse.WhilePosing? { session := None; }

      var acc, canonical := account.value, captured.value;
      var faceKey := kdf.FaceKey(canonical, acc.pub);
      var newKeys: Cipher;
      var newCanonical: Option<Cipher> := None;
      var newVersion: nat;
      var verifier := blob.pinVerifier;
      if hadSession {
        if session.None? { return false; }
        var bits := session.value;
        if blob.pinVersion == 3 && share.None? { return false; }
        if share.Some? {
          newKeys := Encrypt(KeysText(acc.keys), TripleKey(faceKey, bits, share.value));
          newCanonical := Some(Encrypt(CanonicalText(canonical), PairKey(bits, share.value)));
          newVersion := 3;
        } else {
          newKeys := Encrypt(KeysText(acc.keys), PairKey(faceKey, bits));
          newCanonical := Some(Encrypt(CanonicalText(canonical), bits));
          newVersion := 2;
        }
        verifier := Some(Encrypt(PinOk, bits));
      } else {
        newKeys := Encrypt(KeysText(acc.keys), faceKey);
        newVersion := 0;
      }

      var hash := kdf.faceHash(kdf.quantize(canonical));
      var anchor := Anchor(newKeys, hash, acc.pub);
      blob := blob.(pinSalt := OrElse(acc.pinSalt, blob.pinSalt), pinVersion := newVersion, encryptedKeys := newKeys,
                    faceMapHash := hash, linkedAnchor := Some(anchor),
                    encryptedCanonical := OrElse(newCanonical, blob.encryptedCanonical), pinVerifier := verifier,
                    pinAttemptState := Some(Encrypt(AttemptsText(NO_ATTEMPTS), faceKey)));
      SyncAccountRecord(anchor);
      done := true;
    }

    /** Recover Account. */
    method RecoverAccount(live: Descriptor, pin: Option<string>, released: Option<Key>) returns (keys: Option<KeyPair>)
      modifies this
      ensures View() == RecoverHere(kdf, old(View()), live, pin, released)
      ensures
        var r := Attempt(kdf, old(View()), live, pin, released);
        keys == if r.Some? then Some(r.value.keys) else None
    {
      if record.Some? && blob.linkedAnchor.Some? && !Verifies(blob, record.value) { return None; }
      var given: Option<string> := None;
      if blob.pinVersion >= 1 {
        if pin.None? || pin.value == "" { return None; }
        given := pin;
      }
      var used: Option<Key> := None;
      if blob.pinVersion == 3 {
        used := OrElse(share, released);
        if used.None? { return None; }
      }
      var result := Recover(kdf, blob, live, given, used);
      if result.None? { return None; }
      if used.Some? { share := used; }
      if given.Some? && blob.pinSalt.Some? { session := Some(kdf.pinBits(given.value, blob.pinSalt.value)); }
      if account.None? {
        account :=
          Some(Account(kdf.accountId(result.value.keys.priv), result.value.keys, blob.pinSalt, blob.pinVerifier));
      }
      blob := UpdateAttempts(blob, result.value.faceKey, NO_ATTEMPTS);
      keys := Some(result.value.keys);
    }
  }
}
