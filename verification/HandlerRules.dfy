/** When the account handlers complete and what they leave, stated over what the user presents and what the device and
the network hold. */
module HandlerRules {
  import opened Prelude
  import opened KeyBlobs
  import opened Rotation

  /** The user may go on: a PIN session is live, or the PIN entered derives the owner's bits. */
  ghost predicate LetOn(k: Kdf, d: Device, owner: Owner, entered: Option<string>) {
    d.session.Some?
    || (entered.Some? && d.blob.pinSalt.Some?
        && k.pinBits(entered.value, d.blob.pinSalt.value) == k.pinBits(owner.pin, d.blob.pinSalt.value))
  }

  /** On a good device a PIN change completes exactly for an account with PIN data, a user let on, a new PIN that is not
  empty, a session that lasts, and the share at hand where the blob is split. It then seals everything for the new PIN
  under the new salt, with a live session for it; otherwise blob and record stay. */
  lemma PinChangeCompletesIff(k: Kdf, d: Device, keys: KeyPair, owner: Owner, a: Attempts, act: Act)
    requires Good(k, d, keys, owner, a) && act.PinChange?
    ensures
      Completes(k, d, act) <==>
        && d.account.Some? && d.account.value.pinSalt.Some? && d.account.value.pinVerifier.Some?
        && LetOn(k, d, owner, act.entered) && act.newPin != "" && !act.lapses
        && (d.blob.pinVersion == 3 ==> d.share.Some?)
    ensures
      var after := Step(k, d, act);
      if Completes(k, d, act)
      then
        && SealedFor(k, after.blob, keys, owner.(pin := act.newPin), a) && after.blob.pinSalt == Some(act.salt)
        && after.session == Some(k.pinBits(act.newPin, act.salt)) && after.share == d.share
        && after.account.Some? && after.account.value.pinSalt == Some(act.salt)
        && after.account.value.pinVerifier == after.blob.pinVerifier
      else after.blob == d.blob && after.record == d.record && after.share == d.share
  {
    if d.account.Some? {
      PromptNeedsThePin(k, d, keys, owner, a, act.entered);
      var (ready, passed) := RequirePin(k, d, act.entered);
      if passed && act.newPin != "" { ResealingIsSealed(k, ready, keys, owner, a, act.newPin, act.salt); }
    }
  }

  /** On a good device a face change that loses no key completes exactly for an account, a user let on, a captured face,
  a session that lasts through both looks, and the share at hand where the blob is split. It then seals everything for
  the new face and the share at hand, split where there is one; otherwise blob and record stay. */
  lemma FaceChangeCompletesIff(k: Kdf, d: Device, keys: KeyPair, owner: Owner, a: Attempts, act: Act)
    requires Good(k, d, keys, owner, a) && act.FaceChange? && !KeyLost(k, d, act)
    ensures
      Completes(k, d, act) <==>
        && d.account.Some? && LetOn(k, d, owner, act.entered) && act.captured.Some?
        && !act.lapse.WhilePosing? && (act.lapse.BeforeKeyIsRead? ==> d.session.None?)
        && (d.blob.pinVersion == 3 ==> d.share.Some?)
    ensures
      var after := Step(k, d, act);
      if Completes(k, d, act)
      then
        && SealedFor(k, after.blob, keys, owner.(canonical := act.captured.value, share := d.share), NO_ATTEMPTS)
        && after.blob.pinVersion == (if d.share.Some? then 3 else 2) && after.share == d.share
      else after.blob == d.blob && after.record == d.record && after.share == d.share
  {
    if d.account.Some? {
      PromptNeedsThePin(k, d, keys, owner, a, act.entered);
      var (ready, passed) := KeyRead(k, d, act.entered, act.lapse);
      if Completes(k, d, act) { NewFaceIsSealed(k, ready, keys, owner, a, act.captured.value); }
    }
  }

  // ---------------------------------------------------------------- Recovery on a device

  /** The account record knows an anchor, the blob carries one, and the blob is not the one the record vouches for. */
  predicate Disowned(d: Device) {
    && d.record.Some? && d.blob.linkedAnchor.Some?
    && !(d.record.value.encryptedKeys == d.blob.encryptedKeys && d.record.value.faceMapHash == d.blob.faceMapHash
         && d.record.value.pub == d.blob.pub)
  }

  /** The share recovery presents for a split blob: the cached one, or without one what the relays release. */
  function Presented(d: Device, released: Option<Key>): Option<Key> {
    if d.share.Some? then d.share else released
  }

  /** The factors are the owner's. */
  ghost predicate OwnersFactors(k: Kdf, d: Device, owner: Owner, live: Descriptor, pin: Option<string>,
                                released: Option<Key>)
    requires d.blob.pinSalt.Some?
  {
    && pin.Some? && pin.value != ""
    && k.pinBits(pin.value, d.blob.pinSalt.value) == k.pinBits(owner.pin, d.blob.pinSalt.value)
    && (d.blob.pinVersion == 3 ==> Presented(d, released) == owner.share)
    && k.matches(owner.canonical, live)
  }

  /** For any device and a blob sealed for its owner: recovery succeeds exactly when the record does not disown the blob
  and the factors are the owner's. It then restores the keys where the device had none, opens a session for the PIN,
  caches the share presented for a split blob, and clears the counter; otherwise it changes nothing. */
  lemma RecoveryRestores(k: Kdf, d: Device, keys: KeyPair, owner: Owner, a: Attempts, live: Descriptor,
                         pin: Option<string>, released: Option<Key>)
    requires SealedFor(k, d.blob, keys, owner, a) && keys.Complete()
    ensures
      var after := Step(k, d, Recovery(live, pin, released));
      if !Disowned(d) && OwnersFactors(k, d, owner, live, pin, released)
      then
        && after.account == (if d.account.Some? then d.account
                             else Some(Account(k.accountId(keys.priv), keys, d.blob.pinSalt, d.blob.pinVerifier)))
        && after.session == Some(k.pinBits(owner.pin, d.blob.pinSalt.value))
        && after.share == (if d.blob.pinVersion == 3 then owner.share else d.share)
        && SealedFor(k, after.blob, keys, owner, NO_ATTEMPTS) && after.record == d.record
      else after == d
  {
    RecoveryIsExact(k, d.blob, keys, owner, a, live, pin, ShareInHand(d, released));
  }

  // ---------------------------------------------------------------- Blobs under the face alone

  /** The four keys of a pair are all there. */
  predicate AllFour(keys: KeyPair) {
    |keys.pub| > 0 && |keys.priv| > 0 && |keys.epub| > 0 && |keys.epriv| > 0
  }

  /** Whatever the blob, recovery gives back whole key pairs only. */
  lemma OnlyWholePairs(k: Kdf, blob: Blob, live: Descriptor, pin: Option<string>, share: Option<seq<Byte>>)
    ensures Recover(k, blob, live, pin, share).Some? ==> AllFour(Recover(k, blob, live, pin, share).value.keys)
  {}

  /** Creation refuses exactly a share without a PIN or of another length than 32 bytes; a PIN makes version 3 with a
  share and 2 without, and a blob without a PIN is of version 0, verifies against its own anchor, and opens for exactly
  the live scans that give the enrolled face key, with the keys if all four are there. */
  lemma CreationChoosesVersion(k: Kdf, keys: KeyPair, canonical: Descriptor, faceMapHash: string, pin: Option<string>,
                               pub: string, share: Option<seq<Byte>>, salt: Salt, live: Descriptor,
                               entered: Option<string>, shown: Option<seq<Byte>>)
    ensures
      var r := CreateBlob(k, keys, canonical, faceMapHash, pin, pub, share, salt);
      && (r.Ok? <==> (share.Some? ==> pin.Some? && |pin.value| > 0 && |share.value| == 32))
      && (r.Ok? ==>
            && r.value.pub == pub && r.value.faceMapHash == faceMapHash
            && r.value.pinVersion == (if share.Some? then 3 else if pin.Some? then 2 else 0)
            && r.value.linkedAnchor == Some(Anchor(r.value.encryptedKeys, faceMapHash, pub)))
      && (r.Ok? && pin.None? ==>
            Recover(k, r.value, live, entered, shown) ==
              if k.FaceKey(live, pub) == k.FaceKey(canonical, pub) && AllFour(keys)
              then Some(Recovered(keys, k.FaceKey(canonical, pub), NO_ATTEMPTS)) else None)
  {}
}
