/** PIN changes, face changes and recovery on one account, over the life of its key blob.

A device holds the local account, a five-minute PIN session and possibly a cached recovery share; the
network holds the blob and the account record. The handlers decide which of these they rewrite.
 */
module Rotation {
  import opened Prelude
  import opened KeyBlobs

  datatype Account = Account(pub: string, keys: KeyPair, pinSalt: Option<Salt>, pinVerifier: Option<Cipher>)

  /** `session` are the raw PIN bits while the session lives; `share` is the cached recovery share;
  `record` is the anchor in the account record. */
  datatype Device = Device(
    account: Option<Account>,
    session: Option<Key>,
    share: Option<Key>,
    blob: Blob,
    record: Option<Anchor>)

  // ---------------------------------------------------------------- The PIN prompt

  /** The account with a missing salt or verifier taken from the blob, when the blob has both. */
  function Patched(acc: Account, blob: Blob): Account {
    if (acc.pinSalt.None? || acc.pinVerifier.None?) && blob.pinSalt.Some? && blob.pinVerifier.Some?
    then acc.(pinSalt := blob.pinSalt, pinVerifier := blob.pinVerifier)
    else acc
  }

  /** `requirePin`: the device after the prompt, and whether the user may go on. `entered` is what the user
  types if asked, None when the prompt is cancelled or locked out. */
  function RequirePin(k: Kdf, d: Device, entered: Option<string>): (Device, bool)
    requires d.account.Some?
  {
    var acc := Patched(d.account.value, d.blob);
    var patched := d.(account := Some(acc));
    if acc.pinSalt.None? || acc.pinVerifier.None? || d.session.Some? then (patched, true)
    else if entered.None? then (patched, false)
    else
      var bits := k.pinBits(entered.value, acc.pinSalt.value);
      if Decrypt(acc.pinVerifier.value, bits) == Some(PinOk) then (patched.(session := Some(bits)), true)
      else (patched, false)
  }

  // ---------------------------------------------------------------- Changing the PIN

  datatype Resealed = Resealed(keys: Cipher, canonical: Option<Cipher>, version: nat)

  /** A cipher moved from one key to another, if the current key opens it. */
  function Moved(c: Option<Cipher>, current: Key, renewed: Key): Option<Cipher> {
    if c.Some? && Decrypt(c.value, current).Some? then Some(Encrypt(Decrypt(c.value, current).value, renewed)) else None
  }

  /** What the blob's version re-seals under the new PIN bits; None where the handler gives up. */
  function ResealForPin(k: Kdf, blob: Blob, acc: Account, share: Option<Key>, current: Key, renewed: Key)
    : Option<Resealed>
  {
    if blob.pinVersion == 3 then
      if share.None? || blob.encryptedCanonical.None? then None
      else
        var canonical := StoredCanonical(blob, PairKey(current, share.value));
        if canonical.None? then None
        else Some(Resealed(
          Encrypt(KeysText(acc.keys), TripleKey(k.FaceKey(canonical.value, acc.pub), renewed, share.value)),
          Some(Encrypt(CanonicalText(canonical.value), PairKey(renewed, share.value))), 3))
    else if blob.pinVersion == 2 then
      if blob.encryptedCanonical.None? then None
      else
        var canonical := StoredCanonical(blob, current);
        if canonical.None? then None
        else Some(Resealed(
          Encrypt(KeysText(acc.keys), PairKey(k.FaceKey(canonical.value, acc.pub), renewed)),
          Moved(blob.encryptedCanonical, current, renewed), 2))
    else
      match Decrypt(blob.encryptedKeys, current)
      case Some(inner) => Some(Resealed(Encrypt(inner, renewed), Moved(blob.encryptedCanonical, current, renewed), 1))
      case None => None
  }

  function OrElse<T>(a: Option<T>, b: Option<T>): Option<T> {
    if a.Some? then a else b
  }

  /** Save the re-sealed blob, sync the account record, update the local account and the session. */
  function StorePin(d: Device, acc: Account, sealed: Resealed, salt: Salt, renewed: Key): Device {
    var anchor := Anchor(sealed.keys, d.blob.faceMapHash, acc.pub);
    var verifier := Encrypt(PinOk, renewed);
    Device(
      Some(acc.(pinSalt := Some(salt), pinVerifier := Some(verifier))),
      Some(renewed),
      d.share,
      d.blob.(encryptedKeys := sealed.keys, pinSalt := Some(salt), pinVersion := sealed.version,
              pinVerifier := Some(verifier), linkedAnchor := Some(anchor),
              encryptedCanonical := OrElse(sealed.canonical, d.blob.encryptedCanonical)),
      Some(anchor))
  }

  /** The Update PIN handler. `lapses` says the session runs out while the user types. */
  function ChangePin(k: Kdf, d: Device, entered: Option<string>, newPin: string, salt: Salt, lapses: bool): Device {
    if d.account.None? || d.account.value.pinSalt.None? || d.account.value.pinVerifier.None? then d
    else
      var (ready, passed) := RequirePin(k, d, entered);
      if !passed || newPin == "" || ready.blob.pinVersion < 1 then ready
      else if lapses || ready.session.None? then ready.(session := None)
      else
        var acc := ready.account.value;
        var renewed := k.pinBits(newPin, salt);
        match ResealForPin(k, ready.blob, acc, ready.share, ready.session.value, renewed)
        case Some(sealed) => StorePin(ready, acc, sealed, salt, renewed)
        case None => ready
  }

  // ---------------------------------------------------------------- Changing the face

  /** The keys and the canonical sealed for a new face: split with a cached share, combined without one, under
  the face alone without a session. */
  function SealForFace(k: Kdf, acc: Account, canonical: Descriptor, session: Option<Key>, share: Option<Key>)
    : Resealed
  {
    var faceKey := k.FaceKey(canonical, acc.pub);
    if session.None? then Resealed(Encrypt(KeysText(acc.keys), faceKey), None, 0)
    else if share.Some? then Resealed(
      Encrypt(KeysText(acc.keys), TripleKey(faceKey, session.value, share.value)),
      Some(Encrypt(CanonicalText(canonical), PairKey(session.value, share.value))), 3)
    else Resealed(
      Encrypt(KeysText(acc.keys), PairKey(faceKey, session.value)),
      Some(Encrypt(CanonicalText(canonical), session.value)), 2)
  }

  function StoreFace(k: Kdf, d: Device, acc: Account, canonical: Descriptor, sealed: Resealed): Device {
    var hash := k.faceHash(k.quantize(canonical));
    var anchor := Anchor(sealed.keys, hash, acc.pub);
    d.(blob := d.blob.(
         pinSalt := OrElse(acc.pinSalt, d.blob.pinSalt), pinVersion := sealed.version, encryptedKeys := sealed.keys,
         faceMapHash := hash, linkedAnchor := Some(anchor),
         encryptedCanonical := OrElse(sealed.canonical, d.blob.encryptedCanonical),
         pinVerifier := if d.session.Some? then Some(Encrypt(PinOk, d.session.value)) else d.blob.pinVerifier,
         pinAttemptState := Some(Encrypt(AttemptsText(NO_ATTEMPTS), k.FaceKey(canonical, acc.pub)))),
       record := Some(anchor))
  }

  /** When the five minutes of a live session run out during a face update: not at all, between the prompt's look
  at the session and the handler's, or while the user poses. */
  datatype Lapse = NoLapse | BeforeKeyIsRead | WhilePosing

  /** The device once the handler has read the key, and whether the prompt was passed. A session entered at this
  prompt is too fresh to run out before the key is read. */
  function KeyRead(k: Kdf, d: Device, entered: Option<string>, lapse: Lapse): (Device, bool)
    requires d.account.Some?
  {
    var (ready, passed) := RequirePin(k, d, entered);
    (if lapse.BeforeKeyIsRead? && d.session.Some? then ready.(session := None) else ready, passed)
  }

  /** The Update Face handler; `captured` is None when the camera capture fails. */
  function ChangeFace(k: Kdf, d: Device, entered: Option<string>, captured: Option<Descriptor>, lapse: Lapse): Device {
    if d.account.None? then d
    else
      var (ready, passed) := KeyRead(k, d, entered, lapse);
      if !passed then ready
      else if (ready.blob.pinVersion == 1 || ready.blob.pinVersion == 2) && ready.session.None? then ready
      else if captured.None? then ready
      else if ready.session.Some? && lapse.WhilePosing? then ready.(session := None)
      else if ready.session.Some? && ready.blob.pinVersion == 3 && ready.share.None? then ready
      else
        var acc := ready.account.value;
        StoreFace(k, ready, acc, captured.value, SealForFace(k, acc, captured.value, ready.session, ready.share))
  }

  // ---------------------------------------------------------------- Recovery on a device

  /** The share recovery uses: the cached one, else the one the relays release; none below version 3. */
  function ShareInHand(d: Device, released: Option<Key>): Option<Key> {
    if d.blob.pinVersion == 3 then OrElse(d.share, released) else None
  }

  predicate RecordRefuses(d: Device) {
    d.record.Some? && d.blob.linkedAnchor.Some? && !Verifies(d.blob, d.record.value)
  }

  /** What recovery on this device opens: nothing when the record disowns the blob, or when the PIN or the
  share the blob's version calls for is missing. */
  function Attempt(k: Kdf, d: Device, live: Descriptor, pin: Option<string>, released: Option<Key>): Option<Recovered> {
    var share := ShareInHand(d, released);
    if RecordRefuses(d) || (d.blob.pinVersion >= 1 && (pin.None? || pin.value == ""))
       || (d.blob.pinVersion == 3 && share.None?) then None
    else Recover(k, d.blob, live, if d.blob.pinVersion >= 1 then pin else None, share)
  }

  /** The Recover handler: on success the counter in the blob is reset under the face key recovery returned,
  and the share, the session and the account are on this device. */
  function RecoverHere(k: Kdf, d: Device, live: Descriptor, pin: Option<string>, released: Option<Key>): Device {
    match Attempt(k, d, live, pin, released)
    case None => d
    case Some(r) =>
      Device(
        if d.account.Some? then d.account
        else Some(Account(k.accountId(r.keys.priv), r.keys, d.blob.pinSalt, d.blob.pinVerifier)),
        if d.blob.pinVersion >= 1 && d.blob.pinSalt.Some? then Some(k.pinBits(pin.value, d.blob.pinSalt.value))
          else d.session,
        OrElse(ShareInHand(d, released), d.share),
        UpdateAttempts(d.blob, r.faceKey, NO_ATTEMPTS),
        d.record)
  }

  // ---------------------------------------------------------------- Runs

  datatype Act =
    | PinChange(entered: Option<string>, newPin: string, salt: Salt, lapses: bool)
    | FaceChange(entered: Option<string>, captured: Option<Descriptor>, lapse: Lapse)
    | Recovery(live: Descriptor, pin: Option<string>, released: Option<Key>)
    | SessionEnds
    | DeviceWiped

  function Step(k: Kdf, d: Device, act: Act): Device {
    match act
    case PinChange(entered, newPin, salt, lapses) => ChangePin(k, d, entered, newPin, salt, lapses)
    case FaceChange(entered, captured, lapse) => ChangeFace(k, d, entered, captured, lapse)
    case Recovery(live, pin, released) => RecoverHere(k, d, live, pin, released)
    case SessionEnds => d.(session := None)
    case DeviceWiped => d.(account := None, session := None, share := None)
  }

  function Run(k: Kdf, d: Device, acts: seq<Act>): Device {
    if acts == [] then d else Step(k, Run(k, d, acts[..|acts| - 1]), acts[|acts| - 1])
  }

  /** The owner's factors after a step: a completed PIN change brings the new PIN, a completed face change the
  new face and, where a share was cached, that share. */
  function OwnerAfter(k: Kdf, d: Device, owner: Owner, act: Act): Owner {
    var after := Step(k, d, act);
    match act
    case PinChange(_, newPin, _, _) => if Completes(k, d, act) then owner.(pin := newPin) else owner
    case FaceChange(_, captured, _) =>
      if Completes(k, d, act) then owner.(canonical := captured.value, share := after.share) else owner
    case _ => owner
  }

  /** The handler reaches its last line. */
  predicate Completes(k: Kdf, d: Device, act: Act)
    ensures Completes(k, d, act) && act.FaceChange? ==> act.captured.Some?
  {
    match act
    case PinChange(entered, newPin, salt, lapses) =>
      && d.account.Some? && d.account.value.pinSalt.Some? && d.account.value.pinVerifier.Some?
      && var (ready, passed) := RequirePin(k, d, entered);
      && passed && newPin != "" && d.blob.pinVersion >= 1 && !lapses && ready.session.Some?
      && ResealForPin(k, d.blob, ready.account.value, d.share, ready.session.value, k.pinBits(newPin, salt)).Some?
    case FaceChange(entered, captured, lapse) =>
      && d.account.Some?
      && var (ready, passed) := KeyRead(k, d, entered, lapse);
      && passed && captured.Some?
      && (ready.session.Some? ==> !lapse.WhilePosing? && (d.blob.pinVersion == 3 ==> d.share.Some?))
      && (ready.session.None? ==> d.blob.pinVersion != 1 && d.blob.pinVersion != 2)
    case _ => false
  }

  function OwnerRun(k: Kdf, d: Device, owner: Owner, acts: seq<Act>): Owner {
    if acts == [] then owner
    else OwnerAfter(k, Run(k, d, acts[..|acts| - 1]), OwnerRun(k, d, owner, acts[..|acts| - 1]), acts[|acts| - 1])
  }

  /** A face update runs to its end although the handler found no key. */
  predicate KeyLost(k: Kdf, d: Device, act: Act) {
    act.FaceChange? && Completes(k, d, act) && KeyRead(k, d, act.entered, act.lapse).0.session.None?
  }

  ghost predicate NeverLosesKey(k: Kdf, d: Device, acts: seq<Act>) {
    acts != [] ==>
      NeverLosesKey(k, d, acts[..|acts| - 1]) && !KeyLost(k, Run(k, d, acts[..|acts| - 1]), acts[|acts| - 1])
  }

  // ---------------------------------------------------------------- What every run keeps

  /** The account on the device belongs to the blob; salt and verifier, where it holds both, are the blob's. */
  predicate AccountFits(k: Kdf, d: Device, keys: KeyPair) {
    d.account.Some? ==>
      var acc := d.account.value;
      && acc.pub == d.blob.pub && acc.keys == keys
      && (acc.pinSalt.Some? && acc.pinVerifier.Some? ==>
            acc.pinSalt == d.blob.pinSalt && acc.pinVerifier == d.blob.pinVerifier)
  }

  /** The blob is sealed for the owner, a live session holds the owner's PIN bits, a share cached for a split
  blob is the owner's, and the account record vouches for the blob. */
  ghost predicate Good(k: Kdf, d: Device, keys: KeyPair, owner: Owner, a: Attempts) {
    && SealedFor(k, d.blob, keys, owner, a)
    && k.accountId(keys.priv) == d.blob.pub
    && AccountFits(k, d, keys)
    && (d.session.Some? ==> d.session.value == k.pinBits(owner.pin, d.blob.pinSalt.value))
    && (d.share.Some? && owner.share.Some? ==> d.share == owner.share)
    && !RecordRefuses(d)
  }

  /** With a good device the prompt lets a user go on only with a live session of the owner's PIN bits. */
  lemma PromptNeedsThePin(k: Kdf, d: Device, keys: KeyPair, owner: Owner, a: Attempts, entered: Option<string>)
    requires Good(k, d, keys, owner, a) && d.account.Some?
    ensures
      var (ready, passed) := RequirePin(k, d, entered);
      && Good(k, ready, keys, owner, a)
      && ready.account.Some? && ready.account.value.pinSalt == d.blob.pinSalt
      && ready.account.value.pinVerifier == d.blob.pinVerifier
      && ready.blob == d.blob && ready.share == d.share && ready.record == d.record
      && (passed <==> d.session.Some?
                      || (entered.Some? &&
                          k.pinBits(entered.value, d.blob.pinSalt.value) == k.pinBits(owner.pin, d.blob.pinSalt.value)))
      && (passed ==> ready.session == Some(k.pinBits(owner.pin, d.blob.pinSalt.value)))
  {}

  /** The re-sealing succeeds unless a split blob's share is not cached, and seals for the new PIN. */
  lemma ResealingIsSealed(k: Kdf, d: Device, keys: KeyPair, owner: Owner, a: Attempts, newPin: string, salt: Salt)
    requires Good(k, d, keys, owner, a) && d.account.Some? && d.session.Some? && newPin != ""
    ensures
      var sealed := ResealForPin(k, d.blob, d.account.value, d.share, d.session.value, k.pinBits(newPin, salt));
      && (sealed.Some? <==> (owner.share.Some? ==> d.share.Some?))
      && (sealed.Some? ==>
            Good(k, StorePin(d, d.account.value, sealed.value, salt, k.pinBits(newPin, salt)), keys,
                 owner.(pin := newPin), a))
  {}

  /** Sealing for a new face seals for it, together with the cached share if there is one. */
  lemma NewFaceIsSealed(k: Kdf, d: Device, keys: KeyPair, owner: Owner, a: Attempts, canonical: Descriptor)
    requires Good(k, d, keys, owner, a) && d.account.Some? && d.session.Some? && (owner.share.Some? ==> d.share.Some?)
    requires d.account.value.pinSalt == d.blob.pinSalt && d.account.value.pinVerifier == d.blob.pinVerifier
    ensures
      var acc := d.account.value;
      var sealed := SealForFace(k, acc, canonical, d.session, d.share);
      Good(k, StoreFace(k, d, acc, canonical, sealed), keys,
           owner.(canonical := canonical, share := d.share), NO_ATTEMPTS)
  {}

  /** Recovery on a good device succeeds exactly for the owner's factors, and leaves it good with a zero counter. */
  lemma RecoveryKeepsGood(k: Kdf, d: Device, keys: KeyPair, owner: Owner, a: Attempts,
                          live: Descriptor, pin: Option<string>, released: Option<Key>)
    requires Good(k, d, keys, owner, a) && keys.Complete()
    ensures
      var after := RecoverHere(k, d, live, pin, released);
      if Opens(k, d.blob, owner, live, pin, ShareInHand(d, released))
      then
        && Good(k, after, keys, owner, NO_ATTEMPTS) && after.account.Some? && after.session.Some?
        && (owner.share.Some? ==> after.share == owner.share)
      else after == d
  {
    RecoveryIsExact(k, d.blob, keys, owner, a, live, pin, ShareInHand(d, released));
  }

  /** The counter after a step: a completed face change or a successful recovery resets it. */
  ghost function AttemptsAfter(k: Kdf, d: Device, owner: Owner, a: Attempts, act: Act): Attempts
    requires d.blob.pinSalt.Some?
  {
    match act
    case FaceChange(_, _, _) => if Completes(k, d, act) then NO_ATTEMPTS else a
    case Recovery(live, pin, released) =>
      if Opens(k, d.blob, owner, live, pin, ShareInHand(d, released)) then NO_ATTEMPTS else a
    case _ => a
  }

  lemma PinChangeKeepsGood(k: Kdf, d: Device, keys: KeyPair, owner: Owner, a: Attempts, act: Act)
    requires Good(k, d, keys, owner, a) && act.PinChange?
    ensures Good(k, Step(k, d, act), keys, OwnerAfter(k, d, owner, act), a)
    ensures Step(k, d, act).blob.pinVersion == d.blob.pinVersion
  {
    if d.account.Some? {
      PromptNeedsThePin(k, d, keys, owner, a, act.entered);
      var (ready, passed) := RequirePin(k, d, act.entered);
      if passed && act.newPin != "" { ResealingIsSealed(k, ready, keys, owner, a, act.newPin, act.salt); }
    }
  }

  lemma FaceChangeKeepsGood(k: Kdf, d: Device, keys: KeyPair, owner: Owner, a: Attempts, act: Act)
    requires Good(k, d, keys, owner, a) && act.FaceChange? && !KeyLost(k, d, act)
    ensures Good(k, Step(k, d, act), keys, OwnerAfter(k, d, owner, act), AttemptsAfter(k, d, owner, a, act))
    ensures Step(k, d, act).blob.pinVersion >= d.blob.pinVersion
  {
    if d.account.Some? {
      PromptNeedsThePin(k, d, keys, owner, a, act.entered);
      var (ready, passed) := KeyRead(k, d, act.entered, act.lapse);
      if Completes(k, d, act) { NewFaceIsSealed(k, ready, keys, owner, a, act.captured.value); }
    }
  }

  /** Every handler, completed or refused, keeps the device good, unless a face update loses the key. */
  lemma StepKeepsGood(k: Kdf, d: Device, keys: KeyPair, owner: Owner, a: Attempts, act: Act)
    requires Good(k, d, keys, owner, a) && keys.Complete() && !KeyLost(k, d, act)
    ensures Good(k, Step(k, d, act), keys, OwnerAfter(k, d, owner, act), AttemptsAfter(k, d, owner, a, act))
    ensures Step(k, d, act).blob.pinVersion >= d.blob.pinVersion
  {
    match act
    case PinChange(_, _, _, _) => PinChangeKeepsGood(k, d, keys, owner, a, act);
    case FaceChange(_, _, _) => FaceChangeKeepsGood(k, d, keys, owner, a, act);
    case Recovery(live, pin, released) => RecoveryKeepsGood(k, d, keys, owner, a, live, pin, released);
    case _ =>
  }

  /** On a good device the key is lost exactly when a live session runs out between the prompt and the handler's
  look, on a split blob whose new face is captured; and only that lowers the blob's version. */
  lemma StepDowngradesIff(k: Kdf, d: Device, keys: KeyPair, owner: Owner, a: Attempts, act: Act)
    requires Good(k, d, keys, owner, a) && keys.Complete()
    ensures KeyLost(k, d, act) <==>
      && act.FaceChange? && act.lapse.BeforeKeyIsRead? && act.captured.Some?
      && d.account.Some? && d.session.Some? && d.blob.pinVersion == 3
    ensures Step(k, d, act).blob.pinVersion < d.blob.pinVersion <==> KeyLost(k, d, act)
  {
    if act.FaceChange? && d.account.Some? { PromptNeedsThePin(k, d, keys, owner, a, act.entered); }
    if !KeyLost(k, d, act) { StepKeepsGood(k, d, keys, owner, a, act); }
  }

  /** What a lost key leaves: a blob that opens for any scan giving the new face's key, whatever the PIN and the
  share. */
  lemma LostKeyLeavesFaceAlone(k: Kdf, d: Device, keys: KeyPair, owner: Owner, a: Attempts, act: Act,
                               live: Descriptor, pin: Option<string>, share: Option<seq<Byte>>)
    requires Good(k, d, keys, owner, a) && keys.Complete() && KeyLost(k, d, act)
    ensures
      var blob := Step(k, d, act).blob;
      var faceKey := k.FaceKey(act.captured.value, blob.pub);
      Recover(k, blob, live, pin, share) ==
        if k.FaceKey(live, blob.pub) == faceKey then Some(Recovered(keys, faceKey, NO_ATTEMPTS)) else None
  {
    StepDowngradesIff(k, d, keys, owner, a, act);
  }

  ghost function AttemptsRun(k: Kdf, d: Device, keys: KeyPair, owner: Owner, a: Attempts, acts: seq<Act>): (r: Attempts)
    requires Good(k, d, keys, owner, a) && keys.Complete() && NeverLosesKey(k, d, acts)
    ensures Good(k, Run(k, d, acts), keys, OwnerRun(k, d, owner, acts), r)
  {
    if acts == [] then a
    else
      var early, act := acts[..|acts| - 1], acts[|acts| - 1];
      var before := AttemptsRun(k, d, keys, owner, a, early);
      StepKeepsGood(k, Run(k, d, early), keys, OwnerRun(k, d, owner, early), before, act);
      AttemptsAfter(k, Run(k, d, early), OwnerRun(k, d, owner, early), before, act)
  }

  /** Whatever the owner and anybody else do at the device, completed or refused, as long as no face update loses
  the key: the blob on the network opens for the owner's current PIN, a face matching the current canonical and
  the share, and for nothing else; it gives back the original keys and the counter; and the account record
  vouches for it. */
  lemma RotationsNeverBrick(k: Kdf, d: Device, keys: KeyPair, owner: Owner, a: Attempts, acts: seq<Act>,
                            live: Descriptor, pin: Option<string>, share: Option<seq<Byte>>)
    requires Good(k, d, keys, owner, a) && keys.Complete() && NeverLosesKey(k, d, acts)
    ensures
      var after := Run(k, d, acts);
      var owner' := OwnerRun(k, d, owner, acts);
      && !RecordRefuses(after)
      && after.blob.pinSalt.Some? && owner'.pin != ""
      && Recover(k, after.blob, live, pin, share) ==
           (if Opens(k, after.blob, owner', live, pin, share)
            then Some(Recovered(keys, k.FaceKey(owner'.canonical, after.blob.pub),
                                AttemptsRun(k, d, keys, owner, a, acts)))
            else None)
  {
    RecoveryIsExact(k, Run(k, d, acts).blob, keys, OwnerRun(k, d, owner, acts), AttemptsRun(k, d, keys, owner, a, acts),
                    live, pin, share);
  }

  /** Over any run that loses no key the blob's version never goes down: a split blob stays split. */
  lemma {:induction false} NeverDowngraded(k: Kdf, d: Device, keys: KeyPair, owner: Owner, a: Attempts, acts: seq<Act>)
    requires Good(k, d, keys, owner, a) && keys.Complete() && NeverLosesKey(k, d, acts)
    ensures d.blob.pinVersion <= Run(k, d, acts).blob.pinVersion <= 3
    decreases |acts|
  {
    if acts != [] {
      var early, act := acts[..|acts| - 1], acts[|acts| - 1];
      NeverDowngraded(k, d, keys, owner, a, early);
      var before := AttemptsRun(k, d, keys, owner, a, early);
      StepKeepsGood(k, Run(k, d, early), keys, OwnerRun(k, d, owner, early), before, act);
    }
  }

  /** Which face the blob's face map hash is of: the enrolled one until a face change completes, then the new one. */
  function MappedFace(k: Kdf, d: Device, face: Descriptor, acts: seq<Act>): Descriptor {
    if acts == [] then face
    else
      var early, act := acts[..|acts| - 1], acts[|acts| - 1];
      if act.FaceChange? && Completes(k, Run(k, d, early), act) then act.captured.value
      else MappedFace(k, d, face, early)
  }

  lemma StepMapsFace(k: Kdf, d: Device, act: Act)
    ensures Step(k, d, act).blob.faceMapHash ==
      if act.FaceChange? && Completes(k, d, act) then k.faceHash(k.quantize(act.captured.value))
      else d.blob.faceMapHash
    ensures Step(k, d, act).blob.pub == d.blob.pub
  {}

  /** From any state: after every run the blob's face map hash is of the current face, and it names its account. */
  lemma {:induction false} FaceMapFollows(k: Kdf, d: Device, face: Descriptor, acts: seq<Act>)
    requires d.blob.faceMapHash == k.faceHash(k.quantize(face))
    ensures Run(k, d, acts).blob.faceMapHash == k.faceHash(k.quantize(MappedFace(k, d, face, acts)))
    ensures Run(k, d, acts).blob.pub == d.blob.pub
    decreases |acts|
  {
    if acts != [] {
      FaceMapFollows(k, d, face, acts[..|acts| - 1]);
      StepMapsFace(k, Run(k, d, acts[..|acts| - 1]), acts[|acts| - 1]);
    }
  }

  /** On a good device that is the owner's current face. */
  lemma {:induction false} MappedFaceIsOwners(k: Kdf, d: Device, owner: Owner, acts: seq<Act>)
    ensures MappedFace(k, d, owner.canonical, acts) == OwnerRun(k, d, owner, acts).canonical
    decreases |acts|
  {
    if acts != [] { MappedFaceIsOwners(k, d, owner, acts[..|acts| - 1]); }
  }

  /** No step of the run lowered the blob's version. */
  ghost predicate VersionKept(k: Kdf, d: Device, acts: seq<Act>) {
    acts != [] ==>
      var early := acts[..|acts| - 1];
      VersionKept(k, d, early) && Run(k, d, early).blob.pinVersion <= Run(k, d, acts).blob.pinVersion
  }

  /** And only such runs: every run from a good device keeps the version at every step exactly when no face update
  in it loses the key. */
  lemma {:induction false} VersionKeptIff(k: Kdf, d: Device, keys: KeyPair, owner: Owner, a: Attempts, acts: seq<Act>)
    requires Good(k, d, keys, owner, a) && keys.Complete()
    ensures VersionKept(k, d, acts) <==> NeverLosesKey(k, d, acts)
    decreases |acts|
  {
    if acts != [] {
      var early, act := acts[..|acts| - 1], acts[|acts| - 1];
      VersionKeptIff(k, d, keys, owner, a, early);
      if NeverLosesKey(k, d, early) {
        var before := AttemptsRun(k, d, keys, owner, a, early);
        StepDowngradesIff(k, Run(k, d, early), keys, OwnerRun(k, d, owner, early), before, act);
      }
    }
  }

  /** From any state at all: a completed PIN or face change leaves the account record holding exactly the
  rewritten blob's anchor, and every other outcome of the two handlers leaves blob and record alone. */
  lemma ChangesSyncTheRecord(k: Kdf, d: Device, act: Act)
    requires act.PinChange? || act.FaceChange?
    requires d.account.Some? ==> d.account.value.pub == d.blob.pub
    ensures
      var after := Step(k, d, act);
      if Completes(k, d, act)
      then
        && after.record == Some(AnchorOf(after.blob))
        && after.blob.linkedAnchor == after.record
        && !RecordRefuses(after)
      else after.blob == d.blob && after.record == d.record
  {}

  /** The device of a freshly created account: everything the creation flow leaves behind. */
  lemma EnrolledIsGood(k: Kdf, keys: KeyPair, canonical: Descriptor, hash: string, pin: string, share: Option<Key>,
                       salt: Salt)
    requires pin != "" && keys.Complete()
    ensures
      var created := CreateBlob(k, keys, canonical, hash, Some(pin), k.accountId(keys.priv), share, salt);
      && created.Ok?
      && Good(k, Device(Some(Account(created.value.pub, keys, created.value.pinSalt, created.value.pinVerifier)),
                        Some(k.pinBits(pin, salt)), share, created.value, created.value.linkedAnchor),
              keys, Owner(pin, canonical, share), NO_ATTEMPTS)
  {
    CreatedIsSealed(k, keys, canonical, hash, pin, k.accountId(keys.priv), share, salt);
  }

  /** From any state, a face change weakens a split blob exactly when it passes the prompt and then finds no key:
  the session ran out in between, or neither the account nor the blob knows both salt and verifier, so the prompt
  asked nothing. The keys then end up under the face alone. */
  lemma SplitBlobDowngradesIff(k: Kdf, d: Device, entered: Option<string>, captured: Option<Descriptor>, lapse: Lapse)
    requires d.blob.pinVersion == 3
    ensures ChangeFace(k, d, entered, captured, lapse).blob.pinVersion < 3 <==>
      && d.account.Some? && captured.Some?
      && if d.session.Some? then lapse.BeforeKeyIsRead?
         else Patched(d.account.value, d.blob).pinSalt.None? || Patched(d.account.value, d.blob).pinVerifier.None?
  {}

  // ---------------------------------------------------------------- Two devices

  /** A completed face change seals for exactly the PINs whose bits, under the salt this device knows, are its live
  session's. */
  lemma FaceChangeSealsForSession(k: Kdf, d: Device, act: Act, pin: string)
    requires act.FaceChange? && Completes(k, d, act) && !KeyLost(k, d, act) && pin != ""
    requires d.account.value.pub == d.blob.pub && Patched(d.account.value, d.blob).pinSalt.Some?
    ensures
      var (ready, _) := KeyRead(k, d, act.entered, act.lapse);
      var salt := Patched(d.account.value, d.blob).pinSalt.value;
      var owner := Owner(pin, act.captured.value, d.share);
      var sealed := SealedFor(k, Step(k, d, act).blob, d.account.value.keys, owner, NO_ATTEMPTS);
      sealed <==> k.pinBits(pin, salt) == ready.session.value
  {}

  /** Another device changed the PIN; this one still holds its account, its session and its share. */
  function SeenElsewhere(d: Device, other: Device): Device {
    d.(blob := other.blob, record := other.record)
  }

  /** A PIN changed on a second device does not survive a face change on a first whose session is still live,
  unless the two PINs agree under the first device's salt: the new PIN then opens nothing, and the old one opens
  the new blob. */
  lemma CurrentPinSurvivesIff(k: Kdf, d: Device, keys: KeyPair, owner: Owner, a: Attempts, other: Device, change: Act,
                              act: Act, live: Descriptor, pin: string)
    requires Good(k, d, keys, owner, a) && keys.Complete() && d.account.Some? && d.session.Some?
    requires d.account.value.pinSalt.Some? && d.account.value.pinVerifier.Some?
    requires other.blob == d.blob && other.record == d.record && Good(k, other, keys, owner, a)
    requires change.PinChange? && Completes(k, other, change)
    requires
      var seen := SeenElsewhere(d, Step(k, other, change));
      act.FaceChange? && Completes(k, seen, act) && !KeyLost(k, seen, act)
    requires pin != "" && k.matches(act.captured.value, live)
    ensures
      var after := Step(k, SeenElsewhere(d, Step(k, other, change)), act);
      Recover(k, after.blob, live, Some(pin), d.share).Some? <==>
        k.pinBits(pin, d.account.value.pinSalt.value) == k.pinBits(owner.pin, d.account.value.pinSalt.value)
  {
    var seen := SeenElsewhere(d, Step(k, other, change));
    PinChangeKeepsGood(k, other, keys, owner, a, change);
    FaceChangeSealsForSession(k, seen, act, owner.pin);
    var after := Step(k, seen, act);
    RecoveryIsExact(k, after.blob, keys, Owner(owner.pin, act.captured.value, d.share), NO_ATTEMPTS, live, Some(pin),
                    d.share);
  }
}
