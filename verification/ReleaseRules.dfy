/** Who a custody record answers to: the human of the first accepted deposit since the last wipe, and exactly that
human. */
module ReleaseRules {
  import opened Prelude
  import opened ReleaseGate

  // ---------------------------------------------------------------- Deposits

  /** Signed, well formed, newer than what is kept, and for somebody this relay can recognise: whoever the kept record
  is bound to, or the identity attested for the account. */
  predicate Acceptable(shares: Shares, slot: Slot, d: Deposit) {
    && d.wellFormed && d.signed
    && if slot in shares then shares[slot].ts < d.ts else d.attested.Some?
  }

  /** An accepted deposit replaces share, coordinate and timestamp of its own slot. It binds a new record to the
  attested identity and leaves binding, failures and lock of an old one; every other deposit changes nothing. */
  lemma DepositsAreKept(shares: Shares, slot: Slot, d: Deposit)
    ensures
      var (after, reply) := AfterStore(shares, slot, d);
      && (reply == Stored <==> Acceptable(shares, slot, d))
      && if !Acceptable(shares, slot, d) then after == shares
         else
           && slot in after && after == shares[slot := after[slot]]
           && |after[slot].share| == |d.share|
           && (forall i :: 0 <= i < |d.share| ==> SameLetter(after[slot].share[i], d.share[i]))
           && after[slot].x == d.x && after[slot].ts == d.ts
           && (if slot in shares
               then
                 && after[slot].nid == shares[slot].nid && after[slot].fails == shares[slot].fails
                 && after[slot].lockedUntil == shares[slot].lockedUntil
               else Some(after[slot].nid) == d.attested && after[slot].fails == 0 && after[slot].lockedUntil == 0)
  {
    if Acceptable(shares, slot, d) {
      forall i | 0 <= i < |d.share| ensures SameLetter(Lower(d.share)[i], d.share[i]) { LowerCased(d.share, i); }
    }
  }

  const UPPER: string := "ABCDEFGHIJKLMNOPQRSTUVWXYZ"
  const LOWER: string := "abcdefghijklmnopqrstuvwxyz"

  /** The same character, or the lower case of an upper-case letter, which is never kept. */
  predicate SameLetter(kept: char, given: char) {
    kept !in UPPER && if given in UPPER then exists k :: 0 <= k < 26 && UPPER[k] == given && LOWER[k] == kept
                      else kept == given
  }

  lemma LowerCased(s: string, i: nat)
    requires i < |s|
    ensures SameLetter(Lower(s)[i], s[i])
  {
    var c := s[i];
    AlphabetPositions(c);
    AlphabetPositions(Lower(s)[i]);
    if 'A' <= c <= 'Z' {
      var k := (c as int) - ('A' as int);
      AlphabetIs(k);
      assert UPPER[k] == c && LOWER[k] == Lower(s)[i];
    }
  }

  lemma AlphabetIs(k: int)
    requires 0 <= k < 26
    ensures UPPER[k] == (('A' as int) + k) as char && LOWER[k] == (('a' as int) + k) as char
  {
    assert |UPPER| == 26 && |LOWER| == 26;
    assert k == 0 || k == 1 || k == 2 || k == 3 || k == 4 || k == 5 || k == 6 || k == 7 || k == 8 || k == 9 || k == 10
      || k == 11 || k == 12 || k == 13 || k == 14 || k == 15 || k == 16 || k == 17 || k == 18 || k == 19 || k == 20
      || k == 21 || k == 22 || k == 23 || k == 24 || k == 25;
  }

  lemma AlphabetPositions(c: char)
    ensures c in UPPER <==> 'A' <= c <= 'Z'
  {
    if 'A' <= c <= 'Z' {
      var k := (c as int) - ('A' as int);
      AlphabetIs(k);
      assert UPPER[k] == c;
    }
    if c in UPPER {
      var k :| 0 <= k < 26 && UPPER[k] == c;
      AlphabetIs(k);
    }
  }

  // ---------------------------------------------------------------- The binding

  /** The step at `i` deposited the first record of the slot since the last wipe. */
  ghost predicate FoundedAt(acts: seq<Act>, slot: Slot, i: int) {
    && 0 <= i < |acts| && acts[i].Store? && acts[i].slot == slot
    && slot !in Run(acts[..i]) && Acceptable(Run(acts[..i]), slot, acts[i].deposit)
    && forall j :: i < j < |acts| ==> !acts[j].Wipe?
  }

  lemma StepKeepsNid(shares: Shares, act: Act, slot: Slot)
    requires slot in Step(shares, act)
    ensures !act.Wipe?
    ensures slot in shares ==> Step(shares, act)[slot].nid == shares[slot].nid
    ensures slot !in shares ==>
      && act.Store? && act.slot == slot && Acceptable(shares, slot, act.deposit)
      && act.deposit.attested == Some(Step(shares, act)[slot].nid)
  {
    if act.Store? { DepositsAreKept(shares, act.slot, act.deposit); }
  }

  /** After any run a record is bound to the identity attested for the first deposit accepted since the last wipe. */
  lemma {:induction false} RecordsAreFounded(acts: seq<Act>, slot: Slot) returns (i: nat)
    requires slot in Run(acts)
    ensures FoundedAt(acts, slot, i) && acts[i].deposit.attested == Some(Run(acts)[slot].nid)
    decreases |acts|
  {
    var n := |acts| - 1;
    StepKeepsNid(Run(acts[..n]), acts[n], slot);
    if slot in Run(acts[..n]) {
      i := RecordsAreFounded(acts[..n], slot);
      assert acts[..n][i] == acts[i] && acts[..n][..i] == acts[..i];
      forall j | i < j < |acts| ensures !acts[j].Wipe? { if j < n { assert acts[..n][j] == acts[j]; } }
    } else {
      i := n;
    }
  }

  // ---------------------------------------------------------------- Releases

  /** Every face of the proof is this human's. */
  predicate AllFaces(faces: seq<Option<string>>, human: string) {
    forall i :: 0 <= i < |faces| ==> faces[i].Some? && faces[i].value == human
  }

  /** An attempt on a record is answered by its lock first; outside it a good trajectory whose faces are all the bound
  human's releases share, coordinate and timestamp and clears the failures, and anything else counts one failure and
  locks by the schedule. */
  lemma ReleasedIff(shares: Shares, slot: Slot, t: Attempt)
    ensures
      var (after, reply) := AfterRelease(shares, slot, t);
      && (reply.Released? <==>
            && t.admitted && slot in shares && shares[slot].lockedUntil <= t.checkedAt
            && t.trajectoryOk && AllFaces(t.faces, shares[slot].nid))
      && (reply.Released? ==>
            && reply == Released(shares[slot].share, shares[slot].x, shares[slot].ts)
            && after == shares[slot := shares[slot].(fails := 0, lockedUntil := 0)])
      && (reply == Denied <==>
            && t.admitted && slot in shares && shares[slot].lockedUntil <= t.checkedAt
            && !(t.trajectoryOk && AllFaces(t.faces, shares[slot].nid)))
      && (reply == Denied ==>
            && slot in after && after == shares[slot := after[slot]]
            && after[slot] == shares[slot].(fails := shares[slot].fails + 1, lockedUntil := after[slot].lockedUntil)
            && after[slot].lockedUntil - t.failedAt == Backoff(shares[slot].fails + 1))
      && (!reply.Released? && reply != Denied ==> after == shares)
  {
    if slot in shares { ScheduleAgrees(shares[slot].fails + 1); }
  }

  /** Three failures are free; the fourth costs half a minute and each further one four times the last, up to a day. */
  function Backoff(fails: nat): nat {
    if fails <= 3 then 0 else if fails >= 10 then 86_400_000 else 30_000 * Pow4(fails - 4)
  }

  /** The last deposit accepted into the slot. */
  ghost predicate LastDeposit(acts: seq<Act>, slot: Slot, i: int) {
    && StoredAt(acts, slot, i)
    && forall j {:trigger StoredAt(acts, slot, j)} :: i < j ==> !StoredAt(acts, slot, j)
  }

  ghost predicate StoredAt(acts: seq<Act>, slot: Slot, i: int) {
    && 0 <= i < |acts| && acts[i].Store? && acts[i].slot == slot
    && Acceptable(Run(acts[..i]), slot, acts[i].deposit)
  }

  lemma StoredAtIsStoresAt(acts: seq<Act>, slot: Slot, i: int)
    ensures StoredAt(acts, slot, i) <==> StoresAt(acts, slot, i)
  {
    if 0 <= i < |acts| && acts[i].Store? { DepositsAreKept(Run(acts[..i]), slot, acts[i].deposit); }
  }

  /** Over every run: a share is released exactly to admitted attempts outside the lock with a good trajectory and all
  faces those of the human its first deposit since the wipe was attested for; and what is released is share, coordinate
  and timestamp of the last accepted deposit. */
  lemma HumanGetsTheShare(acts: seq<Act>, slot: Slot, t: Attempt) returns (first: nat, last: nat)
    requires slot in Run(acts)
    ensures FoundedAt(acts, slot, first) && LastDeposit(acts, slot, last) && acts[first].deposit.attested.Some?
    ensures
      var reply := AfterRelease(Run(acts), slot, t).1;
      && (reply.Released? <==>
            && t.admitted && Run(acts)[slot].lockedUntil <= t.checkedAt
            && t.trajectoryOk && AllFaces(t.faces, acts[first].deposit.attested.value))
      && (reply.Released? ==>
            && reply.share == Lower(acts[last].deposit.share)
            && reply.x == acts[last].deposit.x && reply.ts == acts[last].deposit.ts)
  {
    first := RecordsAreFounded(acts, slot);
    last := RecordsAreDeposits(acts, slot);
    ReleasedIff(Run(acts), slot, t);
    StoredAtIsStoresAt(acts, slot, last);
    forall j {:trigger StoredAt(acts, slot, j)} | last < j ensures !StoredAt(acts, slot, j) {
      StoredAtIsStoresAt(acts, slot, j);
      assert !StoresAt(acts, slot, j);
    }
  }

  /** The lock lasts exactly to the last failure's backoff, so the human is served from then on, however often others
  failed before. */
  lemma HumanIsServedAfterBackoff(acts: seq<Act>, slot: Slot, t: Attempt) returns (first: nat)
    requires ClockRuns(acts) && slot in Run(acts) && t.admitted && t.trajectoryOk
    ensures FoundedAt(acts, slot, first) && acts[first].deposit.attested.Some?
    ensures
      var failed := Failures(acts, slot);
      AllFaces(t.faces, acts[first].deposit.attested.value) ==>
        (AfterRelease(Run(acts), slot, t).1.Released? <==>
           t.checkedAt >= if failed == [] then 0 else failed[|failed| - 1] + Backoff(|failed|))
  {
    var last;
    first, last := HumanGetsTheShare(acts, slot, t);
    RecordCountsFailures(acts, slot);
    ScheduleAgrees(|Failures(acts, slot)|);
  }
}
