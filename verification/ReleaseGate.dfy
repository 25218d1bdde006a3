/** The relay's custody of recovery shares: storing, and releasing behind an exponential backoff.

Request parsing, the signature check, the challenge session, the per-address cap, the trajectory verifier and the
face database are verdicts handed in with each request.
 */
module ReleaseGate {
  import opened Prelude

  datatype Slot = Slot(network: string, accountId: string)

  datatype Record = Record(nid: string, share: string, x: Option<int>, ts: int, fails: nat, lockedUntil: int)

  /** `attested` is the identity this relay has for the account, from attestation or a live match. */
  datatype Deposit =
    Deposit(wellFormed: bool, signed: bool, share: string, x: Option<int>, ts: int, attested: Option<string>)

  /** `admitted`: well formed, a fresh challenge session, under the address cap. `faces` are the identities the
  descriptors of the proof match. The clock is read once for the lock and again if the attempt fails. */
  datatype Attempt =
    Attempt(admitted: bool, checkedAt: int, failedAt: int, trajectoryOk: bool, faces: seq<Option<string>>)

  datatype Reply = BadRequest | BadSignature | Stale | NoIdentity | Stored
                 | Refused | NoShare | Locked | Denied | Released(share: string, x: Option<int>, ts: int)

  type Shares = map<Slot, Record>

  // ---------------------------------------------------------------- The schedule

  function Pow4(n: nat): nat {
    if n == 0 then 1 else 4 * Pow4(n - 1)
  }

  function Min(a: int, b: int): int {
    if a < b then a else b
  }

  /** `releaseBackoffMs`. */
  function ReleaseBackoffMs(fails: nat): nat {
    if fails <= 3 then 0 else Min(86_400_000, 30_000 * Pow4(fails - 4))
  }

  const FREE_ATTEMPTS: nat := 3
  const MAX_DELAY_MS: nat := 86_400_000

  /** The client's `getBackoffMs`, which works in seconds. */
  function GetBackoffMs(failedAttempts: nat): nat {
    if failedAttempts <= FREE_ATTEMPTS then 0
    else
      var delaySec := 30 * Pow4(failedAttempts - FREE_ATTEMPTS - 1);
      Min(MAX_DELAY_MS, delaySec * 1000)
  }

  lemma {:induction false} Pow4Grows(m: nat, n: nat)
    requires m <= n
    ensures Pow4(m) <= Pow4(n)
    decreases n
  {
    if m < n { Pow4Grows(m, n - 1); }
  }

  /** Relay and client agree on every count: free up to three, then a factor of four each time from half a
  minute, and one day from the tenth on. */
  lemma ScheduleAgrees(n: nat)
    ensures GetBackoffMs(n) == ReleaseBackoffMs(n)
    ensures n <= 3 ==> ReleaseBackoffMs(n) == 0
    ensures 4 <= n <= 9 ==> ReleaseBackoffMs(n) == 30_000 * Pow4(n - 4)
    ensures n >= 10 ==> ReleaseBackoffMs(n) == 86_400_000
  {
    FirstPowers();
    if n >= 10 { Pow4Grows(6, n - 4); }
    if 4 <= n <= 9 { Pow4Grows(n - 4, 5); }
  }

  lemma FirstPowers()
    ensures Pow4(0) == 1 && Pow4(1) == 4 && Pow4(2) == 16 && Pow4(3) == 64
    ensures Pow4(4) == 256 && Pow4(5) == 1024 && Pow4(6) == 4096
  {
    assert Pow4(2) == 4 * Pow4(1);
    assert Pow4(3) == 4 * Pow4(2);
    assert Pow4(4) == 4 * Pow4(3);
    assert Pow4(5) == 4 * Pow4(4);
    assert Pow4(6) == 4 * Pow4(5);
  }

  /** The waiting time before the n-th failure: the backoffs after the first n - 1. */
  function TotalWait(n: nat): nat {
    if n <= 1 then 0 else TotalWait(n - 1) + ReleaseBackoffMs(n - 1)
  }

  lemma {:induction false} TotalWaitClosed(n: nat)
    requires n >= 10
    ensures TotalWait(n) == 40_950_000 + 86_400_000 * (n - 10)
  {
    ScheduleAgrees(n - 1);
    if n > 10 {
      TotalWaitClosed(n - 1);
    } else {
      FirstTenWaits();
    }
  }

  lemma FirstTenWaits()
    ensures TotalWait(10) == 40_950_000
  {
    FirstPowers();
    assert TotalWait(2) == 0;
    assert TotalWait(3) == 0;
    assert TotalWait(4) == 0;
    assert TotalWait(5) == 30_000 by { ScheduleAgrees(4); }
    assert TotalWait(6) == 150_000 by { ScheduleAgrees(5); }
    assert TotalWait(7) == 630_000 by { ScheduleAgrees(6); }
    assert TotalWait(8) == 2_550_000 by { ScheduleAgrees(7); }
    assert TotalWait(9) == 10_230_000 by { ScheduleAgrees(8); }
    ScheduleAgrees(9);
  }

  // ---------------------------------------------------------------- The two handlers

  /** The stored share is kept in lower case. */
  function Lower(s: string): string {
    seq(|s|, i requires 0 <= i < |s| => if 'A' <= s[i] <= 'Z' then ((s[i] as int) + 32) as char else s[i])
  }

  function AfterStore(shares: Shares, slot: Slot, d: Deposit): (Shares, Reply) {
    if !d.wellFormed then (shares, BadRequest)
    else if !d.signed then (shares, BadSignature)
    else if slot in shares && shares[slot].ts >= d.ts then (shares, Stale)
    else
      var nid := if slot in shares then Some(shares[slot].nid) else d.attested;
      if nid.None? then (shares, NoIdentity)
      else
        var fails := if slot in shares then shares[slot].fails else 0;
        var lockedUntil := if slot in shares then shares[slot].lockedUntil else 0;
        (shares[slot := Record(nid.value, Lower(d.share), d.x, d.ts, fails, lockedUntil)], Stored)
  }

  predicate FacesMatch(faces: seq<Option<string>>, nid: string) {
    forall i :: 0 <= i < |faces| ==> faces[i] == Some(nid)
  }

  /** The attempt gets as far as being judged. */
  predicate Evaluated(shares: Shares, slot: Slot, t: Attempt) {
    t.admitted && slot in shares && shares[slot].lockedUntil <= t.checkedAt
  }

  predicate Passes(r: Record, t: Attempt) {
    t.trajectoryOk && FacesMatch(t.faces, r.nid)
  }

  function AfterRelease(shares: Shares, slot: Slot, t: Attempt): (Shares, Reply) {
    if !t.admitted then (shares, Refused)
    else if slot !in shares then (shares, NoShare)
    else if shares[slot].lockedUntil > t.checkedAt then (shares, Locked)
    else
      var r := shares[slot];
      if Passes(r, t) then (shares[slot := r.(fails := 0, lockedUntil := 0)], Released(r.share, r.x, r.ts))
      else (shares[slot := r.(fails := r.fails + 1, lockedUntil := t.failedAt + ReleaseBackoffMs(r.fails + 1))], Denied)
  }

  // ---------------------------------------------------------------- Runs

  datatype Act =
    | Store(slot: Slot, deposit: Deposit)
    | Release(slot: Slot, attempt: Attempt)
    | Wipe

  function Step(shares: Shares, act: Act): Shares {
    match act
    case Store(slot, d) => AfterStore(shares, slot, d).0
    case Release(slot, t) => AfterRelease(shares, slot, t).0
    case Wipe => map[]
  }

  function Run(acts: seq<Act>): Shares {
    if acts == [] then map[] else Step(Run(acts[..|acts| - 1]), acts[|acts| - 1])
  }

  function FailuresAfter(shares: Shares, act: Act, slot: Slot, past: seq<int>): seq<int> {
    match act
    case Wipe => []
    case Store(_, _) => past
    case Release(s, t) =>
      if s != slot || !Evaluated(shares, slot, t) then past
      else if Passes(shares[slot], t) then []
      else past + [t.failedAt]
  }

  /** When the failures on a slot's record were judged, since the last release or wipe. */
  function Failures(acts: seq<Act>, slot: Slot): seq<int> {
    if acts == [] then []
    else FailuresAfter(Run(acts[..|acts| - 1]), acts[|acts| - 1], slot, Failures(acts[..|acts| - 1], slot))
  }

  /** Within one request the second clock reading is not before the first. */
  predicate ClockRuns(acts: seq<Act>) {
    forall i :: 0 <= i < |acts| && acts[i].Release? ==> acts[i].attempt.checkedAt <= acts[i].attempt.failedAt
  }

  /** Each failure comes no earlier than its predecessor plus the backoff then in force. */
  predicate Spaced(times: seq<int>) {
    forall k :: 0 < k < |times| ==> times[k] >= times[k - 1] + ReleaseBackoffMs(k)
  }

  /** The record's count and lock say what the failures were. */
  predicate Counts(shares: Shares, slot: Slot, times: seq<int>) {
    && (slot !in shares ==> times == [])
    && (slot in shares ==>
          && shares[slot].fails == |times|
          && shares[slot].lockedUntil == if times == [] then 0 else times[|times| - 1] + ReleaseBackoffMs(|times|))
  }

  lemma StepCounts(shares: Shares, act: Act, slot: Slot, past: seq<int>)
    requires Counts(shares, slot, past) && Spaced(past)
    requires act.Release? ==> act.attempt.checkedAt <= act.attempt.failedAt
    ensures Counts(Step(shares, act), slot, FailuresAfter(shares, act, slot, past))
    ensures Spaced(FailuresAfter(shares, act, slot, past))
  {}

  /** A record counts exactly the failures since the last release or wipe, whatever was stored meanwhile, and is
  locked until the last of them plus its backoff. */
  lemma {:induction false} RecordCountsFailures(acts: seq<Act>, slot: Slot)
    requires ClockRuns(acts)
    ensures Counts(Run(acts), slot, Failures(acts, slot)) && Spaced(Failures(acts, slot))
    decreases |acts|
  {
    if acts != [] {
      var early := acts[..|acts| - 1];
      assert forall i :: 0 <= i < |early| ==> early[i] == acts[i];
      RecordCountsFailures(early, slot);
      assert acts[|acts| - 1].Release? ==> acts[|acts| - 1].attempt.checkedAt <= acts[|acts| - 1].attempt.failedAt;
      StepCounts(Run(early), acts[|acts| - 1], slot, Failures(early, slot));
    }
  }

  lemma {:induction false} SpacedTakesTime(times: seq<int>, n: nat)
    requires Spaced(times) && 0 < n <= |times|
    ensures times[n - 1] - times[0] >= TotalWait(n)
    decreases n
  {
    if n > 1 { SpacedTakesTime(times, n - 1); }
  }

  /** With no release and no wipe between them, n judged failures on one share take at least the sum of the
  first n - 1 backoffs: 40 950 000 ms for ten, and a day for each one more. Re-storing the share in between
  shortens nothing. */
  lemma FailuresAreRateBounded(acts: seq<Act>, slot: Slot)
    requires ClockRuns(acts)
    ensures
      var times := Failures(acts, slot);
      && (times != [] ==> times[|times| - 1] - times[0] >= TotalWait(|times|))
      && (|times| >= 10 ==> times[|times| - 1] - times[0] >= 40_950_000 + 86_400_000 * (|times| - 10))
  {
    var times := Failures(acts, slot);
    RecordCountsFailures(acts, slot);
    if times != [] { SpacedTakesTime(times, |times|); }
    if |times| >= 10 { TotalWaitClosed(|times|); }
  }

  // ---------------------------------------------------------------- Who gets which share

  ghost predicate NoWipe(acts: seq<Act>) {
    forall i :: 0 <= i < |acts| ==> !acts[i].Wipe?
  }

  /** The identity a share is bound to never changes, and deposits replace it only with later timestamps. */
  lemma {:induction false} BindingLasts(acts: seq<Act>, more: seq<Act>, slot: Slot)
    requires slot in Run(acts) && NoWipe(more)
    ensures slot in Run(acts + more)
    ensures Run(acts + more)[slot].nid == Run(acts)[slot].nid
    ensures Run(acts + more)[slot].ts >= Run(acts)[slot].ts
    ensures Run(acts + more)[slot].ts == Run(acts)[slot].ts ==>
      Run(acts + more)[slot].share == Run(acts)[slot].share && Run(acts + more)[slot].x == Run(acts)[slot].x
    decreases |more|
  {
    if more == [] {
      assert acts + more == acts;
    } else {
      var early := more[..|more| - 1];
      assert (acts + more)[..|acts + more| - 1] == acts + early;
      BindingLasts(acts, early, slot);
    }
  }

  /** The step at `j` deposits a share into the slot. */
  predicate StoresAt(acts: seq<Act>, slot: Slot, j: int) {
    && 0 <= j < |acts| && acts[j].Store? && acts[j].slot == slot
    && AfterStore(Run(acts[..j]), slot, acts[j].deposit).1 == Stored
  }

  predicate Holds(r: Record, d: Deposit) {
    d.signed && d.wellFormed && r.share == Lower(d.share) && r.x == d.x && r.ts == d.ts
  }

  /** The last deposit into the slot, and the one its record holds. */
  ghost predicate CameFrom(acts: seq<Act>, slot: Slot, i: int) {
    && StoresAt(acts, slot, i) && slot in Run(acts) && Holds(Run(acts)[slot], acts[i].deposit)
    && forall j {:trigger StoresAt(acts, slot, j)} :: i < j ==> !StoresAt(acts, slot, j)
  }

  lemma StepHolds(shares: Shares, act: Act, slot: Slot)
    requires slot in Step(shares, act)
    ensures
      if act.Store? && act.slot == slot && AfterStore(shares, slot, act.deposit).1 == Stored
      then Holds(Step(shares, act)[slot], act.deposit)
      else slot in shares && forall d :: Holds(shares[slot], d) ==> Holds(Step(shares, act)[slot], d)
  {}

  lemma {:induction false} RecordsAreDeposits(acts: seq<Act>, slot: Slot) returns (i: nat)
    requires slot in Run(acts)
    ensures CameFrom(acts, slot, i)
    decreases |acts|
  {
    var n := |acts| - 1;
    StepHolds(Run(acts[..n]), acts[n], slot);
    if StoresAt(acts, slot, n) {
      i := n;
    } else {
      i := RecordsAreDeposits(acts[..n], slot);
      forall j ensures j < n ==> StoresAt(acts, slot, j) == StoresAt(acts[..n], slot, j) {
        if 0 <= j < n { assert acts[..n][j] == acts[j] && acts[..n][..j] == acts[..j]; }
      }
    }
  }

  /** A share leaves the relay only for a proof all of whose faces are the bound human's, outside a lock, and it
  is the account's own last accepted deposit. */
  lemma ReleaseIsGated(acts: seq<Act>, slot: Slot, t: Attempt) returns (i: nat)
    requires AfterRelease(Run(acts), slot, t).1.Released?
    ensures slot in Run(acts) && t.admitted && t.trajectoryOk && FacesMatch(t.faces, Run(acts)[slot].nid)
    ensures Run(acts)[slot].lockedUntil <= t.checkedAt
    ensures CameFrom(acts, slot, i)
    ensures AfterRelease(Run(acts), slot, t).1.share == Lower(acts[i].deposit.share)
  {
    i := RecordsAreDeposits(acts, slot);
  }

  // ---------------------------------------------------------------- The store as it runs

  class RecoveryShareStore {
    var records: Shares

    constructor ()
      ensures records == map[]
    {
      records := map[];
    }

    method StoreShare(slot: Slot, d: Deposit) returns (reply: Reply)
      modifies this
      ensures (records, reply) == AfterStore(old(records), slot, d)
    {
      if !d.wellFormed { return BadRequest; }
      if !d.signed { return BadSignature; }
      var fails, lockedUntil := 0, 0;
      var nid := d.attested;
      if slot in records {
        if records[slot].ts >= d.ts { return Stale; }
        nid := Some(records[slot].nid);
        fails, lockedUntil := records[slot].fails, records[slot].lockedUntil;
      }
      if nid.None? { return NoIdentity; }
      records := records[slot := Record(nid.value, Lower(d.share), d.x, d.ts, fails, lockedUntil)];
      reply := Stored;
    }

    method ReleaseShare(slot: Slot, t: Attempt) returns (reply: Reply)
      modifies this
      ensures (records, reply) == AfterRelease(old(records), slot, t)
    {
      if !t.admitted { return Refused; }
      if slot !in records { return NoShare; }
      var record := records[slot];
      if record.lockedUntil > t.checkedAt { return Locked; }
      if !t.trajectoryOk {
        reply := Fail(slot, t.failedAt);
        return;
      }
      for i := 0 to |t.faces|
        invariant records == old(records)
        invariant forall j :: 0 <= j < i ==> t.faces[j] == Some(record.nid)
      {
        if t.faces[i] != Some(record.nid) {
          reply := Fail(slot, t.failedAt);
          return;
        }
      }
      records := records[slot := record.(fails := 0, lockedUntil := 0)];
      reply := Released(record.share, record.x, record.ts);
    }

    /** The share store's part of `performNetworkWipe`. */
    method WipeShares()
      modifies this
      ensures records == Step(old(records), Wipe)
    {
      records := map[];
    }

    method Fail(slot: Slot, now: int) returns (reply: Reply)
      requires slot in records
      modifies this
      ensures
        var r := old(records)[slot];
        records == old(records)[slot := r.(fails := r.fails + 1, lockedUntil := now + ReleaseBackoffMs(r.fails + 1))]
      ensures reply == Denied
    {
      var record := records[slot];
      record := record.(fails := record.fails + 1);
      record := record.(lockedUntil := now + ReleaseBackoffMs(record.fails));
      records := records[slot := record];
      reply := Denied;
    }
  }

  // ---------------------------------------------------------------- The client's own counter

  datatype PinAttempts = PinAttempts(failedAttempts: nat, lockedUntil: int)

  /** The client's attempt rows, one per account. */
  class PinAttemptStore {
    var rows: map<string, PinAttempts>

    constructor ()
      ensures rows == map[]
    {
      rows := map[];
    }

    function State(account: string): PinAttempts
      reads this
    {
      if account in rows then rows[account] else PinAttempts(0, 0)
    }

    /** `recordPinFailure`: the lock is exactly the one the relay would set for the same count. */
    method RecordPinFailure(account: string, now: int) returns (next: PinAttempts)
      modifies this
      ensures rows == old(rows)[account := next]
      ensures forall other :: other != account ==> State(other) == old(State(other))
      ensures next.failedAttempts == old(State(account)).failedAttempts + 1
      ensures next.lockedUntil == now + ReleaseBackoffMs(next.failedAttempts)
    {
      var state := State(account);
      next := PinAttempts(state.failedAttempts + 1, now + GetBackoffMs(state.failedAttempts + 1));
      ScheduleAgrees(state.failedAttempts + 1);
      rows := rows[account := next];
    }

    /** `recordPinSuccess`: the account is unlocked with all its free attempts back, and no other account moves. */
    method RecordPinSuccess(account: string)
      modifies this
      ensures State(account) == PinAttempts(0, 0)
      ensures forall other :: other != account ==> State(other) == old(State(other))
    {
      rows := rows[account := PinAttempts(0, 0)];
    }
  }
}
