/** Where value comes from and goes to: balances and offers together are what openings minted, settled storage
rewards and receives whose send is not held, less sends addressed to nobody or voided by a freeze. A delivered
ledger can exceed that, exactly when some held send is received twice. */
module Conservation {
  import opened Prelude
  import opened Blocks
  import opened Ledgers
  import opened ChainIndex
  import opened Indexing
  import opened Freezing
  import opened ClaimOnce
  import opened FiniteSums

  /** Head balance of every opened account. */
  ghost function BalancesOf(l: Ledger): map<AccountId, int> {
    BalancesIn(l.held)
  }

  ghost function BalancesIn(held: map<AccountId, Held>): map<AccountId, int> {
    map pub | pub in held && held[pub].chain != [] :: LastBalance(held[pub].chain)
  }

  function LastBalance(chain: seq<Block>): int
    requires chain != []
  {
    chain[|chain| - 1].content.balance
  }

  /** Amount of every send on offer. */
  ghost function OnOffer(l: Ledger): map<Hash, int> {
    map h | h in l.payments.unclaimed :: l.payments.unclaimed[h].amount
  }

  function ValueOf(amount: Option<int>): int {
    if amount.Some? then amount.value else 0
  }

  /** What an `open` block above the genesis adds to the balance below it. */
  function OpenJump(c: Content): int {
    if c.index > 0 && c.previousHash.ContentHash? then c.balance - c.previousHash.content.balance else 0
  }

  /** What a block credits to its own account. */
  function Credit(h: Hash): int {
    if h.GenesisPrev? then 0
    else
      match h.content.body
      case Open(_) => OpenJump(h.content)
      case Send(_, amount) => -ValueOf(amount)
      case Receive(_, amount) => ValueOf(amount)
      case StorageSettle(amount) => ValueOf(amount)
      case _ => 0
  }

  ghost function Credits(leaves: set<Hash>): map<Hash, int> {
    map h | h in leaves :: Credit(h)
  }

  ghost function Total(leaves: set<Hash>): int {
    Sum(Credits(leaves))
  }

  predicate IsReceive(h: Hash) { h.ContentHash? && h.content.body.Receive? }
  predicate IsSend(h: Hash) { h.ContentHash? && h.content.body.Send? }
  predicate IsSettle(h: Hash) { h.ContentHash? && h.content.body.StorageSettle? }
  predicate IsOpen(h: Hash) { h.ContentHash? && h.content.body.Open? }

  ghost function Openings(leaves: set<Hash>): set<Hash> {
    set h | h in leaves && IsOpen(h)
  }

  ghost function Settled(leaves: set<Hash>): set<Hash> {
    set h | h in leaves && IsSettle(h)
  }

  /** Receives whose source is not held. */
  ghost function Orphans(leaves: set<Hash>): set<Hash> {
    set h | h in leaves && IsReceive(h) && !(Claims(h) && h.content.body.source.value in leaves)
  }

  /** Sends that name no recipient: accepted by `addBlock`, and offered to nobody. */
  ghost function Unaddressed(leaves: set<Hash>): set<Hash> {
    set h | h in leaves && IsSend(h) && h.content.body.recipient.None?
  }

  /** Sends nobody claimed before their account was frozen. */
  ghost function Voided(leaves: set<Hash>, frozen: set<AccountId>): set<Hash> {
    set h | h in leaves && Offers(h) && h !in ClaimedOf(leaves) && h.content.accountId in frozen
  }

  /** Receives whose source is held. */
  ghost function HeldReceives(leaves: set<Hash>): set<Hash> {
    set h | h in leaves && Claims(h) && h.content.body.source.value in leaves
  }

  /** Addressed sends that some receive claims. */
  ghost function ClaimedSends(leaves: set<Hash>): set<Hash> {
    set h | h in leaves && Offers(h) && h in ClaimedOf(leaves)
  }

  ghost predicate SameSource(g: Hash, h: Hash) {
    Claims(g) && Claims(h) && g.content.body.source == h.content.body.source
  }

  /** No two receives claim one held send. */
  ghost predicate ReceivedOnce(leaves: set<Hash>) {
    forall g, h :: g in HeldReceives(leaves) && h in HeldReceives(leaves) && SameSource(g, h) ==> g == h
  }

  /** The receive names a send of its amount to its account. */
  predicate MatchesSource(h: Hash)
    requires Claims(h)
  {
    var s := h.content.body.source.value;
    && s.ContentHash? && s.content.body.Send?
    && s.content.body.recipient == Some(h.content.accountId) && s.content.body.amount == h.content.body.amount
  }

  /** Receives whose source is held match it. */
  ghost predicate ClaimsMatch(leaves: set<Hash>) {
    forall h :: h in HeldReceives(leaves) ==> MatchesSource(h)
  }

  // ---------------------------------------------------------------- The chain law

  ghost predicate ChainLaw(l: Ledger) {
    Sum(BalancesOf(l)) == MINT * |BalancesOf(l)| + Total(Leaves(l))
  }

  /** The balance rule: every accepted block above the genesis moves its account's balance by exactly its own
  credit. For an `open` block, which `addBlock` has no rule for above index 0, that is whatever it jumps by. */
  lemma AcceptedMovesByCredit(l: Ledger, b: Block, ok: bool)
    requires ChainsOk(l) && Judge(l, b, ok) == Append && b.content.index != 0
    ensures Head(l, b.content.accountId).Some?
    ensures b.content.balance == Head(l, b.content.accountId).value.content.balance + Credit(b.hash)
  {
    var h := l.held[b.content.accountId];
    assert ChainOk(b.content.accountId, h);
    assert PlaceOk(b.content.accountId, h, |h.chain| - 1);
  }

  /** An `open` block linked above the genesis is accepted whatever balance it states. */
  lemma LateOpenHasNoBalanceRule(l: Ledger, pub: AccountId, timestamp: int, balance: int, commitment: string)
    requires ChainsOk(l) && Head(l, pub).Some? && pub !in l.equivocated
    ensures Judge(l, NextBlock(l, pub, pub, timestamp, balance, Open(commitment)), false) == Append
  {
    assert ChainOk(pub, l.held[pub]);
    assert PlaceOk(pub, l.held[pub], |l.held[pub].chain| - 1);
  }

  lemma GenesisMints(l: Ledger, b: Block, ok: bool)
    requires ChainsOk(l) && Judge(l, b, ok) == Append && b.content.index == 0
    ensures b.content.balance == MINT && b.content.body.Open? && Head(l, b.content.accountId).None?
  {}

  lemma CreatedMovesByCredit(l: Ledger, s: Step)
    requires s.Local() && Created(l, s).Some?
    ensures
      var b := Created(l, s).value;
      if s.OpenAccount? then b.content.balance == MINT && b.content.body.Open? && Head(l, s.pub).None?
      else Head(l, s.pub).Some? && b.content.balance == Head(l, s.pub).value.content.balance + Credit(b.hash)
  {}

  lemma TotalAdds(leaves: set<Hash>, h: Hash)
    requires h !in leaves
    ensures Total(leaves + {h}) == Total(leaves) + Credit(h)
  {
    assert Credits(leaves + {h}) == Credits(leaves)[h := Credit(h)];
    SumSet(Credits(leaves), h, Credit(h));
  }

  lemma SetBalance(held: map<AccountId, Held>, pub: AccountId, h: Held)
    requires h.chain != []
    ensures BalancesIn(held[pub := h]) == BalancesIn(held)[pub := LastBalance(h.chain)]
  {}

  lemma BalancesFollow(l: Ledger, b: Block, r: Ledger)
    requires r.held == Extend(l, b).held
    ensures BalancesOf(r) == BalancesOf(l)[b.content.accountId := b.content.balance]
    ensures |BalancesOf(r)| == |BalancesOf(l)| + if Head(l, b.content.accountId).None? then 1 else 0
  {
    var pub, m := b.content.accountId, BalancesOf(l);
    SetBalance(l.held, pub, r.held[pub]);
    assert m[pub := b.content.balance].Keys == m.Keys + {pub};
    assert |BalancesOf(r)| == |BalancesOf(r).Keys| && |m| == |m.Keys|;
  }

  /** The balance an appended block must carry. */
  ghost predicate Credited(l: Ledger, b: Block) {
    var head := Head(l, b.content.accountId);
    b.content.balance == if head.None? then MINT else head.value.content.balance + Credit(b.hash)
  }

  lemma LinkKeepsLaw(l: Ledger, b: Block, r: Ledger)
    requires ChainsOk(l) && ChainLaw(l) && NextLink(l, b) && r.held == Extend(l, b).held
    requires Credited(l, b) && (Head(l, b.content.accountId).None? ==> Credit(b.hash) == 0)
    ensures ChainLaw(r)
  {
    ExtendKeepsChains(l, b);
    SameHeld(Extend(l, b), r);
    BalancesFollow(l, b, r);
    SumSet(BalancesOf(l), b.content.accountId, b.content.balance);
    TotalAdds(Leaves(l), b.hash);
  }

  lemma LinkIsCredited(l: Ledger, s: Step)
    requires ChainsOk(l) && (s.Deliver? || s.Local()) && MoveOf(l, s).Links?
    ensures
      var b := MoveOf(l, s).block;
      Credited(l, b) && (Head(l, b.content.accountId).None? ==> Credit(b.hash) == 0)
  {
    var b := MoveOf(l, s).block;
    LinkIsNext(l, s);
    if s.Local() {
      CreatedIsNextLink(l, s);
      CreatedMovesByCredit(l, s);
    } else if b.content.index == 0 {
      GenesisMints(l, b, s.storageOk);
    } else {
      AcceptedMovesByCredit(l, b, s.storageOk);
    }
  }

  lemma LawReads(l: Ledger, r: Ledger)
    requires ChainLaw(l) && Leaves(r) == Leaves(l) && forall pub :: ChainOf(r, pub) == ChainOf(l, pub)
    ensures ChainLaw(r)
  {
    forall pub ensures pub in BalancesOf(l) <==> pub in BalancesOf(r) {
      assert ChainOf(r, pub) == ChainOf(l, pub);
    }
    forall pub | pub in BalancesOf(l) ensures BalancesOf(l)[pub] == BalancesOf(r)[pub] {
      assert ChainOf(r, pub) == ChainOf(l, pub);
    }
    assert BalancesOf(r) == BalancesOf(l);
  }

  lemma StepKeepsLaw(l: Ledger, s: Step)
    requires ChainsOk(l) && ChainLaw(l) && (s.Deliver? || s.Local())
    ensures ChainLaw(Next(l, s))
  {
    NextMoves(l, s);
    match MoveOf(l, s)
    case Links(b) =>
      LinkIsNext(l, s);
      LinkIsCredited(l, s);
      LinkKeepsLaw(l, b, Next(l, s));
    case SeatsEmpty(pub) =>
      EmptySeatAddsNoLeaf(l, pub);
      SameHeld(l.(held := l.held[pub := Held([], [])]), Next(l, s));
      LawReads(l, Next(l, s));
    case _ =>
      SameHeld(l, Next(l, s));
      LawReads(l, Next(l, s));
  }

  lemma {:induction false} RunKeepsLaw(steps: seq<Step>)
    requires forall s :: s in steps ==> s.Deliver? || s.Local()
    ensures ChainsOk(Run(EMPTY_LEDGER, steps)) && ChainLaw(Run(EMPTY_LEDGER, steps))
  {
    if steps == [] {
      EmptyIsIndexed();
      assert BalancesOf(EMPTY_LEDGER) == map[] && Credits({}) == map[];
    } else {
      var k := |steps| - 1;
      assert steps[k] in steps && forall s :: s in steps[..k] ==> s in steps;
      RunKeepsLaw(steps[..k]);
      ChainsOnlyGrow(Run(EMPTY_LEDGER, steps[..k]), steps[k]);
      StepKeepsLaw(Run(EMPTY_LEDGER, steps[..k]), steps[k]);
    }
  }

  // ---------------------------------------------------------------- Pairing sends with receives

  lemma TotalSplits(a: set<Hash>, b: set<Hash>)
    requires a !! b
    ensures Total(a + b) == Total(a) + Total(b)
  {
    assert Credits(a + b) == Credits(a) + Credits(b);
    SumUnion(Credits(a), Credits(b));
  }

  lemma OfferedCancel(leaves: set<Hash>, frozen: set<AccountId>)
    ensures
      var offered := OfferedOf(leaves, frozen);
      Sum(map h | h in offered :: offered[h].amount) + Total(offered.Keys) == 0
  {
    var offered := OfferedOf(leaves, frozen);
    var m, n := map h | h in offered :: offered[h].amount, Credits(offered.Keys);
    var pair := map h | h in offered :: h;
    assert pair.Values == n.Keys by {
      forall x ensures x in pair.Values <==> x in n.Keys {
        if x in n.Keys { assert pair[x] == x; }
      }
    }
    SumCancels(m, n, pair);
  }

  ghost function SendsIn(leaves: set<Hash>): set<Hash> {
    set h | h in leaves && IsSend(h)
  }

  ghost function ReceivesIn(leaves: set<Hash>): set<Hash> {
    set h | h in leaves && IsReceive(h)
  }

  /** Held sends carry a positive amount. */
  ghost predicate SendsArePositive(leaves: set<Hash>) {
    forall h :: h in leaves && IsSend(h) ==> h.content.body.amount.Some? && h.content.body.amount.value > 0
  }

  /** A held send is on offer, voided, claimed, or addressed to nobody. */
  lemma SendsTotal(leaves: set<Hash>, frozen: set<AccountId>)
    requires SendsArePositive(leaves)
    ensures Total(SendsIn(leaves)) == Total(OfferedOf(leaves, frozen).Keys) + Total(Voided(leaves, frozen))
      + Total(ClaimedSends(leaves)) + Total(Unaddressed(leaves))
  {
    var offered, voided, claimed := OfferedOf(leaves, frozen).Keys, Voided(leaves, frozen), ClaimedSends(leaves);
    assert SendsIn(leaves) == offered + voided + claimed + Unaddressed(leaves);
    TotalSplits(offered, voided);
    TotalSplits(offered + voided, claimed);
    TotalSplits(offered + voided + claimed, Unaddressed(leaves));
  }

  lemma ReceivesTotal(leaves: set<Hash>)
    ensures Total(ReceivesIn(leaves)) == Total(HeldReceives(leaves)) + Total(Orphans(leaves))
  {
    assert ReceivesIn(leaves) == HeldReceives(leaves) + Orphans(leaves);
    TotalSplits(HeldReceives(leaves), Orphans(leaves));
  }

  /** Only sends, receives, settlements and openings carry a credit. */
  lemma KindsTotal(leaves: set<Hash>)
    ensures Total(leaves) ==
      Total(SendsIn(leaves)) + Total(ReceivesIn(leaves)) + Total(Settled(leaves)) + Total(Openings(leaves))
  {
    var s, r, t, o := SendsIn(leaves), ReceivesIn(leaves), Settled(leaves), Openings(leaves);
    var rest := leaves - s - r - t - o;
    SumZero(Credits(rest));
    TotalSplits(s, r);
    TotalSplits(s + r, t);
    TotalSplits(s + r + t, o);
    TotalSplits(s + r + t + o, rest);
    assert leaves == s + r + t + o + rest;
  }

  // ---------------------------------------------------------------- What receives exceed their sends by

  /** What the receives of held sources credit beyond what the claimed sends debited. */
  ghost function Surplus(leaves: set<Hash>): int {
    Total(HeldReceives(leaves)) + Total(ClaimedSends(leaves))
  }

  ghost function SourceOf(leaves: set<Hash>): map<Hash, Hash> {
    map h | h in HeldReceives(leaves) :: h.content.body.source.value
  }

  /** With receives that match their sends the surplus is never negative, and none exactly when no held send is
  received twice. */
  lemma NoSurplusIff(leaves: set<Hash>)
    requires ClaimsMatch(leaves) && SendsArePositive(leaves)
    ensures Surplus(leaves) >= 0
    ensures Surplus(leaves) == 0 <==> ReceivedOnce(leaves)
  {
    SourcesAreClaimedSends(leaves);
    SumCovers(Credits(HeldReceives(leaves)), Credits(ClaimedSends(leaves)), SourceOf(leaves));
    OnceIsOneToOne(leaves);
  }

  lemma OnceIsOneToOne(leaves: set<Hash>)
    ensures OneToOne(SourceOf(leaves)) <==> ReceivedOnce(leaves)
  {
    var pair := SourceOf(leaves);
    if OneToOne(pair) {
      forall g, h | g in HeldReceives(leaves) && h in HeldReceives(leaves) && SameSource(g, h) ensures g == h {
        assert pair[g] == pair[h];
      }
    }
    if ReceivedOnce(leaves) {
      forall g, h | g in pair && h in pair && pair[g] == pair[h] ensures g == h {
        assert SameSource(g, h);
      }
    }
  }

  lemma SourcesAreClaimedSends(leaves: set<Hash>)
    requires ClaimsMatch(leaves) && SendsArePositive(leaves)
    ensures SourceOf(leaves).Values == ClaimedSends(leaves)
    ensures forall h :: h in HeldReceives(leaves) ==> Credit(h) > 0 && Credit(SourceOf(leaves)[h]) == -Credit(h)
  {
    var pair := SourceOf(leaves);
    forall h | h in HeldReceives(leaves)
      ensures Credit(h) > 0 && Credit(pair[h]) == -Credit(h) && pair[h] in ClaimedSends(leaves)
    {
      assert IsSend(pair[h]);
    }
    forall x | x in ClaimedSends(leaves) ensures x in pair.Values {
      var r :| r in leaves && Claims(r) && r.content.body.source.value == x;
      assert r in HeldReceives(leaves) && pair[r] == x;
    }
  }

  // ---------------------------------------------------------------- Amounts of held sends

  lemma LinkLeaves(l: Ledger, s: Step)
    requires ChainsOk(l)
    ensures Leaves(Next(l, s)) == Leaves(l) + if MoveOf(l, s).Links? then {MoveOf(l, s).block.hash} else {}
  {
    NextMoves(l, s);
    match MoveOf(l, s)
    case Links(b) =>
      LinkIsNext(l, s);
      ExtendKeepsChains(l, b);
      SameHeld(Extend(l, b), Next(l, s));
    case SeatsEmpty(pub) =>
      EmptySeatAddsNoLeaf(l, pub);
      SameHeld(l.(held := l.held[pub := Held([], [])]), Next(l, s));
    case _ => SameHeld(l, Next(l, s));
  }

  lemma StepKeepsAmounts(l: Ledger, s: Step)
    requires ChainsOk(l) && SendsArePositive(Leaves(l))
    ensures SendsArePositive(Leaves(Next(l, s)))
  {
    LinkLeaves(l, s);
    if MoveOf(l, s).Links? {
      LinkIsNext(l, s);
      if MoveOf(l, s).block.content.body.Send? { LinkedSendIsPositive(l, s); }
    }
  }

  lemma LinkedSendIsPositive(l: Ledger, s: Step)
    requires ChainsOk(l) && MoveOf(l, s).Links? && MoveOf(l, s).block.content.body.Send?
    ensures MoveOf(l, s).block.content.body.amount.Some? && MoveOf(l, s).block.content.body.amount.value > 0
  {}

  lemma {:induction false} RunKeepsAmounts(steps: seq<Step>)
    ensures ChainsOk(Run(EMPTY_LEDGER, steps)) && SendsArePositive(Leaves(Run(EMPTY_LEDGER, steps)))
  {
    if steps == [] {
      EmptyIsIndexed();
    } else {
      var k := |steps| - 1;
      RunKeepsAmounts(steps[..k]);
      ChainsOnlyGrow(Run(EMPTY_LEDGER, steps[..k]), steps[k]);
      StepKeepsAmounts(Run(EMPTY_LEDGER, steps[..k]), steps[k]);
    }
  }

  // ---------------------------------------------------------------- Offers along a run

  /** A created send has a hash nobody claimed yet, and comes from an account that is not frozen. */
  ghost predicate FairSend(l: Ledger, s: Step) {
    FreshSend(l, s) && (s.CreateSend? && Created(l, s).Some? ==> s.pub !in l.equivocated)
  }

  /** Deliveries and local calls, all created sends fair. */
  ghost predicate FairRun(steps: seq<Step>) {
    steps != [] ==>
      var k := |steps| - 1;
      FairRun(steps[..k]) && FairStep(Run(EMPTY_LEDGER, steps[..k]), steps[k])
  }

  ghost predicate FairStep(l: Ledger, s: Step) {
    s.Deliver? || (s.Local() && FairSend(l, s))
  }

  lemma PaymentsRead(l: Ledger, r: Ledger)
    requires PaymentsIndexed(l) && Leaves(r) == Leaves(l)
    requires r.payments == l.payments && r.equivocated.Keys == l.equivocated.Keys
    ensures PaymentsIndexed(r)
  {}

  /** A local call keeps the payments a function of the chains exactly when the send it creates, if any, is fair. */
  lemma LocalKeepsPaymentsIff(l: Ledger, s: Step)
    requires ChainsOk(l) && PaymentsIndexed(l) && s.Local()
    ensures PaymentsIndexed(Next(l, s)) <==> FairSend(l, s)
  {
    if Created(l, s).Some? {
      var b := Created(l, s).value;
      CreatedIsNextLink(l, s);
      CreatedKind(l, s);
      AppliedLeaves(l, b);
      SameHeld(Applied(l, b), Seat(l, b));
      if FairSend(l, s) {
        AppliedPayments(l, b);
      } else {
        UnfairSendIsOffered(l, b);
      }
    }
  }

  lemma UnfairSendIsOffered(l: Ledger, b: Block)
    requires PaymentsIndexed(l) && b.hash == ContentHash(b.content) && Leaves(l) <= Leaves(Seat(l, b))
    requires b.content.body.Send? && b.content.body.recipient.Some? && b.content.body.amount.Some?
    requires b.hash in l.payments.claimed || b.content.accountId in l.equivocated
    ensures !PaymentsIndexed(Seat(l, b))
  {
    var r := Seat(l, b);
    assert b.hash in r.payments.unclaimed;
    assert ClaimedOf(Leaves(l)) <= ClaimedOf(Leaves(r));
    assert b.hash !in OfferedOf(Leaves(r), r.equivocated.Keys);
  }

  lemma DeliveryKeepsPayments(l: Ledger, b: Block, ok: bool)
    requires ChainsOk(l) && PaymentsIndexed(l)
    ensures PaymentsIndexed(AddBlock(l, b, ok))
  {
    DeliveryShape(l, b, ok);
    var r := AddBlock(l, b, ok);
    match Judge(l, b, ok)
    case Append =>
      AppendIsNextLink(l, b, ok);
      AppliedPayments(l, b);
    case Fork(rival, _) =>
      FreezePayments(l, Evidence(rival, b));
      SameHeld(Flag(l, rival, b), r);
      PaymentsRead(Flag(l, rival, b), r);
    case SeatEmptyChain =>
      EmptySeatAddsNoLeaf(l, b.content.accountId);
      PaymentsRead(l, r);
    case _ =>
  }

  lemma {:induction false} FairRunKeepsPayments(steps: seq<Step>)
    requires FairRun(steps)
    ensures ChainsOk(Run(EMPTY_LEDGER, steps)) && PaymentsIndexed(Run(EMPTY_LEDGER, steps))
    ensures forall s :: s in steps ==> s.Deliver? || s.Local()
  {
    EmptyIsIndexed();
    RunOnlyGrows(EMPTY_LEDGER, steps);
    if steps != [] {
      var k := |steps| - 1;
      var l := Run(EMPTY_LEDGER, steps[..k]);
      assert steps == steps[..k] + [steps[k]];
      FairRunKeepsPayments(steps[..k]);
      if steps[k].Local() {
        LocalKeepsPaymentsIff(l, steps[k]);
      } else {
        DeliveryKeepsPayments(l, steps[k].block, steps[k].storageOk);
      }
    }
  }

  // ---------------------------------------------------------------- When receives match their sends

  /** Every held block is retained, and every retained block under its own hash. */
  ghost predicate Retained(l: Ledger) {
    && Leaves(l) <= l.allBlocks.Keys
    && forall h :: h in l.allBlocks ==> h == ContentHash(l.allBlocks[h].content)
  }

  /** The step appends a block that an earlier receive names as its source without matching it. */
  ghost predicate ArrivesMismatched(l: Ledger, s: Step) {
    MoveOf(l, s).Links? && exists r :: r in Leaves(l) && Misnames(r, MoveOf(l, s).block.hash)
  }

  ghost predicate Misnames(r: Hash, h: Hash) {
    Claims(r) && r.content.body.source.value == h && !MatchesSource(r)
  }

  lemma StepKeepsRetained(l: Ledger, s: Step)
    requires ChainsOk(l) && Retained(l) && (s.Deliver? || s.Local())
    ensures Retained(Next(l, s))
  {
    LinkLeaves(l, s);
    if s.Local() {
      if Created(l, s).Some? { CreatedIsNextLink(l, s); }
    } else {
      DeliveryRetains(l, s.block, s.storageOk);
    }
  }

  lemma DeliveryRetains(l: Ledger, b: Block, ok: bool)
    ensures AddBlock(l, b, ok).allBlocks == l.allBlocks
      || (b.hash == ContentHash(b.content) && AddBlock(l, b, ok).allBlocks == l.allBlocks[b.hash := b])
    ensures Judge(l, b, ok) == Append ==> b.hash in AddBlock(l, b, ok).allBlocks
  {
    DeliveryShape(l, b, ok);
  }

  /** A receive that is appended after its source matches it. */
  lemma LinkMatchesSource(l: Ledger, s: Step)
    requires ChainsOk(l) && PaymentsIndexed(l) && Retained(l) && (s.Deliver? || s.Local())
    requires MoveOf(l, s).Links? && Claims(MoveOf(l, s).block.hash)
    requires MoveOf(l, s).block.hash.content.body.source.value in Leaves(l)
    ensures MatchesSource(MoveOf(l, s).block.hash)
  {
    var b := MoveOf(l, s).block;
    LinkIsNext(l, s);
    if s.Local() { assert l.payments.unclaimed == OfferedOf(Leaves(l), l.equivocated.Keys); }
  }

  lemma StepStaysMatchedIff(l: Ledger, s: Step)
    requires ChainsOk(l) && PaymentsIndexed(l) && Retained(l) && (s.Deliver? || s.Local()) && ClaimsMatch(Leaves(l))
    ensures ClaimsMatch(Leaves(Next(l, s))) <==> !ArrivesMismatched(l, s)
  {
    LinkLeaves(l, s);
    if MoveOf(l, s).Links? {
      var h := MoveOf(l, s).block.hash;
      if Claims(h) && h.content.body.source.value in Leaves(l) { LinkMatchesSource(l, s); }
      AddedStaysMatchedIff(Leaves(l), h);
    }
  }

  lemma AddedStaysMatchedIff(leaves: set<Hash>, h: Hash)
    requires ClaimsMatch(leaves) && (Claims(h) && h.content.body.source.value in leaves ==> MatchesSource(h))
    ensures ClaimsMatch(leaves + {h}) <==> !exists r :: r in leaves && Misnames(r, h)
  {
    var more := leaves + {h};
    if r :| r in leaves && Misnames(r, h) { assert r in HeldReceives(more); }
    if !ClaimsMatch(more) {
      var r :| r in HeldReceives(more) && !MatchesSource(r);
      assert r in leaves && Misnames(r, h);
    }
  }

  ghost predicate NeverMismatched(steps: seq<Step>) {
    steps != [] ==>
      var k := |steps| - 1;
      NeverMismatched(steps[..k]) && !ArrivesMismatched(Run(EMPTY_LEDGER, steps[..k]), steps[k])
  }

  /** After a fair run all held receives match their sends exactly when no block arrived that an earlier receive
  had misnamed: a receive is compared with its source when it arrives second, and never when it arrives first. */
  lemma {:induction false} ClaimsMatchIff(steps: seq<Step>)
    requires FairRun(steps)
    ensures ClaimsMatch(Leaves(Run(EMPTY_LEDGER, steps))) <==> NeverMismatched(steps)
    ensures Retained(Run(EMPTY_LEDGER, steps))
  {
    EmptyIsIndexed();
    if steps != [] {
      var k := |steps| - 1;
      var l := Run(EMPTY_LEDGER, steps[..k]);
      ClaimsMatchIff(steps[..k]);
      FairRunKeepsPayments(steps[..k]);
      StepKeepsRetained(l, steps[k]);
      MismatchPersists(l, steps[k]);
      if ClaimsMatch(Leaves(l)) { StepStaysMatchedIff(l, steps[k]); }
    }
  }

  lemma MismatchPersists(l: Ledger, s: Step)
    requires ChainsOk(l)
    ensures ClaimsMatch(Leaves(Next(l, s))) ==> ClaimsMatch(Leaves(l))
  {
    LinkLeaves(l, s);
    assert HeldReceives(Leaves(l)) <= HeldReceives(Leaves(Next(l, s)));
  }

  // ---------------------------------------------------------------- The law

  /** Head balances and sends on offer. */
  ghost function Value(l: Ledger): int {
    Sum(BalancesOf(l)) + Sum(OnOffer(l))
  }

  /** What the held blocks account for: the openings' mint and jumps, settled amounts, receives whose source is not
  held, and the (negative) credits of sends voided by a freeze or addressed to nobody. */
  ghost function Accounted(l: Ledger): int {
    MINT * |BalancesOf(l)| + Total(Openings(Leaves(l))) + Total(Settled(Leaves(l))) + Total(Orphans(Leaves(l)))
    + Total(Voided(Leaves(l), l.equivocated.Keys)) + Total(Unaddressed(Leaves(l)))
  }

  /** After any run of deliveries, whatever they are, and of local calls with fair sends: the value held and offered
  is what the blocks account for, plus the surplus of receives over the sends they claim. */
  lemma ValueLaw(steps: seq<Step>)
    requires FairRun(steps)
    ensures
      var l := Run(EMPTY_LEDGER, steps);
      Value(l) == Accounted(l) + Surplus(Leaves(l)) && SendsArePositive(Leaves(l))
  {
    FairRunKeepsPayments(steps);
    RunKeepsLaw(steps);
    RunKeepsAmounts(steps);
    LawBalances(Run(EMPTY_LEDGER, steps));
  }

  /** As long as no send arrives after a receive that misnames it, such a run never loses value, and conserves it
  exactly when no two receives share a held source. */
  lemma ValueIsConservedIff(steps: seq<Step>)
    requires FairRun(steps) && NeverMismatched(steps)
    ensures
      var l := Run(EMPTY_LEDGER, steps);
      Value(l) >= Accounted(l) && (Value(l) == Accounted(l) <==> ReceivedOnce(Leaves(l)))
  {
    ValueLaw(steps);
    ClaimsMatchIff(steps);
    NoSurplusIff(Leaves(Run(EMPTY_LEDGER, steps)));
  }

  lemma LawBalances(l: Ledger)
    requires PaymentsIndexed(l) && ChainLaw(l) && SendsArePositive(Leaves(l))
    ensures Value(l) == Accounted(l) + Surplus(Leaves(l))
  {
    KindsTotal(Leaves(l));
    SendsTotal(Leaves(l), l.equivocated.Keys);
    ReceivesTotal(Leaves(l));
    OfferedCancel(Leaves(l), l.equivocated.Keys);
    OffersAre(l);
  }

  lemma OffersAre(l: Ledger)
    requires PaymentsIndexed(l)
    ensures
      var offered := OfferedOf(Leaves(l), l.equivocated.Keys);
      OnOffer(l) == map h | h in offered :: offered[h].amount
  {
    assert l.payments.unclaimed == OfferedOf(Leaves(l), l.equivocated.Keys);
  }
}
