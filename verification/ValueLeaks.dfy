/** Where delivered blocks create or lose value: `addBlock` compares a receive with its source only when the source
arrived first, and asks neither whether the source was received before nor whether a send has a recipient. Each
acceptance is exact, and each leak has a run that reaches it.
 */
module ValueLeaks {
  import opened Prelude
  import opened Blocks
  import opened Ledgers
  import opened ChainIndex
  import opened Indexing
  import opened Freezing
  import opened ClaimOnce
  import opened FiniteSums
  import opened Conservation

  function ReceiveOn(l: Ledger, pub: AccountId, h: Hash, amount: int, timestamp: int): Block
    requires Head(l, pub).Some?
  {
    NextBlock(l, pub, pub, timestamp, Head(l, pub).value.content.balance + amount, Receive(Some(h), Some(amount)))
  }

  /** A delivered receive is accepted exactly when its source is not held or pays its account that amount, claimed
  before or not. */
  lemma ReceiveIsAcceptedIff(l: Ledger, pub: AccountId, h: Hash, amount: int, timestamp: int, ok: bool)
    requires ChainsOk(l) && Head(l, pub).Some? && pub !in l.equivocated && amount > 0
    ensures Judge(l, ReceiveOn(l, pub, h, amount, timestamp), ok) == Append <==>
      (h in l.allBlocks ==> Pays(l.allBlocks[h], pub, Some(amount)))
  {
    assert ChainOk(pub, l.held[pub]);
    assert PlaceOk(pub, l.held[pub], |l.held[pub].chain| - 1);
  }

  /** If its source is no longer on offer, value appears from nowhere. */
  lemma ReceiveAddsValue(l: Ledger, pub: AccountId, h: Hash, amount: int, timestamp: int, ok: bool)
    requires ChainsOk(l) && Head(l, pub).Some? && h !in l.payments.unclaimed
    requires Judge(l, ReceiveOn(l, pub, h, amount, timestamp), ok) == Append
    ensures Value(AddBlock(l, ReceiveOn(l, pub, h, amount, timestamp), ok)) == Value(l) + amount
  {
    var b := ReceiveOn(l, pub, h, amount, timestamp);
    var r := AddBlock(l, b, ok);
    DeliveryShape(l, b, ok);
    BalanceMoves(l, b, r);
    assert r.payments.unclaimed == l.payments.unclaimed;
    assert OnOffer(r) == OnOffer(l);
  }

  lemma BalanceMoves(l: Ledger, b: Block, r: Ledger)
    requires r.held == Extend(l, b).held && Head(l, b.content.accountId).Some?
    ensures Sum(BalancesOf(r)) ==
      Sum(BalancesOf(l)) + b.content.balance - Head(l, b.content.accountId).value.content.balance
  {
    BalancesFollow(l, b, r);
    SumSet(BalancesOf(l), b.content.accountId, b.content.balance);
  }

  function SendOn(l: Ledger, pub: AccountId, to: Option<AccountId>, amount: int, timestamp: int): Block
    requires Head(l, pub).Some?
  {
    NextBlock(l, pub, pub, timestamp, Head(l, pub).value.content.balance - amount, Send(to, Some(amount)))
  }

  /** A delivered send is accepted exactly when it is positive and covered. Nobody asks for a recipient, nor compares
  it with a receive that named its hash first; it is then offered to nobody. */
  lemma SendIsAcceptedIff(l: Ledger, pub: AccountId, to: Option<AccountId>, amount: int, timestamp: int, ok: bool)
    requires ChainsOk(l) && Head(l, pub).Some? && pub !in l.equivocated
    ensures
      var b := SendOn(l, pub, to, amount, timestamp);
      && (Judge(l, b, ok) == Append <==> amount > 0 && b.content.balance >= 0)
      && (to.None? || b.hash in l.payments.claimed ==> AddBlock(l, b, ok).payments == l.payments)
  {
    assert ChainOk(pub, l.held[pub]);
    assert PlaceOk(pub, l.held[pub], |l.held[pub].chain| - 1);
  }

  /** The held send `h` is claimed, and `b` receives its one unit once more. */
  ghost predicate ReceivesAgain(l: Ledger, h: Hash, b: Block) {
    && h in Leaves(l) && h in l.payments.claimed && b.content.body == Receive(Some(h), Some(1))
    && Judge(l, b, false) == Append && Value(AddBlock(l, b, false)) == Value(l) + 1
  }

  /** Four calls after which a fifth block receives a held send a second time. */
  lemma HeldSendIsReceivedTwice()
    ensures exists steps: seq<Step>, h: Hash, b: Block ::
      FairRun(steps) && ReceivesAgain(Run(EMPTY_LEDGER, steps), h, b)
  {
    var s1, s2 := OpenAccount("from", "from", 0, "", true), OpenAccount("to", "to", 0, "", true);
    var l2 := Next(Next(EMPTY_LEDGER, s1), s2);
    TwoOpened(l2);
    var s3 := CreateSend("from", "from", 0, Some("to"), 1, 0);
    var s4 := CreateReceive("to", "to", 0, Created(l2, s3).value.hash);
    TwiceAfterFour(s1, s2, s3, s4, l2);
  }

  lemma TwiceAfterFour(s1: Step, s2: Step, s3: Step, s4: Step, l: Ledger)
    requires s1.OpenAccount? && s2.OpenAccount? && s3.CreateSend? && s4.CreateReceive?
    requires l == Next(Next(EMPTY_LEDGER, s1), s2) && l.payments.claimed == {} && l.equivocated == map[]
    requires ChainsOk(l) && Created(l, s3).Some? && s3.recipient == Some(s4.pub) && s3.amount == 1
    requires s4.source == Created(l, s3).value.hash && s4.pub != s3.pub && Head(l, s4.pub).Some?
    ensures exists steps: seq<Step>, h: Hash, b: Block ::
      FairRun(steps) && ReceivesAgain(Run(EMPTY_LEDGER, steps), h, b)
  {
    RunOfFour(s1, s2, s3, s4);
    FourAreFair(s1, s2, s3, s4, l);
    ReceivedTwice(l, s3, s4);
    var h, b :| h == s4.source && ReceivesAgain(Next(Next(l, s3), s4), h, b);
    FairWitness([s1, s2, s3, s4], Next(Next(l, s3), s4), h, b);
  }

  lemma FairWitness(steps: seq<Step>, l: Ledger, h: Hash, b: Block)
    requires FairRun(steps) && l == Run(EMPTY_LEDGER, steps) && ReceivesAgain(l, h, b)
    ensures exists steps: seq<Step>, h: Hash, b: Block ::
      FairRun(steps) && ReceivesAgain(Run(EMPTY_LEDGER, steps), h, b)
  {
    assert FairRun(steps) && ReceivesAgain(Run(EMPTY_LEDGER, steps), h, b);
  }

  ghost predicate AllOpen(hashes: set<Hash>) {
    forall h :: h in hashes ==> IsOpen(h)
  }

  lemma TwoOpened(l: Ledger)
    requires l == Next(Next(EMPTY_LEDGER, OpenAccount("from", "from", 0, "", true)),
                       OpenAccount("to", "to", 0, "", true))
    ensures ChainsOk(l) && Head(l, "from").Some? && Head(l, "to").Some? && l.equivocated == map[]
    ensures Head(l, "from").value.content.balance == MINT && l.payments.claimed == {}
    ensures AllOpen(l.allBlocks.Keys) && AllOpen(Leaves(l))
  {
    EmptyIsIndexed();
    OpeningKeepsOpen(EMPTY_LEDGER, "from");
    OpeningKeepsOpen(Next(EMPTY_LEDGER, OpenAccount("from", "from", 0, "", true)), "to");
  }

  lemma OpeningKeepsOpen(l: Ledger, pub: AccountId)
    requires ChainsOk(l) && AllOpen(l.allBlocks.Keys) && AllOpen(Leaves(l)) && pub !in l.held
    ensures
      var r := Next(l, OpenAccount(pub, pub, 0, "", true));
      ChainsOk(r) && AllOpen(r.allBlocks.Keys) && AllOpen(Leaves(r))
  {
    var s := OpenAccount(pub, pub, 0, "", true);
    ChainsOnlyGrow(l, s);
    LinkLeaves(l, s);
  }

  lemma FourAreFair(s1: Step, s2: Step, s3: Step, s4: Step, l: Ledger)
    requires s1.OpenAccount? && s2.OpenAccount? && l == Next(Next(EMPTY_LEDGER, s1), s2)
    requires FairStep(l, s3) && FairStep(Next(l, s3), s4)
    ensures FairRun([s1, s2, s3, s4])
  {
    ThreeAreFair(s1, s2, s3, l);
    FairAfter([s1, s2, s3], s4);
    assert [s1, s2, s3] + [s4] == [s1, s2, s3, s4];
  }

  lemma FairAfter(steps: seq<Step>, s: Step)
    requires FairRun(steps) && FairStep(Run(EMPTY_LEDGER, steps), s)
    ensures FairRun(steps + [s])
  {
    assert (steps + [s])[..|steps|] == steps;
  }

  lemma ReceivedTwice(l: Ledger, send: Step, claim: Step)
    requires ChainsOk(l) && send.CreateSend? && Created(l, send).Some? && send.recipient.Some? && send.amount == 1
    requires claim.CreateReceive? && Some(claim.pub) == send.recipient && claim.source == Created(l, send).value.hash
    requires claim.pub != send.pub && Head(l, claim.pub).Some? && l.equivocated == map[]
    ensures exists b :: ReceivesAgain(Next(Next(l, send), claim), claim.source, b)
  {
    var m := Next(l, send);
    var r := Next(m, claim);
    SentAndReceived(l, send, claim);
    ChainsOnlyGrow(l, send);
    ChainsOnlyGrow(m, claim);
    ReceiveIsAcceptedIff(r, claim.pub, claim.source, 1, 0, false);
    ReceiveAddsValue(r, claim.pub, claim.source, 1, 0, false);
    assert ReceivesAgain(r, claim.source, ReceiveOn(r, claim.pub, claim.source, 1, 0));
  }

  /** A send and its receive, created one after the other, leave the send held and claimed. */
  lemma SentAndReceived(l: Ledger, send: Step, claim: Step)
    requires ChainsOk(l) && send.CreateSend? && Created(l, send).Some? && send.recipient.Some?
    requires claim.CreateReceive? && Some(claim.pub) == send.recipient && claim.source == Created(l, send).value.hash
    requires claim.pub != send.pub && Head(l, claim.pub).Some? && l.equivocated == map[]
    ensures
      var r, h := Next(Next(l, send), claim), claim.source;
      && h in Leaves(r) && h in r.payments.claimed && h !in r.payments.unclaimed
      && h in r.allBlocks && Pays(r.allBlocks[h], claim.pub, Some(send.amount))
      && Head(r, claim.pub).Some? && r.equivocated == map[]
  {
    var b, m := Created(l, send).value, Next(l, send);
    CreatedIsNextLink(l, send);
    AppliedLeaves(l, b);
    SameHeld(Applied(l, b), m);
    assert Head(m, claim.pub) == Head(l, claim.pub);
    assert m.payments.unclaimed[b.hash] == Transfer(send.pub, claim.pub, send.amount);
    var c := Created(m, claim).value;
    CreatedIsNextLink(m, claim);
    AppliedLeaves(m, c);
    SameHeld(Applied(m, c), Next(m, claim));
  }

  lemma RunOfFour(s1: Step, s2: Step, s3: Step, s4: Step)
    ensures Run(EMPTY_LEDGER, [s1, s2, s3, s4]) == Next(Next(Next(Next(EMPTY_LEDGER, s1), s2), s3), s4)
    ensures
      && [s1, s2, s3, s4][..3] == [s1, s2, s3] && [s1, s2, s3][..2] == [s1, s2]
      && [s1, s2][..1] == [s1] && [s1][..0] == []
    ensures Run(EMPTY_LEDGER, [s1, s2]) == Next(Next(EMPTY_LEDGER, s1), s2)
  {
    RunOfThree(EMPTY_LEDGER, s1, s2, s3);
    assert [s1, s2, s3, s4][..3] == [s1, s2, s3] && [s1, s2][..1] == [s1] && [s1][..0] == [];
    assert Run(EMPTY_LEDGER, [s1]) == Next(EMPTY_LEDGER, s1);
  }

  /** Value can also be lost: a receive of one unit arrives before the send of five units it names. */
  lemma LateSendLosesValue()
    ensures exists steps: seq<Step> ::
      FairRun(steps) && Value(Run(EMPTY_LEDGER, steps)) < Accounted(Run(EMPTY_LEDGER, steps))
  {
    var s1, s2 := OpenAccount("from", "from", 0, "", true), OpenAccount("to", "to", 0, "", true);
    var l2 := Next(Next(EMPTY_LEDGER, s1), s2);
    TwoOpened(l2);
    var send := SendOn(l2, "from", Some("to"), 5, 0);
    var claim := ReceiveOn(l2, "to", send.hash, 1, 0);
    var l3 := Next(l2, Deliver(claim, false));
    var l4 := Next(l3, Deliver(send, false));
    ClaimThenSend(l2, l3, l4, "from", "to", send, claim);
    LostAfterFour(s1, s2, claim, send, l2, l4);
  }

  /** The receive is appended, then the send, which is not offered and nobody compares. */
  lemma ClaimThenSend(l: Ledger, m: Ledger, r: Ledger, pub: AccountId, to: AccountId, send: Block, claim: Block)
    requires ChainsOk(l) && Head(l, pub).Some? && Head(l, to).Some? && pub != to && l.equivocated == map[]
    requires Head(l, pub).value.content.balance == MINT && AllOpen(l.allBlocks.Keys) && AllOpen(Leaves(l))
    requires send == SendOn(l, pub, Some(to), 5, 0) && claim == ReceiveOn(l, to, send.hash, 1, 0)
    requires m == AddBlock(l, claim, false) && r == AddBlock(m, send, false)
    ensures Surplus(Leaves(r)) == -4
  {
    assert send.hash !in l.allBlocks by { assert !IsOpen(send.hash); }
    ClaimArrives(l, to, send.hash, claim, m);
    assert send == SendOn(m, pub, Some(to), 5, 0);
    SendAfterClaim(m, pub, to, send, r);
    OnePairSurplus(Leaves(l), claim.hash, send.hash);
  }

  lemma ClaimArrives(l: Ledger, to: AccountId, h: Hash, claim: Block, m: Ledger)
    requires ChainsOk(l) && Head(l, to).Some? && l.equivocated == map[] && h !in l.allBlocks
    requires claim == ReceiveOn(l, to, h, 1, 0) && m == AddBlock(l, claim, false)
    ensures ChainsOk(m) && Leaves(m) == Leaves(l) + {claim.hash} && m.equivocated == map[]
    ensures h in m.payments.claimed
    ensures forall pub :: pub != to && pub in l.held ==> pub in m.held && m.held[pub] == l.held[pub]
  {
    ReceiveIsAcceptedIff(l, to, h, 1, 0, false);
    LinkLeaves(l, Deliver(claim, false));
    ChainsOnlyGrow(l, Deliver(claim, false));
    DeliveryShape(l, claim, false);
  }

  lemma SendAfterClaim(l: Ledger, pub: AccountId, to: AccountId, send: Block, r: Ledger)
    requires ChainsOk(l) && Head(l, pub).Some? && l.equivocated == map[]
    requires Head(l, pub).value.content.balance == MINT && send == SendOn(l, pub, Some(to), 5, 0)
    requires r == AddBlock(l, send, false)
    ensures Leaves(r) == Leaves(l) + {send.hash}
  {
    SendIsAcceptedIff(l, pub, Some(to), 5, 0, false);
    LinkLeaves(l, Deliver(send, false));
  }

  lemma OnePairSurplus(leaves: set<Hash>, claim: Hash, send: Hash)
    requires AllOpen(leaves) && Claims(claim) && claim.content.body.source == Some(send) && Offers(send)
    ensures Surplus(leaves + {claim} + {send}) == Credit(claim) + Credit(send)
  {
    var all := leaves + {claim} + {send};
    var none: set<Hash> := {};
    assert HeldReceives(all) == none + {claim};
    assert claim in all && send in ClaimedOf(all);
    assert ClaimedSends(all) == none + {send};
    TotalAdds(none, claim);
    TotalAdds(none, send);
    assert Credits(none) == map[];
  }

  lemma LostAfterFour(s1: Step, s2: Step, claim: Block, send: Block, l: Ledger, r: Ledger)
    requires s1.OpenAccount? && s2.OpenAccount? && l == Next(Next(EMPTY_LEDGER, s1), s2)
    requires r == Next(Next(l, Deliver(claim, false)), Deliver(send, false)) && Surplus(Leaves(r)) < 0
    ensures exists steps: seq<Step> ::
      FairRun(steps) && Value(Run(EMPTY_LEDGER, steps)) < Accounted(Run(EMPTY_LEDGER, steps))
  {
    var s3, s4 := Deliver(claim, false), Deliver(send, false);
    RunOfFour(s1, s2, s3, s4);
    FourAreFair(s1, s2, s3, s4, l);
    NegativeSurplusLoses([s1, s2, s3, s4], r);
  }

  lemma NegativeSurplusLoses(steps: seq<Step>, l: Ledger)
    requires FairRun(steps) && l == Run(EMPTY_LEDGER, steps) && Surplus(Leaves(l)) < 0
    ensures exists steps: seq<Step> ::
      FairRun(steps) && Value(Run(EMPTY_LEDGER, steps)) < Accounted(Run(EMPTY_LEDGER, steps))
  {
    ValueLaw(steps);
  }

  /** The call is the first to break the separation of offers from claims: it offers a hash claimed in advance. */
  ghost predicate OffersClaimed(l: Ledger, s: Step) {
    && s.CreateSend? && Created(l, s).Some? && Created(l, s).value.hash in l.payments.claimed
    && ClaimsDisjoint(l) && !ClaimsDisjoint(Next(l, s))
  }

  /** Two openings and a delivered receive that names the hash of the send to come. */
  lemma ClaimedHashIsOffered()
    ensures exists steps: seq<Step>, s: Step :: FairRun(steps) && OffersClaimed(Run(EMPTY_LEDGER, steps), s)
  {
    var s1, s2 := OpenAccount("from", "from", 0, "", true), OpenAccount("to", "to", 0, "", true);
    var l2 := Next(Next(EMPTY_LEDGER, s1), s2);
    TwoOpened(l2);
    var send := CreateSend("from", "from", 0, Some("to"), 5, 0);
    var h := Created(l2, send).value.hash;
    var claim := ReceiveOn(l2, "to", h, 1, 0);
    assert h !in l2.allBlocks by { assert !IsOpen(h); }
    var m := AddBlock(l2, claim, false);
    ClaimedInAdvance(l2, "to", send, claim, m);
    OfferedAfterThree(s1, s2, Deliver(claim, false), send, l2, m);
  }

  lemma OfferedAfterThree(s1: Step, s2: Step, s3: Step, send: Step, l: Ledger, m: Ledger)
    requires s1.OpenAccount? && s2.OpenAccount? && l == Next(Next(EMPTY_LEDGER, s1), s2)
    requires s3.Deliver? && m == Next(l, s3)
    requires send.CreateSend? && Created(m, send).Some? && Created(m, send).value.hash in m.payments.claimed
    ensures exists steps: seq<Step>, s: Step :: FairRun(steps) && OffersClaimed(Run(EMPTY_LEDGER, steps), s)
  {
    ThreeAreFair(s1, s2, s3, l);
    FirstToOffer([s1, s2, s3], m, send);
  }

  lemma ClaimedInAdvance(l: Ledger, to: AccountId, send: Step, claim: Block, m: Ledger)
    requires ChainsOk(l) && Head(l, to).Some? && l.equivocated == map[] && send.CreateSend? && send.pub != to
    requires Created(l, send).Some? && Created(l, send).value.hash !in l.allBlocks
    requires claim == ReceiveOn(l, to, Created(l, send).value.hash, 1, 0) && m == AddBlock(l, claim, false)
    ensures Created(m, send).Some? && Created(m, send).value.hash in m.payments.claimed
  {
    ClaimArrives(l, to, Created(l, send).value.hash, claim, m);
    CreatedReads(l, m, send);
  }

  lemma CreatedReads(l: Ledger, m: Ledger, send: Step)
    requires send.CreateSend? && Created(l, send).Some? && send.pub in m.held && m.held[send.pub] == l.held[send.pub]
    ensures Created(m, send) == Created(l, send)
  {}

  lemma ThreeAreFair(s1: Step, s2: Step, s3: Step, l: Ledger)
    requires s1.OpenAccount? && s2.OpenAccount? && l == Next(Next(EMPTY_LEDGER, s1), s2) && FairStep(l, s3)
    ensures FairRun([s1, s2, s3]) && Run(EMPTY_LEDGER, [s1, s2, s3]) == Next(l, s3)
  {
    RunOfFour(s1, s2, s3, s3);
    RunOfThree(EMPTY_LEDGER, s1, s2, s3);
    FairAfter([s1], s2);
    FairAfter([s1, s2], s3);
  }

  lemma {:induction false} FairIsFresh(steps: seq<Step>)
    requires FairRun(steps)
    ensures FreshRun(steps)
  {
    if steps != [] {
      var n := |steps| - 1;
      FairIsFresh(steps[..n]);
      FreshAfter(steps, n, Run(EMPTY_LEDGER, steps[..n]));
    }
  }

  lemma FreshAfter(steps: seq<Step>, n: nat, l: Ledger)
    requires n == |steps| - 1 && FreshRun(steps[..n]) && l == Run(EMPTY_LEDGER, steps[..n]) && FreshSend(l, steps[n])
    ensures FreshRun(steps)
  {
    forall k: nat | k < n ensures FreshAt(steps, k) {
      assert FreshAt(steps[..n], k) && steps[..n][..k] == steps[..k] && steps[..n][k] == steps[k];
    }
  }

  lemma FirstToOffer(steps: seq<Step>, l: Ledger, s: Step)
    requires FairRun(steps) && l == Run(EMPTY_LEDGER, steps)
    requires s.CreateSend? && Created(l, s).Some? && Created(l, s).value.hash in l.payments.claimed
    ensures exists steps: seq<Step>, s: Step :: FairRun(steps) && OffersClaimed(Run(EMPTY_LEDGER, steps), s)
  {
    FairIsFresh(steps);
    RunStaysDisjoint(steps, |steps|);
    assert steps[..|steps|] == steps;
    CreatedSendNeedsFreshHash(l, s);
    assert OffersClaimed(Run(EMPTY_LEDGER, steps), s);
  }
}
