/** What proof-carried registration and restoration put into the ledger: exactly the transfer the sender signed, under
the claimant's name, so that the claim made from it fits its source; and exactly the record the mint signed. */
module Registration {
  import opened Prelude
  import opened Blocks
  import opened Ledgers
  import opened ChainIndex
  import opened Indexing
  import opened NftReplay
  import opened Acceptance
  import opened Creations
  import opened Conservation

  // ---------------------------------------------------------------- Registering a send

  /** The packet proves a signed transfer by an unfrozen sender to the claimant that nobody claimed; of a token, one
  that is named and not burned. */
  predicate Registrable(l: Ledger, b: Block, claimant: AccountId, included: bool) {
    && included && b.Authentic() && b.content.accountId !in l.equivocated
    && match b.content.body
       case Send(recipient, _) => recipient == Some(claimant) && b.hash !in l.payments.claimed
       case NftSend(token, recipient) =>
         && recipient == Some(claimant) && b.hash !in l.tokens.claimed
         && token.Some? && token.value !in l.tokens.deeds.burned
       case _ => false
  }

  /** A registration keeps the block and, if its hash was not on offer, offers what the block signs from its sender
  to the claimant; an offer that was there, and every other one, stays. Everything else is untouched, and any other
  packet changes nothing. */
  lemma RegistrationOffersWhatIsSigned(l: Ledger, b: Block, claimant: AccountId, included: bool)
    ensures
      var r := Next(l, RegisterSend(b, claimant, included));
      if !Registrable(l, b, claimant, included) then r == l
      else
        && r.held == l.held && r.equivocated == l.equivocated && r.allBlocks == l.allBlocks[b.hash := b]
        && r.payments.claimed == l.payments.claimed
        && r.tokens == l.tokens.(unclaimed := r.tokens.unclaimed)
        && (forall h :: h in l.payments.unclaimed ==>
              h in r.payments.unclaimed && r.payments.unclaimed[h] == l.payments.unclaimed[h])
        && (forall h :: h in l.tokens.unclaimed ==>
              h in r.tokens.unclaimed && r.tokens.unclaimed[h] == l.tokens.unclaimed[h])
        && r.payments.unclaimed.Keys == l.payments.unclaimed.Keys + (if b.content.body.Send? then {b.hash} else {})
        && r.tokens.unclaimed.Keys == l.tokens.unclaimed.Keys + (if b.content.body.Send? then {} else {b.hash})
        && (b.content.body.Send? && b.hash !in l.payments.unclaimed ==>
              r.payments.unclaimed[b.hash] ==
              Transfer(b.content.accountId, claimant, ValueOf(b.content.body.amount)))
        && (b.content.body.NftSend? && b.hash !in l.tokens.unclaimed ==>
              r.tokens.unclaimed[b.hash] ==
              NftTransfer(b.content.body.token.value, b.content.accountId, claimant))
  {}

  ghost predicate PaymentSigned(h: Hash, offer: Transfer) {
    && h.ContentHash? && h.content.body.Send? && h.content.body.recipient == Some(offer.toPub)
    && offer.fromPub == h.content.accountId && offer.amount == ValueOf(h.content.body.amount)
  }

  ghost predicate TransferSigned(h: Hash, offer: NftTransfer) {
    && h.ContentHash? && h.content.body == NftSend(Some(offer.token), Some(offer.toPub))
    && offer.fromPub == h.content.accountId
  }

  /** Every offer is the one its own hash signs. */
  ghost predicate OffersAreSigned(payments: map<Hash, Transfer>, transfers: map<Hash, NftTransfer>) {
    && (forall h :: h in payments ==> PaymentSigned(h, payments[h]))
    && (forall h :: h in transfers ==> TransferSigned(h, transfers[h]))
  }

  ghost predicate OnlySigned(l: Ledger) {
    OffersAreSigned(l.payments.unclaimed, l.tokens.unclaimed)
  }

  lemma AppliedOffersSigned(p: Payments, t: Tokens, b: Block)
    requires OffersAreSigned(p.unclaimed, t.unclaimed) && b.hash == ContentHash(b.content)
    ensures OffersAreSigned(ApplyPayments(p, b).unclaimed, ApplyTokens(t, b).unclaimed)
    ensures OffersAreSigned(SeatPayments(p, b).unclaimed, ApplyTokens(t, b).unclaimed)
  {}

  lemma FewerOffersSigned(l: Ledger, ev: Evidence)
    requires OnlySigned(l)
    ensures OnlySigned(Freeze(l, ev))
  {}

  lemma LocalOffersSigned(l: Ledger, s: Step)
    requires OnlySigned(l) && s.Local()
    ensures OnlySigned(Next(l, s))
  {
    if Created(l, s).Some? {
      var b := Created(l, s).value;
      CreatedTokens(l, s);
      CreatedIsHashed(l, s);
      AppliedOffersSigned(l.payments, l.tokens, b);
    }
  }

  lemma CreatedIsHashed(l: Ledger, s: Step)
    requires s.Local() && Created(l, s).Some?
    ensures
      var b := Created(l, s).value;
      b.hash == ContentHash(b.content) && Next(l, s).payments == SeatPayments(l.payments, b)
  {}

  lemma DeliveryOffersSigned(l: Ledger, b: Block, ok: bool)
    requires OnlySigned(l)
    ensures OnlySigned(AddBlock(l, b, ok))
  {
    DeliveryShape(l, b, ok);
    match Judge(l, b, ok)
    case Append => AppliedOffersSigned(l.payments, l.tokens, b);
    case Fork(rival, _) => FewerOffersSigned(l, Evidence(rival, b));
    case _ =>
  }

  lemma RegisteredOffersSigned(l: Ledger, b: Block, claimant: AccountId, included: bool)
    requires OnlySigned(l)
    ensures OnlySigned(RegisterVerifiedSend(l, b, claimant, included))
  {}

  lemma RestoredOffersSigned(l: Ledger, b: Block)
    requires OnlySigned(l)
    ensures OnlySigned(RestoreVerifiedBlock(l, b))
  {
    if b.Authentic() { AppliedOffersSigned(l.payments, l.tokens, b); }
  }

  /** Every entry point keeps offers to what was signed. */
  lemma StepKeepsOffersSigned(l: Ledger, s: Step)
    requires OnlySigned(l)
    ensures OnlySigned(Next(l, s))
  {
    if s.Local() { LocalOffersSigned(l, s); }
    else if s.Deliver? { DeliveryOffersSigned(l, s.block, s.storageOk); }
    else if s.RegisterSend? { RegisteredOffersSigned(l, s.block, s.claimant, s.included); }
    else if s.Restore? { RestoredOffersSigned(l, s.block); }
    else if s.ApplyEvidence? { FewerOffersSigned(l, Evidence(s.first, s.second)); }
  }

  /** So after every run of every entry point an offer carries sender, recipient and amount or token of the block its
  hash commits to. */
  lemma {:induction false} RunKeepsOffersSigned(steps: seq<Step>)
    ensures OnlySigned(Run(EMPTY_LEDGER, steps))
    decreases |steps|
  {
    if steps != [] {
      var k := |steps| - 1;
      RunKeepsOffersSigned(steps[..k]);
      StepKeepsOffersSigned(Run(EMPTY_LEDGER, steps[..k]), steps[k]);
    }
  }

  /** Whatever put the offer there, the claim somebody creates from it fits the signed send: same amount, to its own
  account; a token claim names the signed token. */
  lemma ClaimsFitTheirSource(steps: seq<Step>, s: Step)
    requires (s.CreateReceive? || s.CreateReceiveNft?) && Created(Run(EMPTY_LEDGER, steps), s).Some?
    ensures s.source.ContentHash?
    ensures
      var b, source := Created(Run(EMPTY_LEDGER, steps), s).value, s.source.content;
      && (s.CreateReceive? ==>
            && source.body.Send? && source.body.recipient == Some(s.pub)
            && b.content.body == Receive(Some(s.source), Some(ValueOf(source.body.amount))))
      && (s.CreateReceiveNft? ==>
            && source.body.NftSend? && source.body.recipient == Some(s.pub)
            && b.content.body == NftReceive(source.body.token, Some(s.source)))
  {
    RunKeepsOffersSigned(steps);
    CreatedIff(Run(EMPTY_LEDGER, steps), s);
  }

  ghost predicate BlocksKeyed(l: Ledger) {
    forall h :: h in l.allBlocks ==> h == ContentHash(l.allBlocks[h].content)
  }

  /** And another ledger, whether it holds the source or not, has nothing against the claim: it is entitled, provided
  a payment's signed amount is positive. */
  lemma ClaimsAreEntitled(steps: seq<Step>, s: Step, other: Ledger, ok: bool)
    requires (s.CreateReceive? || s.CreateReceiveNft?) && Created(Run(EMPTY_LEDGER, steps), s).Some?
    requires BlocksKeyed(other)
    ensures
      var b := Created(Run(EMPTY_LEDGER, steps), s).value;
      Entitled(other, b, ok) <==> s.CreateReceiveNft? || Positive(b.content.body.amount)
  {
    ClaimsFitTheirSource(steps, s);
    CreatedKeepsCaller(Run(EMPTY_LEDGER, steps), s);
  }

  lemma CreatedKeepsCaller(l: Ledger, s: Step)
    requires s.Local() && Created(l, s).Some?
    ensures Created(l, s).value.content.accountId == s.pub
  {}

  // ---------------------------------------------------------------- Records of mints

  /** Registering a mint proof keeps a record that is there, and otherwise records exactly minter, content and metadata
  of an authentic, included mint of that token by an unfrozen account, unless the token is burned. Neither owners nor
  offers move. */
  lemma MintRecordIsSigned(l: Ledger, b: Block, t: TokenId, included: bool)
    ensures
      var r := Next(l, RegisterMint(b, t, included));
      var mint := b.content.body;
      if t !in l.tokens.info && t !in l.tokens.deeds.burned && b.content.accountId !in l.equivocated
         && mint.NftMint? && mint.token == Some(t) && mint.contentRef != "" && b.Authentic() && included
      then
        && r == l.(allBlocks := l.allBlocks[b.hash := b],
                   tokens := l.tokens.(info := l.tokens.info[t := r.tokens.info[t]]))
        && r.tokens.info[t].minter == b.content.accountId
        && r.tokens.info[t].contentRef == mint.contentRef && r.tokens.info[t].meta == mint.meta
      else r == l
  {}

  // ---------------------------------------------------------------- Restoring

  /** A block that restoration re-seats: an authentic mint of a token that is not burned, or an authentic addressed
  transfer or send. */
  predicate Restorable(l: Ledger, b: Block) {
    && b.Authentic()
    && match b.content.body
       case NftMint(token, contentRef, _) => token.Some? && contentRef != "" && token.value !in l.tokens.deeds.burned
       case NftSend(token, recipient) => token.Some? && recipient.Some?
       case Send(recipient, amount) => recipient.Some? && amount.Some?
       case _ => false
  }

  /** Restoration re-seats exactly those blocks. A mint gives its token the signed record unless it has one; a transfer
  is offered as signed unless claimed, and its sender no longer holds the token unless a later block of its own says
  otherwise; a send is offered as signed unless claimed or on offer. No chain, claim or freeze moves. */
  lemma RestorationReseatsWhatIsSigned(l: Ledger, b: Block)
    ensures
      var r := Next(l, Restore(b));
      if !Restorable(l, b) then r == l
      else
        && r.held == l.held && r.equivocated == l.equivocated && r.allBlocks == l.allBlocks[b.hash := b]
        && r.payments.claimed == l.payments.claimed && r.tokens.claimed == l.tokens.claimed
        && r.tokens.deeds.burned == l.tokens.deeds.burned
        && (b.content.body.NftMint? ==>
              && r.payments == l.payments && r.tokens.deeds == l.tokens.deeds
              && r.tokens.unclaimed == l.tokens.unclaimed
              && MintSeated(l.tokens.info, r.tokens.info, b))
        && (b.content.body.NftSend? ==>
              && r.payments == l.payments && r.tokens.info == l.tokens.info
              && TransferSeated(l.tokens, r.tokens, b))
        && (b.content.body.Send? ==>
              && r.tokens == l.tokens
              && r.payments.unclaimed ==
                 (if b.hash in l.payments.claimed || b.hash in l.payments.unclaimed then l.payments.unclaimed
                  else l.payments.unclaimed[b.hash :=
                         Transfer(b.content.accountId, b.content.body.recipient.value, b.content.body.amount.value)]))
  {
    if Restorable(l, b) && b.content.body.NftSend? { RestoredTransfer(l, b); }
  }

  ghost predicate MintSeated(before: map<TokenId, TokenInfo>, after: map<TokenId, TokenInfo>, b: Block)
    requires b.content.body.NftMint? && b.content.body.token.Some?
  {
    var t := b.content.body.token.value;
    && t in after && after == before[t := after[t]]
    && (t in before ==> after[t] == before[t])
    && (t !in before ==> after[t] == TokenInfo(b.content.accountId, b.content.body.contentRef, b.content.body.meta))
  }

  ghost predicate TransferSeated(before: Tokens, after: Tokens, b: Block)
    requires b.content.body.NftSend? && b.content.body.token.Some? && b.content.body.recipient.Some?
  {
    var t, from := b.content.body.token.value, b.content.accountId;
    var row := FindRow(RowsOf(before.deeds, t), from);
    && after.unclaimed == (if b.hash in before.claimed then before.unclaimed
                           else before.unclaimed[b.hash := NftTransfer(t, from, b.content.body.recipient.value)])
    && forall u, pub :: HoldsBy(after.deeds, u, pub) <==>
         && HoldsBy(before.deeds, u, pub)
         && !(u == t && pub == from && row.value.index < b.content.index)
  }

  lemma RestoredTransfer(l: Ledger, b: Block)
    requires Restorable(l, b) && b.content.body.NftSend?
    ensures Next(l, Restore(b)).tokens.deeds.burned == l.tokens.deeds.burned
    ensures TransferSeated(l.tokens, Next(l, Restore(b)).tokens, b)
  {
    var deeds := ApplyDeeds(l.tokens.deeds, b);
    BurnedAndInfoAfter(l.tokens, b);
    assert Next(l, Restore(b)).tokens.deeds == deeds;
    forall u, pub ensures HoldsBy(deeds, u, pub) <==>
      var row := FindRow(RowsOf(l.tokens.deeds, b.content.body.token.value), b.content.accountId);
      && HoldsBy(l.tokens.deeds, u, pub)
      && !(Touches(b, u) && pub == b.content.accountId && row.value.index < b.content.index)
    {
      DeedsFind(l.tokens.deeds, b, u, pub);
    }
  }
}
