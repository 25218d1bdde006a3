/** What local calls build and when they succeed, stated over their arguments, and what the addressee can do next:
a send or a transfer reaches exactly the account it was asked for. */
module Creations {
  import opened Prelude
  import opened Blocks
  import opened Ledgers
  import opened ChainIndex
  import opened Indexing
  import opened NftReplay
  import opened Acceptance
  import opened Conservation

  // ---------------------------------------------------------------- The block that was asked for

  /** The body the caller asked for; a claim takes amount or token from the offer it claims. */
  ghost predicate Asked(l: Ledger, s: Step, b: Block)
    requires s.Local()
  {
    match s
    case OpenAccount(_, _, _, commitment, _) => b.content.body == Open(commitment)
    case CreateSend(_, _, _, recipient, amount, _) => b.content.body == Send(recipient, Some(amount))
    case CreateReceive(_, _, _, source) =>
      && source in l.payments.unclaimed
      && b.content.body == Receive(Some(source), Some(l.payments.unclaimed[source].amount))
    case CreateUpdate(_, _, _, updates) => b.content.body == Update(updates)
    case CreateMint(pub, _, _, contentRef, meta) =>
      b.content.body == NftMint(Some(MintedToken(pub, b.content.index, contentRef)), contentRef, meta)
    case CreateTransfer(_, _, _, token, recipient) => b.content.body == NftSend(Some(token), recipient)
    case CreateReceiveNft(_, _, _, source) =>
      source in l.tokens.unclaimed && b.content.body == NftReceive(Some(l.tokens.unclaimed[source].token), Some(source))
    case CreateBurn(_, _, _, token) => b.content.body == NftBurn(Some(token))
  }

  /** The call is one the ledger can serve: `open` for an account not held, everything else for an opened one; a send
  is positive and covered by what is not bonded; only the named owner moves a token, only the addressee claims. */
  ghost predicate Servable(l: Ledger, s: Step)
    requires s.Local()
  {
    match s
    case OpenAccount(pub, _, _, _, identityOk) => pub !in l.held && identityOk
    case CreateSend(pub, _, _, recipient, amount, bonded) =>
      && ChainOf(l, pub) != [] && recipient.Some? && 0 < amount
      && amount + bonded <= LastBalance(ChainOf(l, pub))
    case CreateReceive(pub, _, _, source) =>
      ChainOf(l, pub) != [] && source in l.payments.unclaimed && l.payments.unclaimed[source].toPub == pub
    case CreateUpdate(pub, _, _, updates) => ChainOf(l, pub) != [] && pub !in l.equivocated && |updates| > 0
    case CreateMint(pub, _, _, contentRef, _) => ChainOf(l, pub) != [] && pub !in l.equivocated && contentRef != ""
    case CreateTransfer(pub, _, _, token, recipient) =>
      && ChainOf(l, pub) != [] && pub !in l.equivocated && recipient.Some?
      && token in l.tokens.deeds.owner && l.tokens.deeds.owner[token] == pub
    case CreateReceiveNft(pub, _, _, source) =>
      && ChainOf(l, pub) != [] && pub !in l.equivocated
      && source in l.tokens.unclaimed && l.tokens.unclaimed[source].toPub == pub
    case CreateBurn(pub, _, _, token) =>
      && ChainOf(l, pub) != [] && pub !in l.equivocated
      && token in l.tokens.deeds.owner && l.tokens.deeds.owner[token] == pub
  }

  lemma CreatedIff(l: Ledger, s: Step)
    requires s.Local()
    ensures Created(l, s).Some? <==> Servable(l, s)
  {
    if s.CreateUpdate? { assert |s.updates| > 0 <==> s.updates != map[]; }
  }

  /** A call succeeds exactly when it can be served. Its block is then the signed next link of the caller's chain with
  the asked-for body and time, its balance moved by its own credit, and the caller's chain grows by exactly it. */
  lemma CallsBuildWhatIsAsked(l: Ledger, s: Step)
    requires ChainsOk(l) && s.Local()
    ensures Created(l, s).Some? <==> Servable(l, s)
    ensures Created(l, s).Some? ==>
      var b := Created(l, s).value;
      && NextLink(l, b) && b.content.accountId == s.pub && b.content.timestamp == s.timestamp && Asked(l, s, b)
      && b.signature == Signed(s.signer, b.hash, b.root)
      && b.content.balance == (if s.OpenAccount? then MINT else LastBalance(ChainOf(l, s.pub)) + Credit(b.hash))
      && ChainOf(Next(l, s), s.pub) == ChainOf(l, s.pub) + [b] && ChainsOk(Next(l, s))
      && forall pub :: pub != s.pub ==> ChainOf(Next(l, s), pub) == ChainOf(l, pub)
    ensures Created(l, s).None? ==> Next(l, s) == l
  {
    CreatedIff(l, s);
    if Created(l, s).Some? {
      CreatedIsNextLink(l, s);
      CreatedIsAppended(l, s);
      CreatedMovesByCredit(l, s);
      CreatedIsAsked(l, s);
    }
  }

  lemma CreatedIsAppended(l: Ledger, s: Step)
    requires ChainsOk(l) && s.Local() && Created(l, s).Some?
    ensures ChainsOk(Next(l, s))
    ensures forall pub ::
      ChainOf(Next(l, s), pub) == ChainOf(l, pub) + (if pub == s.pub then [Created(l, s).value] else [])
  {
    CreatedIsNextLink(l, s);
    ExtendKeepsChains(l, Created(l, s).value);
    SameHeld(Extend(l, Created(l, s).value), Next(l, s));
  }

  lemma CreatedIsAsked(l: Ledger, s: Step)
    requires ChainsOk(l) && s.Local() && Created(l, s).Some?
    ensures
      var b := Created(l, s).value;
      b.content.timestamp == s.timestamp && Asked(l, s, b) && b.signature == Signed(s.signer, b.hash, b.root)
  {}

  // ---------------------------------------------------------------- Payments arrive

  /** What a successful send leaves: exactly one new offer, the requested amount from the caller to the requested
  recipient. */
  lemma SendIsOffered(l: Ledger, s: Step)
    requires s.CreateSend? && Created(l, s).Some?
    ensures s.recipient.Some?
    ensures
      var h := Created(l, s).value.hash;
      Next(l, s).payments == l.payments.(unclaimed :=
        l.payments.unclaimed[h := Transfer(s.pub, s.recipient.value, s.amount)])
  {}

  lemma ReceiveSettles(l: Ledger, s: Step)
    requires s.CreateReceive? && Created(l, s).Some?
    ensures s.source in l.payments.unclaimed
    ensures
      Next(l, s).payments == Payments(l.payments.unclaimed - {s.source}, l.payments.claimed + {s.source})
  {}

  /** A successful send reaches exactly its recipient: once opened, the recipient can claim it next, its balance then
  rises by exactly the amount sent, and the claim is spent; nobody else can claim it. */
  lemma SendReachesRecipient(l: Ledger, s: Step, claim: Step)
    requires ChainsOk(l) && s.CreateSend? && Created(l, s).Some?
    requires claim.CreateReceive? && claim.source == Created(l, s).value.hash
    ensures
      var m := Next(l, s);
      && LastBalance(ChainOf(m, s.pub)) == LastBalance(ChainOf(l, s.pub)) - s.amount
      && (Created(m, claim).Some? <==> Some(claim.pub) == s.recipient && ChainOf(m, claim.pub) != [])
      && (Created(m, claim).Some? ==>
            var r := Next(m, claim);
            && LastBalance(ChainOf(r, claim.pub)) == LastBalance(ChainOf(m, claim.pub)) + s.amount
            && claim.source in r.payments.claimed && claim.source !in r.payments.unclaimed)
  {
    var m := Next(l, s);
    CallsBuildWhatIsAsked(l, s);
    SendIsOffered(l, s);
    CallsBuildWhatIsAsked(m, claim);
    if Created(m, claim).Some? {
      ReceiveSettles(m, claim);
      ReceiveCredits(m, claim);
    }
  }

  lemma ReceiveCredits(l: Ledger, s: Step)
    requires ChainsOk(l) && s.CreateReceive? && Created(l, s).Some?
    ensures s.source in l.payments.unclaimed
    ensures LastBalance(ChainOf(Next(l, s), s.pub)) ==
      LastBalance(ChainOf(l, s.pub)) + l.payments.unclaimed[s.source].amount
  {
    CallsBuildWhatIsAsked(l, s);
  }

  // ---------------------------------------------------------------- Tokens arrive

  /** A local call's block applies to the tokens as any block does. */
  lemma CreatedTokens(l: Ledger, s: Step)
    requires s.Local() && Created(l, s).Some?
    ensures Next(l, s).tokens == ApplyTokens(l.tokens, Created(l, s).value)
    ensures Next(l, s).equivocated == l.equivocated
  {}

  /** The row of the caller is below the block a call appends, when rows come from the chains. */
  lemma CreatedRowIsLater(l: Ledger, s: Step, t: TokenId)
    requires ChainsOk(l) && CustodyOk(l) && s.Local() && Created(l, s).Some?
    ensures
      var row := FindRow(RowsOf(l.tokens.deeds, t), s.pub);
      row.Some? ==> row.value.index < Created(l, s).value.content.index
  {
    CreatedIsNextLink(l, s);
    NextRowIsLater(l, Created(l, s).value, t);
  }

  lemma NextRowIsLater(l: Ledger, b: Block, t: TokenId)
    requires ChainsOk(l) && CustodyOk(l) && NextLink(l, b)
    ensures
      var row := FindRow(RowsOf(l.tokens.deeds, t), b.content.accountId);
      row.Some? ==> row.value.index < b.content.index
  {
    var pub := b.content.accountId;
    var chain := ChainOf(l, pub);
    assert FindRow(RowsOf(l.tokens.deeds, t), pub) == LastTouch(chain, t);
    LastTouchBound(l, pub, |chain|, t);
    assert chain[..|chain|] == chain;
    if pub in l.held { assert ChainOk(pub, l.held[pub]); }
  }

  /** A successful transfer offers that token to exactly the requested recipient, and the caller no longer holds it. */
  lemma TransferIsOffered(l: Ledger, s: Step)
    requires ChainsOk(l) && CustodyOk(l) && s.CreateTransfer? && Created(l, s).Some?
    ensures s.recipient.Some?
    ensures
      var h := Created(l, s).value.hash;
      var m := Next(l, s).tokens;
      && m.unclaimed == (if h in l.tokens.claimed then l.tokens.unclaimed
                         else l.tokens.unclaimed[h := NftTransfer(s.token, s.pub, s.recipient.value)])
      && m.claimed == l.tokens.claimed && m.info == l.tokens.info && m.deeds.burned == l.tokens.deeds.burned
      && forall t, pub :: HoldsBy(m.deeds, t, pub) <==>
           !(t == s.token && pub == s.pub) && HoldsBy(l.tokens.deeds, t, pub)
  {
    var b := Created(l, s).value;
    CreatedTokens(l, s);
    CreatedIsAsked(l, s);
    CreatedIsNextLink(l, s);
    CreatedRowIsLater(l, s, s.token);
    BurnedAndInfoAfter(l.tokens, b);
    forall t, pub ensures HoldsBy(Next(l, s).tokens.deeds, t, pub) <==>
      !(t == s.token && pub == s.pub) && HoldsBy(l.tokens.deeds, t, pub)
    {
      HoldersAfter(l.tokens, b, t, pub);
    }
  }

  /** Claiming a transfer makes the claimant a holder and spends the offer. */
  lemma ClaimHolds(l: Ledger, s: Step)
    requires ChainsOk(l) && CustodyOk(l) && s.CreateReceiveNft? && Created(l, s).Some?
    ensures s.source in l.tokens.unclaimed
    ensures
      var t, r := l.tokens.unclaimed[s.source].token, Next(l, s).tokens;
      && r.unclaimed == l.tokens.unclaimed - {s.source} && r.claimed == l.tokens.claimed + {s.source}
      && r.info == l.tokens.info && r.deeds.burned == l.tokens.deeds.burned
      && forall u, pub :: HoldsBy(r.deeds, u, pub) <==> (u == t && pub == s.pub) || HoldsBy(l.tokens.deeds, u, pub)
  {
    var b := Created(l, s).value;
    var t := l.tokens.unclaimed[s.source].token;
    CreatedTokens(l, s);
    CreatedIsAsked(l, s);
    CreatedIsNextLink(l, s);
    CreatedRowIsLater(l, s, t);
    BurnedAndInfoAfter(l.tokens, b);
    forall u, pub ensures HoldsBy(Next(l, s).tokens.deeds, u, pub) <==>
      (u == t && pub == s.pub) || HoldsBy(l.tokens.deeds, u, pub)
    {
      HoldersAfter(l.tokens, b, u, pub);
    }
  }

  /** An offered transfer can be claimed exactly by its opened, unfrozen addressee, who then holds the token. */
  lemma OfferIsClaimable(l: Ledger, claim: Step, offer: NftTransfer)
    requires ChainsOk(l) && CustodyOk(l) && claim.CreateReceiveNft?
    requires claim.source in l.tokens.unclaimed && l.tokens.unclaimed[claim.source] == offer
    ensures Created(l, claim).Some? <==>
      claim.pub == offer.toPub && claim.pub !in l.equivocated && ChainOf(l, claim.pub) != []
    ensures Created(l, claim).Some? ==>
      var r := Next(l, claim).tokens;
      && claim.source in r.claimed && claim.source !in r.unclaimed && HoldsBy(r.deeds, offer.token, claim.pub)
      && forall pub :: pub != claim.pub ==>
           (HoldsBy(r.deeds, offer.token, pub) <==> HoldsBy(l.tokens.deeds, offer.token, pub))
  {
    CreatedIff(l, claim);
    if Created(l, claim).Some? { ClaimHolds(l, claim); }
  }

  /** A successful transfer reaches exactly its recipient: once opened and unless frozen, the recipient can claim it
  next and then holds the token, which the sender no longer does; nobody else can claim it. */
  lemma TransferReachesRecipient(l: Ledger, s: Step, claim: Step)
    requires Indexed(l) && s.CreateTransfer? && Regular(l, s) && Created(l, s).Some?
    requires Created(l, s).value.hash !in l.tokens.claimed
    requires claim.CreateReceiveNft? && claim.source == Created(l, s).value.hash
    ensures
      var m := Next(l, s);
      && (Created(m, claim).Some? <==>
            Some(claim.pub) == s.recipient && claim.pub !in l.equivocated && ChainOf(m, claim.pub) != [])
      && (Created(m, claim).Some? ==>
            var r := Next(m, claim).tokens;
            && claim.source in r.claimed && claim.source !in r.unclaimed
            && HoldsBy(r.deeds, s.token, claim.pub) && (claim.pub != s.pub ==> !HoldsBy(r.deeds, s.token, s.pub)))
  {
    TransferLeaves(l, s, Next(l, s));
    OfferIsClaimable(Next(l, s), claim, NftTransfer(s.token, s.pub, s.recipient.value));
  }

  /** The state a regular transfer leaves, as its claim finds it. */
  lemma TransferLeaves(l: Ledger, s: Step, m: Ledger)
    requires Indexed(l) && s.CreateTransfer? && Regular(l, s) && Created(l, s).Some? && m == Next(l, s)
    requires Created(l, s).value.hash !in l.tokens.claimed
    ensures Indexed(m) && m.equivocated == l.equivocated && s.recipient.Some?
    ensures
      var h := Created(l, s).value.hash;
      h in m.tokens.unclaimed && m.tokens.unclaimed[h] == NftTransfer(s.token, s.pub, s.recipient.value)
    ensures m.tokens.deeds.burned == l.tokens.deeds.burned
    ensures forall pub :: HoldsBy(m.tokens.deeds, s.token, pub) <==>
      pub != s.pub && HoldsBy(l.tokens.deeds, s.token, pub)
  {
    CreationKeepsIndex(l, s);
    CreatedTokens(l, s);
    TransferIsOffered(l, s);
  }

  lemma SoleHolder(l: Ledger, t: TokenId, pub: AccountId)
    requires OwnersOk(l.tokens.deeds) && t !in l.tokens.deeds.burned
    requires forall q :: HoldsBy(l.tokens.deeds, t, q) <==> q == pub
    ensures t in l.tokens.deeds.owner && l.tokens.deeds.owner[t] == pub
  {
    SoleHolderOwns(l, t, pub);
  }

  /** Where each token is in one place, the recipient who claims it is its owner. */
  lemma RecipientOwns(l: Ledger, s: Step, claim: Step)
    requires Indexed(l) && Single(l.tokens) && s.CreateTransfer? && Regular(l, s) && Created(l, s).Some?
    requires Created(l, s).value.hash !in l.tokens.claimed
    requires claim.CreateReceiveNft? && claim.source == Created(l, s).value.hash && claim.signer == claim.pub
    requires Created(Next(l, s), claim).Some?
    ensures
      var owner := Next(Next(l, s), claim).tokens.deeds.owner;
      s.recipient.Some? && s.token in owner && owner[s.token] == s.recipient.value
  {
    TransferLeaves(l, s, Next(l, s));
    OnlyCallerHeld(l, s);
    SoleClaimantOwns(Next(l, s), claim, NftTransfer(s.token, s.pub, s.recipient.value));
  }

  lemma SoleClaimantOwns(l: Ledger, claim: Step, offer: NftTransfer)
    requires Indexed(l) && claim.CreateReceiveNft? && claim.signer == claim.pub && Created(l, claim).Some?
    requires claim.source in l.tokens.unclaimed && l.tokens.unclaimed[claim.source] == offer
    requires offer.token !in l.tokens.deeds.burned
    requires forall pub :: !HoldsBy(l.tokens.deeds, offer.token, pub)
    ensures
      var owner := Next(l, claim).tokens.deeds.owner;
      offer.token in owner && owner[offer.token] == offer.toPub
  {
    OfferIsClaimable(l, claim, offer);
    ClaimHolds(l, claim);
    ClaimIsRegular(l, claim);
    CreationKeepsIndex(l, claim);
    SoleHolder(Next(l, claim), offer.token, claim.pub);
  }

  lemma ClaimIsRegular(l: Ledger, claim: Step)
    requires claim.CreateReceiveNft? && claim.signer == claim.pub && Created(l, claim).Some?
    ensures Regular(l, claim)
  {}

  /** Whoever can transfer a token held in one place is its only holder, and it is not burned. */
  lemma OnlyCallerHeld(l: Ledger, s: Step)
    requires OwnersOk(l.tokens.deeds) && Single(l.tokens) && (s.CreateTransfer? || s.CreateBurn?)
    requires Created(l, s).Some?
    ensures s.token !in l.tokens.deeds.burned
    ensures forall q :: HoldsBy(l.tokens.deeds, s.token, q) <==> q == s.pub
  {
    CreatedIff(l, s);
    PlacedIsOwnedBy(l, s.token);
    assert PlacedOnce(l.tokens, s.token);
    assert At(l.tokens, s.token, HeldBy(s.pub));
    forall q | HoldsBy(l.tokens.deeds, s.token, q) ensures q == s.pub { assert At(l.tokens, s.token, HeldBy(q)); }
  }

  // ---------------------------------------------------------------- Mints and burns

  /** A successful mint of a token without a record makes the caller its owner, and records minter, content and
  metadata as asked. */
  lemma MintedIsOwned(l: Ledger, s: Step)
    requires Indexed(l) && Single(l.tokens) && s.CreateMint? && Regular(l, s) && Created(l, s).Some?
    ensures
      var t := MintedToken(s.pub, |ChainOf(l, s.pub)|, s.contentRef);
      var r := Next(l, s).tokens;
      && r.info == l.tokens.info[t := TokenInfo(s.pub, s.contentRef, s.meta)]
      && t in r.deeds.owner && r.deeds.owner[t] == s.pub
      && r.unclaimed == l.tokens.unclaimed && r.claimed == l.tokens.claimed
      && forall u, pub :: HoldsBy(r.deeds, u, pub) <==> (u == t && pub == s.pub) || HoldsBy(l.tokens.deeds, u, pub)
  {
    var b := Created(l, s).value;
    CallsBuildWhatIsAsked(l, s);
    ChainMatchesAcc(l, s.pub);
    var t := MintedToken(s.pub, |ChainOf(l, s.pub)|, s.contentRef);
    CreatedTokens(l, s);
    CreationKeepsIndex(l, s);
    CreatedRowIsLater(l, s, t);
    BurnedAndInfoAfter(l.tokens, b);
    assert PlacedOnce(l.tokens, t);
    forall u, pub ensures HoldsBy(Next(l, s).tokens.deeds, u, pub) <==>
      (u == t && pub == s.pub) || HoldsBy(l.tokens.deeds, u, pub)
    {
      HoldersAfter(l.tokens, b, u, pub);
    }
    forall q ensures !HoldsBy(l.tokens.deeds, t, q) {
      assert At(l.tokens, t, HeldBy(q)) <==> HoldsBy(l.tokens.deeds, t, q);
    }
    SoleHolder(Next(l, s), t, s.pub);
  }

  lemma ChainMatchesAcc(l: Ledger, pub: AccountId)
    requires ChainsOk(l)
    ensures |ChainOf(l, pub)| == |AccOf(l, pub)|
  {
    if pub in l.held { assert ChainOk(pub, l.held[pub]); }
  }

  /** After a successful burn the token is burned, nobody's, and without a mint to come. */
  lemma BurnedIsNobodys(l: Ledger, s: Step)
    requires ChainsOk(l) && OwnersOk(l.tokens.deeds) && s.CreateBurn? && Created(l, s).Some?
    ensures
      var r := Next(l, s).tokens;
      && r.deeds.burned == l.tokens.deeds.burned + {s.token} && s.token !in r.deeds.owner
      && r.info == l.tokens.info && r.unclaimed == l.tokens.unclaimed && r.claimed == l.tokens.claimed
  {
    CreatedTokens(l, s);
    CreatedIsAsked(l, s);
    CreatedIsNextLink(l, s);
    BurnedAndInfoAfter(l.tokens, Created(l, s).value);
  }

  lemma BurnStays(l: Ledger, s: Step)
    ensures l.tokens.deeds.burned <= Next(l, s).tokens.deeds.burned
  {
    NextDeeds(l, s);
    if EventBlock(l, s).Some? { DeedsBurn(l.tokens.deeds, EventBlock(l, s).value); }
  }

  lemma DeedsBurn(d: Deeds, b: Block)
    ensures d.burned <= ApplyDeeds(d, b).burned
  {
    if EventOf(b).Some? {
      var Event(t, holds) := EventOf(b).value;
      RecordShape(d, t, CustodyRow(b.content.accountId, b.content.index, holds));
      RecordShape(d.(burned := d.burned + {t}), t, CustodyRow(b.content.accountId, b.content.index, holds));
    }
  }

  lemma {:induction false} RunKeepsBurns(l: Ledger, more: seq<Step>)
    requires OwnersOk(l.tokens.deeds)
    ensures l.tokens.deeds.burned <= Run(l, more).tokens.deeds.burned && OwnersOk(Run(l, more).tokens.deeds)
    decreases |more|
  {
    if more != [] {
      var k := |more| - 1;
      RunKeepsBurns(l, more[..k]);
      BurnStays(Run(l, more[..k]), more[k]);
      NextKeepsOwners(Run(l, more[..k]), more[k]);
    }
  }

  /** A burned token stays burned and ownerless through every run of every entry point, so no call transfers or burns
  it again and no delivered mint of it is accepted. */
  lemma BurnedForever(l: Ledger, more: seq<Step>, t: TokenId, s: Step, ok: bool)
    requires OwnersOk(l.tokens.deeds) && t in l.tokens.deeds.burned
    ensures
      var r := Run(l, more);
      && t in r.tokens.deeds.burned && t !in r.tokens.deeds.owner
      && ((s.CreateTransfer? || s.CreateBurn?) && s.token == t ==> Created(r, s).None?)
      && (s.Deliver? && s.block.content.body.NftMint? && s.block.content.body.token == Some(t)
          ==> Judge(r, s.block, ok) != Append)
  {
    RunKeepsBurns(l, more);
    var r := Run(l, more);
    assert OwnerOkFor(r.tokens.deeds, t);
    if s.Local() { CreatedIff(r, s); }
  }
}
