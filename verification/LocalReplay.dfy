/** Local creation refines remote application: the blocks one ledger created, delivered to an empty ledger in
creation order, are all accepted and rebuild the creating ledger exactly. */
module LocalReplay {
  import opened Prelude
  import opened Blocks
  import opened Ledgers
  import opened ChainIndex
  import opened Indexing
  import opened Replay

  /** Local creation calls only, each signed by the account's owner. */
  ghost predicate OwnersOnly(steps: seq<Step>) {
    forall s :: s in steps ==> s.Local() && s.signer == s.pub
  }

  /** The deliveries of the blocks a run of local calls created, in creation order. */
  function CreationLog(steps: seq<Step>): seq<Step>
    requires forall s :: s in steps ==> s.Local()
  {
    if steps == [] then []
    else
      var k := |steps| - 1;
      var made := Created(Run(EMPTY_LEDGER, steps[..k]), steps[k]);
      CreationLog(steps[..k]) + (if made.Some? then [Deliver(made.value, false)] else [])
  }

  ghost predicate KnownToken(l: Ledger, t: TokenId) {
    t.MintedToken? && 0 <= t.index < |ChainOf(l, t.minter)|
  }

  ghost predicate TokensKnown(l: Ledger) {
    && (forall t :: t in l.tokens.info ==> KnownToken(l, t))
    && (forall t :: t in l.tokens.deeds.burned ==> KnownToken(l, t))
    && (forall t :: t in l.tokens.deeds.custody ==> KnownToken(l, t))
    && (forall h :: h in Leaves(l) && OffersNft(h) ==> KnownToken(l, h.content.body.token.value))
  }

  ghost predicate BlocksByHash(l: Ledger) {
    && l.allBlocks.Keys == Leaves(l)
    && forall h :: h in l.allBlocks ==> h == ContentHash(l.allBlocks[h].content)
  }

  ghost predicate ClaimsBacked(l: Ledger) {
    && l.payments.claimed <= Leaves(l)
    && forall h :: h in Leaves(l) && Offers(h) ==> h.content.body.amount.value > 0
  }

  /** What holds of a ledger that only ever created blocks. */
  ghost predicate SelfMade(l: Ledger) {
    Indexed(l) && l.equivocated == map[] && BlocksByHash(l) && ClaimsBacked(l) && TokensKnown(l)
  }

  // ---------------------------------------------------------------- The created block is acceptable

  lemma CreatedReceiveMatches(l: Ledger, s: Step)
    requires SelfMade(l) && s.CreateReceive? && Created(l, s).Some?
    ensures Head(l, s.pub).Some? && BodyError(l, Head(l, s.pub).value, Created(l, s).value, false).None?
  {
    assert s.source in Leaves(l) && Offers(s.source);
  }

  lemma CreatedClaimMatches(l: Ledger, s: Step)
    requires SelfMade(l) && s.CreateReceiveNft? && Created(l, s).Some?
    ensures Head(l, s.pub).Some? && BodyError(l, Head(l, s.pub).value, Created(l, s).value, false).None?
  {
    assert s.source in Leaves(l) && OffersNft(s.source);
  }

  lemma CreatedMintIsFresh(l: Ledger, s: Step)
    requires SelfMade(l) && s.CreateMint? && Created(l, s).Some?
    ensures Head(l, s.pub).Some? && BodyError(l, Head(l, s.pub).value, Created(l, s).value, false).None?
  {
    var h := l.held[s.pub];
    assert ChainOk(s.pub, h);
    assert PlaceOk(s.pub, h, |h.chain| - 1);
    assert !KnownToken(l, MintedToken(s.pub, Head(l, s.pub).value.content.index + 1, s.contentRef));
  }

  lemma CreatedHasNoError(l: Ledger, s: Step)
    requires SelfMade(l) && s.Local() && Created(l, s).Some? && !s.OpenAccount?
    ensures Head(l, s.pub).Some? && BodyError(l, Head(l, s.pub).value, Created(l, s).value, false).None?
  {
    if s.CreateReceive? {
      CreatedReceiveMatches(l, s);
    } else if s.CreateReceiveNft? {
      CreatedClaimMatches(l, s);
    } else if s.CreateMint? {
      CreatedMintIsFresh(l, s);
    }
  }

  lemma CreatedIsAccepted(l: Ledger, s: Step)
    requires SelfMade(l) && s.Local() && s.signer == s.pub && Created(l, s).Some?
    ensures Judge(l, Created(l, s).value, false) == Append
  {
    var b := Created(l, s).value;
    CreatedIsNextLink(l, s);
    if !s.OpenAccount? {
      CreatedHasNoError(l, s);
      var h := l.held[s.pub];
      assert ChainOk(s.pub, h);
      assert PlaceOk(s.pub, h, |h.chain| - 1);
      JudgeLink(l, b);
    }
  }

  lemma JudgeLink(l: Ledger, b: Block)
    requires ChainsOk(l) && l.equivocated == map[] && NextLink(l, b) && b.Authentic()
    requires Head(l, b.content.accountId).Some?
    requires BodyError(l, Head(l, b.content.accountId).value, b, false).None?
    ensures Judge(l, b, false) == Append
  {
    var h := l.held[b.content.accountId];
    assert ChainOk(b.content.accountId, h);
    assert PlaceOk(b.content.accountId, h, |h.chain| - 1);
  }

  lemma SeatIsApply(l: Ledger, s: Step)
    requires SelfMade(l) && s.Local() && Created(l, s).Some?
    ensures Seat(l, Created(l, s).value) == Applied(l, Created(l, s).value)
  {
    var b := Created(l, s).value;
    CreatedIsNextLink(l, s);
    AppliedLeaves(l, b);
  }

  // ---------------------------------------------------------------- The invariant

  lemma SourcesOf(l: Ledger, s: Step)
    requires SelfMade(l) && s.Local() && Created(l, s).Some?
    ensures
      var h := Created(l, s).value.hash;
      && (Claims(h) ==> h.content.body.source.value in Leaves(l))
      && (Offers(h) ==> h.content.body.amount.value > 0)
  {}

  lemma OwnedTokenKnown(l: Ledger, t: TokenId)
    requires OwnersOk(l.tokens.deeds) && TokensKnown(l) && t in l.tokens.deeds.owner
    ensures KnownToken(l, t)
  {
    assert OwnerOkFor(l.tokens.deeds, t);
  }

  lemma ClaimedTokenKnown(l: Ledger, s: Step)
    requires SelfMade(l) && s.CreateReceiveNft? && Created(l, s).Some?
    ensures KnownToken(l, l.tokens.unclaimed[s.source].token)
  {
    assert s.source in Leaves(l) && OffersNft(s.source);
  }

  /** The token a created block touches. */
  lemma CreatedEvent(l: Ledger, s: Step)
    requires s.Local() && Created(l, s).Some? && EventOf(Created(l, s).value).Some?
    ensures
      var b := Created(l, s).value;
      var t := EventOf(b).value.token;
      match s
      case CreateMint(pub, _, _, contentRef, _) => t == MintedToken(pub, b.content.index, contentRef)
      case CreateTransfer(_, _, _, token, _) => t == token && token in l.tokens.deeds.owner
      case CreateBurn(_, _, _, token) => t == token && token in l.tokens.deeds.owner
      case CreateReceiveNft(_, _, _, source) => source in l.tokens.unclaimed && t == l.tokens.unclaimed[source].token
      case _ => false
  {}

  lemma EventTokenKnown(l: Ledger, s: Step)
    requires SelfMade(l) && s.Local() && Created(l, s).Some?
    ensures
      var b := Created(l, s).value;
      EventOf(b).Some? ==>
        (KnownToken(l, EventOf(b).value.token) ||
         (s.CreateMint? && EventOf(b).value.token == MintedToken(s.pub, b.content.index, s.contentRef)))
  {
    if EventOf(Created(l, s).value).Some? {
      CreatedEvent(l, s);
      if s.CreateTransfer? || s.CreateBurn? { OwnedTokenKnown(l, s.token); }
      if s.CreateReceiveNft? { ClaimedTokenKnown(l, s); }
    }
  }

  lemma ApplyKeepsKnown(l: Ledger, s: Step)
    requires SelfMade(l) && s.Local() && Created(l, s).Some?
    ensures TokensKnown(Applied(l, Created(l, s).value))
  {
    var b := Created(l, s).value;
    CreatedIsNextLink(l, s);
    EventTokenKnown(l, s);
    ChainsGrow(l, b);
    KnownFollows(l, b);
  }

  lemma KnownFollows(l: Ledger, b: Block)
    requires ChainsOk(l) && NextLink(l, b) && TokensKnown(l)
    requires EventOf(b).Some? ==> KnownToken(Applied(l, b), EventOf(b).value.token)
    ensures TokensKnown(Applied(l, b))
  {
    var r := Applied(l, b);
    AppliedLeaves(l, b);
    ChainsGrow(l, b);
    assert r.tokens == ApplyTokens(l.tokens, b);
    if EventOf(b).Some? {
      RecordsGrow(l.tokens, b);
    }
    assert OffersNft(b.hash) ==> EventOf(b) == Some(Event(b.hash.content.body.token.value, false));
  }

  lemma ChainsGrow(l: Ledger, b: Block)
    requires ChainsOk(l) && NextLink(l, b)
    ensures forall t :: KnownToken(l, t) ==> KnownToken(Applied(l, b), t)
    ensures forall c :: KnownToken(Applied(l, b), MintedToken(b.content.accountId, b.content.index, c))
  {
    ExtendKeepsChains(l, b);
    SameHeld(Extend(l, b), Applied(l, b));
    if b.content.accountId in l.held { assert ChainOk(b.content.accountId, l.held[b.content.accountId]); }
  }

  lemma DeedsGrow(d: Deeds, b: Block)
    requires EventOf(b).Some?
    ensures
      var r, u := ApplyDeeds(d, b), EventOf(b).value.token;
      r.burned <= d.burned + {u} && r.custody.Keys <= d.custody.Keys + {u}
  {
    var Event(u, holds) := EventOf(b).value;
    var row := CustodyRow(b.content.accountId, b.content.index, holds);
    RecordShape(d, u, row);
    RecordShape(d.(burned := d.burned + {u}), u, row);
  }

  lemma RecordsGrow(t: Tokens, b: Block)
    requires EventOf(b).Some?
    ensures
      var r, u := ApplyTokens(t, b), EventOf(b).value.token;
      && r.info.Keys <= t.info.Keys + {u}
      && r.deeds.burned <= t.deeds.burned + {u}
      && r.deeds.custody.Keys <= t.deeds.custody.Keys + {u}
  {
    DeedsGrow(t.deeds, b);
  }

  lemma ClaimsFollow(l: Ledger, b: Block)
    requires ChainsOk(l) && ClaimsBacked(l) && NextLink(l, b)
    requires Claims(b.hash) ==> b.hash.content.body.source.value in Leaves(l)
    requires Offers(b.hash) ==> b.hash.content.body.amount.value > 0
    ensures ClaimsBacked(Applied(l, b))
  {
    AppliedLeaves(l, b);
    var p := ApplyPayments(l.payments, b);
    assert p.claimed == if Claims(b.hash) then l.payments.claimed + {b.hash.content.body.source.value}
      else l.payments.claimed;
    assert Applied(l, b).payments == p;
  }

  lemma ApplyKeepsClaims(l: Ledger, s: Step)
    requires SelfMade(l) && s.Local() && Created(l, s).Some?
    ensures ClaimsBacked(Applied(l, Created(l, s).value))
  {
    var b := Created(l, s).value;
    CreatedIsNextLink(l, s);
    SourcesOf(l, s);
    ClaimsFollow(l, b);
  }

  lemma ApplyKeepsBlocks(l: Ledger, b: Block)
    requires ChainsOk(l) && BlocksByHash(l) && NextLink(l, b)
    ensures BlocksByHash(Applied(l, b))
  {
    AppliedLeaves(l, b);
    assert Applied(l, b).allBlocks == l.allBlocks[b.hash := b];
  }

  lemma CreationIsDelivery(l: Ledger, s: Step)
    requires SelfMade(l) && s.Local() && s.signer == s.pub
    ensures SelfMade(Next(l, s))
    ensures Created(l, s).Some? ==>
      Judge(l, Created(l, s).value, false) == Append && Next(l, s) == AddBlock(l, Created(l, s).value, false)
  {
    if Created(l, s).Some? {
      var b := Created(l, s).value;
      CreatedIsAccepted(l, s);
      SeatIsApply(l, s);
      DeliveryShape(l, b, false);
      DeliveryKeepsIndex(l, b, false);
      CreatedIsNextLink(l, s);
      AppliedLeaves(l, b);
      ApplyKeepsBlocks(l, b);
      ApplyKeepsClaims(l, s);
      ApplyKeepsKnown(l, s);
    }
  }

  // ---------------------------------------------------------------- The refinement

  lemma LogGrows(log: seq<Step>, l: Ledger, b: Block)
    requires Run(EMPTY_LEDGER, log) == l && Accepted(log) && Judge(l, b, false) == Append
    ensures Run(EMPTY_LEDGER, log + [Deliver(b, false)]) == AddBlock(l, b, false) && Accepted(log + [Deliver(b, false)])
  {
    assert (log + [Deliver(b, false)])[..|log|] == log;
  }

  lemma LogStep(steps: seq<Step>, l: Ledger, next: Ledger)
    requires OwnersOnly(steps) && steps != []
    requires l == Run(EMPTY_LEDGER, steps[..|steps| - 1]) && next == Run(EMPTY_LEDGER, steps)
    requires SelfMade(l) && Accepted(CreationLog(steps[..|steps| - 1]))
    requires Run(EMPTY_LEDGER, CreationLog(steps[..|steps| - 1])) == l
    ensures SelfMade(next) && Accepted(CreationLog(steps)) && Run(EMPTY_LEDGER, CreationLog(steps)) == next
  {
    var k := |steps| - 1;
    assert steps[k] in steps;
    CreationIsDelivery(l, steps[k]);
    if Created(l, steps[k]).Some? {
      LogGrows(CreationLog(steps[..k]), l, Created(l, steps[k]).value);
    } else {
      assert CreationLog(steps) == CreationLog(steps[..k]);
    }
  }

  lemma {:induction false} LogRebuilds(steps: seq<Step>)
    requires OwnersOnly(steps)
    ensures SelfMade(Run(EMPTY_LEDGER, steps))
    ensures Accepted(CreationLog(steps))
    ensures Run(EMPTY_LEDGER, CreationLog(steps)) == Run(EMPTY_LEDGER, steps)
  {
    if steps == [] {
      EmptyIsIndexed();
    } else {
      assert forall s :: s in steps[..|steps| - 1] ==> s in steps;
      LogRebuilds(steps[..|steps| - 1]);
      LogStep(steps, Run(EMPTY_LEDGER, steps[..|steps| - 1]), Run(EMPTY_LEDGER, steps));
    }
  }

  /** Whatever an owner's ledger creates - openings, sends, receives, updates, mints, transfers, claims, burns,
  refused calls in between - replaying the created blocks through `addBlock` into an empty ledger is accepted
  in full and rebuilds that ledger: chains, offers, claims, token records, custody, owners and burns. */
  lemma LocalCreationRefinesDelivery(steps: seq<Step>)
    requires OwnersOnly(steps)
    ensures Accepted(CreationLog(steps))
    ensures Run(EMPTY_LEDGER, CreationLog(steps)) == Run(EMPTY_LEDGER, steps)
  {
    LogRebuilds(steps);
  }
}
