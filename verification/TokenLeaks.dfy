/** Where a delivered block puts a token in a second place: `addBlock` does not ask whether the transfer a token
receive names was claimed before, so an account that passed a token on can receive the old transfer again.
 */
module TokenLeaks {
  import opened Prelude
  import opened Blocks
  import opened Ledgers
  import opened ChainIndex
  import opened Indexing
  import opened Replay
  import opened NftReplay
  import opened NftInterleaving

  function ClaimOn(l: Ledger, pub: AccountId, t: TokenId, h: Hash, timestamp: int): Block
    requires Head(l, pub).Some?
  {
    NextBlock(l, pub, pub, timestamp, Head(l, pub).value.content.balance, NftReceive(Some(t), Some(h)))
  }

  /** A delivered token receive is accepted exactly when its source is not held or hands its account that token,
  claimed before or not. */
  lemma ClaimIsAcceptedIff(l: Ledger, pub: AccountId, t: TokenId, h: Hash, timestamp: int, ok: bool)
    requires ChainsOk(l) && Head(l, pub).Some? && pub !in l.equivocated
    ensures Judge(l, ClaimOn(l, pub, t, h, timestamp), ok) == Append <==>
      (h in l.allBlocks ==> Hands(l.allBlocks[h], pub, Some(t)))
  {
    assert ChainOk(pub, l.held[pub]);
    assert PlaceOk(pub, l.held[pub], |l.held[pub].chain| - 1);
  }

  // ---------------------------------------------------------------- When one place stays one place

  /** Every place of the token is the transfer received or the receiver. */
  ghost predicate OnlyNear(tk: Tokens, t: TokenId, h: Hash, pub: AccountId) {
    forall x :: At(tk, t, x) ==> x == InFlight(h) || x == HeldBy(pub)
  }

  lemma PlacesAfterClaim(tk: Tokens, b: Block, u: TokenId, x: Place)
    requires b.content.body.NftReceive? && b.content.body.token.Some? && b.content.body.source.Some?
    requires
      var row := FindRow(RowsOf(tk.deeds, b.content.body.token.value), b.content.accountId);
      row.Some? ==> row.value.index < b.content.index
    ensures At(ApplyTokens(tk, b), u, x) <==>
      || (u == b.content.body.token.value && x == HeldBy(b.content.accountId))
      || (At(tk, u, x) && x != InFlight(b.content.body.source.value))
  {
    if x.HeldBy? { HoldersAfter(tk, b, u, x.account); }
  }

  /** A token receive leaves every token in at most one place exactly when its token has a record, is not burned,
  and was nowhere but in the named transfer or with the receiver. */
  lemma ClaimKeepsSingleIff(tk: Tokens, b: Block)
    requires Single(tk) && b.hash == ContentHash(b.content)
    requires b.content.body.NftReceive? && b.content.body.token.Some? && b.content.body.source.Some?
    requires
      var row := FindRow(RowsOf(tk.deeds, b.content.body.token.value), b.content.accountId);
      row.Some? ==> row.value.index < b.content.index
    ensures
      var t, h, pub := b.content.body.token.value, b.content.body.source.value, b.content.accountId;
      Single(ApplyTokens(tk, b)) <==> t in tk.info && t !in tk.deeds.burned && OnlyNear(tk, t, h, pub)
  {
    var r := ApplyTokens(tk, b);
    var t, h, pub := b.content.body.token.value, b.content.body.source.value, b.content.accountId;
    BurnedAndInfoAfter(tk, b);
    forall u, x ensures At(r, u, x) <==> (u == t && x == HeldBy(pub)) || (At(tk, u, x) && x != InFlight(h)) {
      PlacesAfterClaim(tk, b, u, x);
    }
    forall u | u != t ensures PlacedOnce(r, u) { assert PlacedOnce(tk, u); }
    assert PlacedOnce(tk, t);
    assert At(r, t, HeldBy(pub));
    assert PlacedOnce(r, t) <==> t in tk.info && t !in tk.deeds.burned && OnlyNear(tk, t, h, pub);
  }

  /** Any accepted token receive, on any ledger whose custody rows come from its chains. */
  lemma AcceptedClaimKeepsSingleIff(l: Ledger, b: Block, ok: bool)
    requires ChainsOk(l) && CustodyOk(l) && Single(l.tokens)
    requires Judge(l, b, ok) == Append && b.content.body.NftReceive?
    ensures b.content.body.token.Some? && b.content.body.source.Some?
    ensures
      var t, h, pub := b.content.body.token.value, b.content.body.source.value, b.content.accountId;
      var r := AddBlock(l, b, ok);
      && HoldsBy(r.tokens.deeds, t, pub)
      && (Single(r.tokens) <==> t in l.tokens.info && t !in l.tokens.deeds.burned && OnlyNear(l.tokens, t, h, pub))
  {
    DeliveryShape(l, b, ok);
    ClaimIsComplete(l, b, ok);
    var t, pub := b.content.body.token.value, b.content.accountId;
    NewRowIsLater(l, b, ok, t);
    ClaimKeepsSingleIff(l.tokens, b);
    PlacesAfterClaim(l.tokens, b, t, HeldBy(pub));
  }

  lemma ClaimIsComplete(l: Ledger, b: Block, ok: bool)
    requires Judge(l, b, ok) == Append && b.content.body.NftReceive?
    ensures b.content.body.token.Some? && b.content.body.source.Some? && b.hash == ContentHash(b.content)
  {}

  lemma NewRowIsLater(l: Ledger, b: Block, ok: bool, t: TokenId)
    requires ChainsOk(l) && CustodyOk(l) && Judge(l, b, ok) == Append
    ensures
      var row := FindRow(RowsOf(l.tokens.deeds, t), b.content.accountId);
      row.Some? ==> row.value.index < b.content.index
  {
    var pub := b.content.accountId;
    var chain := ChainOf(l, pub);
    AppendIsNextLink(l, b, ok);
    assert FindRow(RowsOf(l.tokens.deeds, t), pub) == LastTouch(chain, t);
    LastTouchBound(l, pub, |chain|, t);
    assert chain[..|chain|] == chain;
    if pub in l.held { assert ChainOk(pub, l.held[pub]); }
  }

  // ---------------------------------------------------------------- After honest replays

  /** After any causal replay of genuine chains, an account that received a token can be delivered a second receive of
  the same transfer. It is accepted, the account holds the token again, and the token is in one place exactly when it
  had not left. */
  lemma SecondClaimIsAccepted(f: Family, steps: seq<Step>, r: Block, timestamp: int, ok: bool)
    requires FamilyOk(f) && Genuine(f) && OwnOrder(f, steps) && Causal(steps)
    requires r in Delivered(steps) && InFamily(f, r) && r.content.body.NftReceive? && r.content.body.token.Some?
    ensures r.content.body.source.Some? && Head(Run(EMPTY_LEDGER, steps), r.content.accountId).Some?
    ensures
      var l, pub, t := Run(EMPTY_LEDGER, steps), r.content.accountId, r.content.body.token.value;
      var b := ClaimOn(l, pub, t, r.content.body.source.value, timestamp);
      var next := AddBlock(l, b, ok).tokens;
      && Judge(l, b, ok) == Append && HoldsBy(next.deeds, t, pub)
      && (Single(next) <==>
            t in l.tokens.info && t !in l.tokens.deeds.burned && forall x :: At(l.tokens, t, x) ==> x == HeldBy(pub))
  {
    var l := Run(EMPTY_LEDGER, steps);
    CausalReplayIsAccepted(f, steps);
    ReplayFollows(f, steps);
    DeliveredIsHeld(f, steps, r);
    ClaimAgain(f, l, r, timestamp, ok);
  }

  lemma ClaimAgain(f: Family, l: Ledger, r: Block, timestamp: int, ok: bool)
    requires FamilyOk(f) && Genuine(f) && Follows(f, l) && Single(l.tokens)
    requires InFamily(f, r) && r.hash in Leaves(l) && r.content.body.NftReceive? && r.content.body.token.Some?
    ensures r.content.body.source.Some? && Head(l, r.content.accountId).Some?
    ensures
      var pub, t := r.content.accountId, r.content.body.token.value;
      var b := ClaimOn(l, pub, t, r.content.body.source.value, timestamp);
      var next := AddBlock(l, b, ok).tokens;
      && Judge(l, b, ok) == Append && HoldsBy(next.deeds, t, pub)
      && (Single(next) <==>
            t in l.tokens.info && t !in l.tokens.deeds.burned && forall x :: At(l.tokens, t, x) ==> x == HeldBy(pub))
  {
    var pub, t := r.content.accountId, r.content.body.token.value;
    FamilyHashes(f, r);
    LeafOf(l, r.hash);
    assert Sourced(f, r);
    var h := r.content.body.source.value;
    if h in l.allBlocks { SourceIsHanded(f, l, r); }
    var b := ClaimOn(l, pub, t, h, timestamp);
    ClaimIsAcceptedIff(l, pub, t, h, timestamp, ok);
    AcceptedClaimKeepsSingleIff(l, b, ok);
    ClaimedIsNotInFlight(l, r.hash, t);
  }

  lemma ClaimedIsNotInFlight(l: Ledger, claim: Hash, t: TokenId)
    requires NftClaimsIndexed(l) && claim in Leaves(l) && ClaimsNft(claim)
    ensures !At(l.tokens, t, InFlight(claim.content.body.source.value))
  {
    assert claim.content.body.source.value in ClaimedNftsOf(Leaves(l));
    assert l.tokens.unclaimed == OfferedNftsOf(Leaves(l), l.equivocated.Keys);
  }

  // ---------------------------------------------------------------- A burned token held again

  function AllInOrder(): seq<Step> {
    var r := Burning();
    Deliveries([r.minter[0], r.minter[1], r.minter[2], r.last[0], r.last[1], r.last[2]])
  }

  lemma AllInOrderIsCausal()
    ensures OwnOrder(BurningFamily(), AllInOrder()) && Causal(AllInOrder())
  {
    var f, r, all := BurningFamily(), Burning(), AllInOrder();
    assert InFamily(f, r.minter[0]) && InFamily(f, r.minter[1]) && InFamily(f, r.minter[2]);
    assert InFamily(f, r.last[0]) && InFamily(f, r.last[1]) && InFamily(f, r.last[2]);
    forall k | 0 <= k < |all|
      ensures all[k].Deliver? && InFamily(f, all[k].block)
      ensures all[k].block.content.index > 0 ==> exists j :: 0 <= j < k && PrecedesIn(f, all[j], all[k].block)
      ensures all[k].block.content.body.NftReceive? ==> exists j :: 0 <= j < k && DeliversSource(all[j], all[k].block)
    {
      if k == 1 { assert PrecedesIn(f, all[0], all[1].block); }
      if k == 2 { assert PrecedesIn(f, all[1], all[2].block); }
      if k == 4 { assert PrecedesIn(f, all[3], all[4].block) && DeliversSource(all[2], all[4].block); }
      if k == 5 { assert PrecedesIn(f, all[4], all[5].block); }
    }
  }

  /** A causal replay of two genuine chains after which a delivered block leaves its account holding a burned token. */
  lemma BurnedTokenIsHeldAgain()
    ensures exists f, steps, b ::
      && FamilyOk(f) && Genuine(f) && OwnOrder(f, steps) && Causal(steps)
      && HoldsBurned(Run(EMPTY_LEDGER, steps), b)
  {
    var f, r := BurningFamily(), Burning();
    BurningChainsOk();
    BurningIsGenuine();
    AllInOrderIsCausal();
    assert InFamily(f, r.last[1]) && InFamily(f, r.last[2]);
    var l := Run(EMPTY_LEDGER, AllInOrder());
    assert AllInOrder()[4] == Deliver(r.last[1], false) && AllInOrder()[5] == Deliver(r.last[2], false);
    SecondClaimIsAccepted(f, AllInOrder(), r.last[1], 0, false);
    BurnedInReplay(f, AllInOrder(), r.last[2]);
    assert HoldsBurned(l, ClaimOn(l, "last", TOKEN, r.minter[2].hash, 0));
  }

  /** The block is appended, and its account then holds a token that is burned. */
  predicate HoldsBurned(l: Ledger, b: Block) {
    && Judge(l, b, false) == Append && b.content.body.NftReceive? && b.content.body.token.Some?
    && b.content.body.token.value in l.tokens.deeds.burned
    && HoldsBy(AddBlock(l, b, false).tokens.deeds, b.content.body.token.value, b.content.accountId)
  }

  lemma BurnedInReplay(f: Family, steps: seq<Step>, burn: Block)
    requires FamilyOk(f) && Genuine(f) && OwnOrder(f, steps) && Causal(steps)
    requires burn in Delivered(steps) && InFamily(f, burn)
    requires burn.content.body.NftBurn? && burn.content.body.token.Some?
    ensures burn.content.body.token.value in Run(EMPTY_LEDGER, steps).tokens.deeds.burned
  {
    CausalReplayIsAccepted(f, steps);
    ReplayFollows(f, steps);
    DeliveredIsHeld(f, steps, burn);
    FamilyHashes(f, burn);
    assert Burns(burn.hash);
  }
}
