/** Which delivered blocks are appended, which count as already held and which fork, stated over the held chains, the
signed balances and the token owners. */
module Acceptance {
  import opened Prelude
  import opened Blocks
  import opened Ledgers
  import opened ChainIndex
  import opened Indexing
  import opened Replay
  import opened NftReplay
  import opened EmptySeats
  import opened Conservation

  // ---------------------------------------------------------------- Appending

  predicate Positive(amount: Option<int>) {
    amount.Some? && amount.value > 0
  }

  /** What the block's type asks of its account besides the balance: a send is covered, a receive or claim fits its
  source where that is known, a token is minted once and moved or burned by its named owner only, or under a transfer
  somebody already claimed, and storage blocks pass the provider rules. */
  predicate Entitled(l: Ledger, b: Block, storageOk: bool) {
    var pub := b.content.accountId;
    match b.content.body
    case Open(_) => true
    case Update(_) => true
    case Send(_, amount) => Positive(amount) && b.content.balance >= 0
    case Receive(source, amount) =>
      && Positive(amount)
      && (source.Some? && source.value in l.allBlocks ==>
            l.allBlocks[source.value].content.body == Send(Some(pub), amount))
    case NftMint(token, contentRef, _) =>
      && token.Some? && contentRef != ""
      && token.value !in l.tokens.info && token.value !in l.tokens.deeds.burned
    case NftSend(token, recipient) =>
      && token.Some? && recipient.Some?
      && ((token.value in l.tokens.deeds.owner && l.tokens.deeds.owner[token.value] == pub)
          || b.hash in l.tokens.claimed)
    case NftReceive(token, source) =>
      && token.Some? && source.Some?
      && (source.value in l.allBlocks ==> l.allBlocks[source.value].content.body == NftSend(token, Some(pub)))
    case NftBurn(token) =>
      token.Some? && token.value in l.tokens.deeds.owner && l.tokens.deeds.owner[token.value] == pub
    case StorageUpkeep(_) => storageOk
    case StorageSettle(amount) => Positive(amount) && storageOk
  }

  /** Signed by its account, which is not frozen and not held without a block, and the next link of its chain. */
  ghost predicate Linked(l: Ledger, b: Block) {
    && b.Authentic() && b.content.accountId !in l.equivocated && !SeatedEmpty(l, b.content.accountId)
    && NextLink(l, b)
  }

  /** A genesis is an `open` that mints exactly the opening amount; every later block moves the balance by its own
  credit and is entitled to what its type does. */
  predicate RuleHolds(l: Ledger, b: Block, storageOk: bool) {
    if b.content.index == 0 then b.content.body.Open? && b.content.balance == MINT
    else
      && Head(l, b.content.accountId).Some?
      && b.content.balance == Head(l, b.content.accountId).value.content.balance + Credit(b.hash)
      && Entitled(l, b, storageOk)
  }

  lemma AppendedIsLinked(l: Ledger, b: Block, ok: bool)
    requires ChainsOk(l) && Judge(l, b, ok) == Append
    ensures Linked(l, b)
  {
    AppendIsNextLink(l, b, ok);
    AppendLeavesNoSeat(l, b, ok);
  }

  lemma LinkedHead(l: Ledger, b: Block)
    requires ChainsOk(l) && Linked(l, b)
    ensures b.content.index == |ChainOf(l, b.content.accountId)|
    ensures b.content.index == 0 <==> b.content.accountId !in l.held
    ensures b.content.index > 0 ==>
      var head := Head(l, b.content.accountId);
      && head.Some? && b.content.previousHash == head.value.hash == ContentHash(head.value.content)
      && head.value.content.index == b.content.index - 1 && b.root == l.held[b.content.accountId].acc + [b.hash]
  {
    var pub := b.content.accountId;
    if pub in l.held {
      var h := l.held[pub];
      assert ChainOk(pub, h);
      assert PlaceOk(pub, h, |h.chain| - 1);
    }
  }

  lemma RuleIsBodyError(l: Ledger, head: Block, b: Block, ok: bool)
    requires head.hash == ContentHash(head.content) == b.content.previousHash && b.content.index > 0
    requires b.hash == ContentHash(b.content)
    ensures BodyError(l, head, b, ok).None? <==>
      b.content.balance == head.content.balance + Credit(b.hash) && Entitled(l, b, ok)
  {}

  /** A delivered block is appended exactly when it is the signed next link of an unfrozen account's chain and obeys
  the rule of its type. */
  lemma AppendedIff(l: Ledger, b: Block, ok: bool)
    requires ChainsOk(l)
    ensures Judge(l, b, ok) == Append <==> Linked(l, b) && RuleHolds(l, b, ok)
  {
    if Judge(l, b, ok) == Append { AppendedIsLinked(l, b, ok); }
    if Linked(l, b) {
      LinkedHead(l, b);
      if b.content.index > 0 { RuleIsBodyError(l, Head(l, b.content.accountId).value, b, ok); }
    }
  }

  // ---------------------------------------------------------------- Repeats and forks

  /** The delivered block is judged against the held one at its height: signed, not frozen, and if it is a genesis,
  a well-formed one. */
  predicate ReachesHeld(l: Ledger, b: Block) {
    && b.Authentic() && b.content.accountId !in l.equivocated
    && 0 <= b.content.index < |ChainOf(l, b.content.accountId)|
    && (b.content.index == 0 ==> WellFormedGenesis(b))
  }

  /** A delivered block is reported as held exactly when it is the held one at its height, and as a fork of the held
  one when that has another hash; nothing changes in the first case, and only the fork sibling is kept in the other. */
  lemma HeldOrForkIff(l: Ledger, b: Block, ok: bool)
    requires ChainsOk(l)
    ensures
      var chain, i := ChainOf(l, b.content.accountId), b.content.index;
      && (Judge(l, b, ok) == Repeat <==> ReachesHeld(l, b) && chain[i].hash == b.hash)
      && (Judge(l, b, ok).Fork? <==> ReachesHeld(l, b) && chain[i].hash != b.hash)
      && (Judge(l, b, ok).Fork? ==>
            && Judge(l, b, ok).rival == chain[i] && !Judge(l, b, ok).Outcome().Success()
            && AddBlock(l, b, ok).held == l.held && AddBlock(l, b, ok).allBlocks == l.allBlocks[b.hash := b])
      && (Judge(l, b, ok) == Repeat ==> Judge(l, b, ok).Outcome().Success() && AddBlock(l, b, ok) == l)
  {
    var pub := b.content.accountId;
    if pub in l.held && l.held[pub].chain != [] {
      var h := l.held[pub];
      assert ChainOk(pub, h);
      assert PlaceOk(pub, h, |h.chain| - 1);
      if 0 <= b.content.index < |h.chain| { assert PlaceOk(pub, h, b.content.index); }
    }
  }

  /** Every other block is turned away without a trace, except a genesis that seats its account empty. */
  lemma OthersLeaveNoTrace(l: Ledger, b: Block, ok: bool)
    requires ChainsOk(l) && !(Linked(l, b) && RuleHolds(l, b, ok)) && !ReachesHeld(l, b)
    requires !SeatsEmptyChain(l, Deliver(b, ok), b.content.accountId)
    ensures AddBlock(l, b, ok) == l && !Judge(l, b, ok).Outcome().Success()
  {
    AppendedIff(l, b, ok);
    HeldOrForkIff(l, b, ok);
    StepSeatsEmptyIff(l, Deliver(b, ok), b.content.accountId);
  }

  // ---------------------------------------------------------------- Reasons

  /** The complaint a refusal makes about a block. */
  predicate Complaint(l: Ledger, b: Block, why: Refusal) {
    var pub, c, chain := b.content.accountId, b.content, ChainOf(l, b.content.accountId);
    match why
    case ContentHashMismatch => b.hash != ContentHash(c)
    case InvalidSignature => b.signature != Signed(pub, b.hash, b.root)
    case AccountEquivocated => pub in l.equivocated
    case BadGenesis => c.index == 0 && !(c.body.Open? && c.previousHash == GenesisPrev)
    case WrongMint => c.index == 0 && c.balance != MINT
    case ConflictingOpen => false
    case MissingPriorChain => c.index != 0 && pub !in l.held
    case StaleOrConflicting => c.index < 0
    case NonSequential => c.index > |chain| > 0
    case PreviousHashMismatch => c.index == |chain| > 0 && c.previousHash != chain[|chain| - 1].hash
    case AmountNotPositive =>
      (c.body.Send? || c.body.Receive? || c.body.StorageSettle?) && !Positive(c.body.amount)
    case BalanceInconsistent =>
      && chain != []
      && (c.balance != chain[|chain| - 1].content.balance + Credit(b.hash) || (c.body.Send? && c.balance < 0))
    case SourceMismatch =>
      && (c.body.Receive? || c.body.NftReceive?) && c.body.source.Some? && c.body.source.value in l.allBlocks
      && l.allBlocks[c.body.source.value].content.body !=
           if c.body.Receive? then Send(Some(pub), c.body.amount) else NftSend(c.body.token, Some(pub))
    case FieldMissing =>
      || (c.body.NftMint? && (c.body.token.None? || c.body.contentRef == ""))
      || (c.body.NftSend? && (c.body.token.None? || c.body.recipient.None?))
      || (c.body.NftReceive? && (c.body.token.None? || c.body.source.None?))
      || (c.body.NftBurn? && c.body.token.None?)
    case TokenExists =>
      && c.body.NftMint? && c.body.token.Some?
      && (c.body.token.value in l.tokens.info || c.body.token.value in l.tokens.deeds.burned)
    case NotTheOwner =>
      && (c.body.NftSend? || c.body.NftBurn?) && c.body.token.Some?
      && (c.body.token.value !in l.tokens.deeds.owner || l.tokens.deeds.owner[c.body.token.value] != pub)
    case ProviderRefused => c.body.StorageUpkeep? || c.body.StorageSettle?
    case RootMismatch => pub in l.held && b.root != l.held[pub].acc + [b.hash]
  }

  lemma BodyReasonIsTrue(l: Ledger, head: Block, b: Block, ok: bool)
    requires b.content.index == |ChainOf(l, b.content.accountId)| > 0 && BodyError(l, head, b, ok).Some?
    requires head == ChainOf(l, b.content.accountId)[b.content.index - 1]
    requires head.hash == ContentHash(head.content) == b.content.previousHash && b.hash == ContentHash(b.content)
    ensures Complaint(l, b, BodyError(l, head, b, ok).value)
    ensures BodyError(l, head, b, ok).value == ProviderRefused ==> !ok
  {}

  /** A refusal gives a reason that is true of the block. */
  lemma ReasonsAreTrue(l: Ledger, b: Block, ok: bool)
    requires ChainsOk(l) && Judge(l, b, ok).Refuse?
    ensures Complaint(l, b, Judge(l, b, ok).reason)
    ensures Judge(l, b, ok).reason == ProviderRefused ==> !ok
  {
    var pub := b.content.accountId;
    if pub in l.held && l.held[pub].chain != [] {
      var h := l.held[pub];
      assert ChainOk(pub, h);
      assert PlaceOk(pub, h, |h.chain| - 1);
      var head := h.chain[|h.chain| - 1];
      if b.hash == ContentHash(b.content) && b.content.index == |h.chain| && b.content.previousHash == head.hash
         && BodyError(l, head, b, ok).Some? {
        BodyReasonIsTrue(l, head, b, ok);
      } else if b.hash == ContentHash(b.content) && b.signature == Signed(pub, b.hash, b.root) {
        LinkReasonIsTrue(l, b, ok);
      }
    }
  }

  lemma LinkReasonIsTrue(l: Ledger, b: Block, ok: bool)
    requires ChainsOk(l) && Judge(l, b, ok).Refuse? && ChainOf(l, b.content.accountId) != [] && b.Authentic()
    requires
      var chain := ChainOf(l, b.content.accountId);
      var head := chain[|chain| - 1];
      && head.content.index == |chain| - 1
      && (b.content.index == |chain| && b.content.previousHash == head.hash ==> BodyError(l, head, b, ok).None?)
    ensures Complaint(l, b, Judge(l, b, ok).reason) && Judge(l, b, ok).reason != ProviderRefused
  {}

  // ---------------------------------------------------------------- Tokens

  function Carrying(l: Ledger, pub: AccountId, timestamp: int, body: Body): Block
    requires Head(l, pub).Some?
  {
    NextBlock(l, pub, pub, timestamp, Head(l, pub).value.content.balance, body)
  }

  lemma CarryingIsLinked(l: Ledger, pub: AccountId, timestamp: int, body: Body)
    requires ChainsOk(l) && Head(l, pub).Some? && pub !in l.equivocated
    ensures Linked(l, Carrying(l, pub, timestamp, body)) && Carrying(l, pub, timestamp, body).content.index > 0
  {
    assert ChainOk(pub, l.held[pub]);
    assert PlaceOk(pub, l.held[pub], |l.held[pub].chain| - 1);
  }

  /** A well-formed delivered transfer is accepted exactly from the named owner, or when its hash was claimed. */
  lemma TransferIsAcceptedIff(l: Ledger, pub: AccountId, t: TokenId, to: AccountId, timestamp: int, ok: bool)
    requires ChainsOk(l) && Head(l, pub).Some? && pub !in l.equivocated
    ensures
      var b := Carrying(l, pub, timestamp, NftSend(Some(t), Some(to)));
      && (Judge(l, b, ok) == Append <==>
            (t in l.tokens.deeds.owner && l.tokens.deeds.owner[t] == pub) || b.hash in l.tokens.claimed)
      && (Judge(l, b, ok) != Append ==> Judge(l, b, ok) == Refuse(NotTheOwner))
  {
    CarryingIsLinked(l, pub, timestamp, NftSend(Some(t), Some(to)));
    AppendedIff(l, Carrying(l, pub, timestamp, NftSend(Some(t), Some(to))), ok);
    LinkedHead(l, Carrying(l, pub, timestamp, NftSend(Some(t), Some(to))));
  }

  /** A delivered burn is accepted exactly from the named owner. */
  lemma BurnIsAcceptedIff(l: Ledger, pub: AccountId, t: TokenId, timestamp: int, ok: bool)
    requires ChainsOk(l) && Head(l, pub).Some? && pub !in l.equivocated
    ensures
      var b := Carrying(l, pub, timestamp, NftBurn(Some(t)));
      && (Judge(l, b, ok) == Append <==> t in l.tokens.deeds.owner && l.tokens.deeds.owner[t] == pub)
      && (Judge(l, b, ok) != Append ==> Judge(l, b, ok) == Refuse(NotTheOwner))
  {
    CarryingIsLinked(l, pub, timestamp, NftBurn(Some(t)));
    AppendedIff(l, Carrying(l, pub, timestamp, NftBurn(Some(t))), ok);
    LinkedHead(l, Carrying(l, pub, timestamp, NftBurn(Some(t))));
  }

  /** A well-formed delivered mint is accepted exactly when its token has neither a record nor a burn. */
  lemma MintIsAcceptedIff(l: Ledger, pub: AccountId, t: TokenId, contentRef: string, meta: map<string, string>,
                          timestamp: int, ok: bool)
    requires ChainsOk(l) && Head(l, pub).Some? && pub !in l.equivocated && contentRef != ""
    ensures
      var b := Carrying(l, pub, timestamp, NftMint(Some(t), contentRef, meta));
      && (Judge(l, b, ok) == Append <==> t !in l.tokens.info && t !in l.tokens.deeds.burned)
      && (Judge(l, b, ok) != Append ==> Judge(l, b, ok) == Refuse(TokenExists))
  {
    CarryingIsLinked(l, pub, timestamp, NftMint(Some(t), contentRef, meta));
    AppendedIff(l, Carrying(l, pub, timestamp, NftMint(Some(t), contentRef, meta)), ok);
    LinkedHead(l, Carrying(l, pub, timestamp, NftMint(Some(t), contentRef, meta)));
  }

  /** The token is nobody's: every transfer nobody claimed yet and every burn of it is refused, whoever signs. */
  predicate Untouchable(l: Ledger, t: TokenId) {
    t !in l.tokens.deeds.owner
  }

  lemma UntouchableIsRefused(l: Ledger, b: Block, ok: bool)
    requires ChainsOk(l)
    requires
      || (b.content.body.NftSend? && b.hash !in l.tokens.claimed && b.content.body.token.Some?
          && Untouchable(l, b.content.body.token.value))
      || (b.content.body.NftBurn? && b.content.body.token.Some? && Untouchable(l, b.content.body.token.value))
    ensures Judge(l, b, ok) != Append
  {
    AppendedIff(l, b, ok);
  }

  lemma PlacedIsOwnedBy(l: Ledger, t: TokenId)
    requires OwnersOk(l.tokens.deeds)
    ensures t in l.tokens.deeds.owner ==> HoldsBy(l.tokens.deeds, t, l.tokens.deeds.owner[t])
  {
    assert OwnerOkFor(l.tokens.deeds, t);
    if t in l.tokens.deeds.owner { HolderIsFound(RowsOf(l.tokens.deeds, t), l.tokens.deeds.owner[t]); }
  }

  /** A token on its way belongs to nobody: while a transfer of it is unclaimed it cannot be sent again, by its sender
  or anyone else, nor burned. */
  lemma InFlightIsUntouchable(l: Ledger, t: TokenId, h: Hash)
    requires OwnersOk(l.tokens.deeds) && Single(l.tokens)
    requires h in l.tokens.unclaimed && l.tokens.unclaimed[h].token == t
    ensures Untouchable(l, t)
  {
    PlacedIsOwnedBy(l, t);
    assert PlacedOnce(l.tokens, t);
    assert At(l.tokens, t, InFlight(h));
    if t in l.tokens.deeds.owner { assert At(l.tokens, t, HeldBy(l.tokens.deeds.owner[t])); }
  }

  /** So a second transfer of a token in flight is refused: the first one stays the only one on offer. */
  lemma SentTokenIsNotSentAgain(l: Ledger, pub: AccountId, t: TokenId, h: Hash, to: AccountId, timestamp: int, ok: bool)
    requires Indexed(l) && Single(l.tokens) && Head(l, pub).Some? && pub !in l.equivocated
    requires h in l.tokens.unclaimed && l.tokens.unclaimed[h].token == t
    requires Carrying(l, pub, timestamp, NftSend(Some(t), Some(to))).hash !in l.tokens.claimed
    ensures Judge(l, Carrying(l, pub, timestamp, NftSend(Some(t), Some(to))), ok) == Refuse(NotTheOwner)
    ensures Judge(l, Carrying(l, pub, timestamp, NftBurn(Some(t))), ok) == Refuse(NotTheOwner)
  {
    InFlightIsUntouchable(l, t, h);
    TransferIsAcceptedIff(l, pub, t, to, timestamp, ok);
    BurnIsAcceptedIff(l, pub, t, timestamp, ok);
  }
}
