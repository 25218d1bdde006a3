/** The ledger as the object it is: fields updated in place by its methods, early returns and all.

Each method is proved to leave the object in the state the function of `Ledgers` gives for that call, and to
report the outcome that function gives; the theorems about runs of those functions are theorems about runs
of these methods.
 */
module EngineLedgers {
  import opened Prelude
  import opened Blocks
  import opened Ledgers

  class EngineLedger {
    var held: map<AccountId, Held>
    var unclaimedSends: map<Hash, Transfer>
    var claimedSends: set<Hash>
    var claimedNftTransfers: set<Hash>
    var nftOwner: map<TokenId, AccountId>
    var nftCustody: map<TokenId, seq<CustodyRow>>
    var nftInfo: map<TokenId, TokenInfo>
    var unclaimedNftTransfers: map<Hash, NftTransfer>
    var burnedNfts: set<TokenId>
    var equivocated: map<AccountId, Evidence>
    var allBlocks: map<Hash, Block>

    ghost function ViewDeeds(): Deeds
      reads this
    {
      Deeds(nftOwner, nftCustody, burnedNfts)
    }

    ghost function ViewTokens(): Tokens
      reads this
    {
      Tokens(ViewDeeds(), nftInfo, unclaimedNftTransfers, claimedNftTransfers)
    }

    /** The object's state as a value. */
    ghost function View(): Ledger
      reads this
    {
      Ledger(held, Payments(unclaimedSends, claimedSends), ViewTokens(), equivocated, allBlocks)
    }

    constructor ()
      ensures View() == EMPTY_LEDGER
    {
      held, unclaimedSends, claimedSends, claimedNftTransfers := map[], map[], {}, {};
      nftOwner, nftCustody, nftInfo, unclaimedNftTransfers, burnedNfts := map[], map[], map[], map[], {};
      equivocated, allBlocks := map[], map[];
    }

    method Reset()
      modifies this
      ensures View() == EMPTY_LEDGER
    {
      held, unclaimedSends, claimedSends, claimedNftTransfers := map[], map[], {}, {};
      nftOwner, nftCustody, nftInfo, unclaimedNftTransfers, burnedNfts := map[], map[], map[], map[], {};
      equivocated, allBlocks := map[], map[];
    }

    method GetAccountHead(pub: AccountId) returns (head: Option<Block>)
      ensures head == Head(View(), pub)
    {
      if pub !in held || held[pub].chain == [] { return None; }
      return Some(held[pub].chain[|held[pub].chain| - 1]);
    }

    /** A frozen account's balance is void, and an account not held reads 0. */
    method GetAccountBalance(pub: AccountId) returns (balance: int)
      ensures pub in equivocated || Head(View(), pub).None? ==> balance == 0
      ensures pub !in equivocated && Head(View(), pub).Some? ==> balance == Head(View(), pub).value.content.balance
    {
      if pub in equivocated { return 0; }
      var head := GetAccountHead(pub);
      return if head.Some? then head.value.content.balance else 0;
    }

    // -------------------------------------------------------------- Token bookkeeping

    method RecomputeOwner(token: TokenId)
      modifies this`nftOwner
      ensures ViewDeeds() == RecomputeNftOwner(old(ViewDeeds()), token)
    {
      if token in burnedNfts { nftOwner := nftOwner - {token}; return; }
      if token !in nftCustody { return; }
      var holders := Holders(nftCustody[token]);
      if |holders| == 1 { nftOwner := nftOwner[token := holders[0]]; return; }
      if |holders| == 0 { nftOwner := nftOwner - {token}; return; }
      if token !in nftOwner || nftOwner[token] !in holders {
        nftOwner := nftOwner[token := holders[|holders| - 1]];
      }
    }

    method RecordCustody(token: TokenId, account: AccountId, index: int, holds: bool)
      modifies this`nftOwner, this`nftCustody
      ensures ViewDeeds() == RecordNftCustody(old(ViewDeeds()), token, CustodyRow(account, index, holds))
    {
      if token !in nftCustody { nftCustody := nftCustody[token := []]; }
      var prev := FindRow(nftCustody[token], account);
      if prev.Some? && prev.value.index >= index { return; }
      nftCustody := nftCustody[token := SetRow(nftCustody[token], CustodyRow(account, index, holds))];
      assert nftCustody == old(nftCustody)[token :=
        SetRow(RowsOf(old(ViewDeeds()), token), CustodyRow(account, index, holds))];
      RecomputeOwner(token);
    }

    method ApplyNftMint(b: Block)
      requires b.content.body.NftMint?
      modifies this
      ensures View() == old(View()).(tokens := ApplyTokens(old(ViewTokens()), b))
    {
      var body := b.content.body;
      if body.token.None? || body.contentRef == "" { return; }
      nftInfo := nftInfo[body.token.value := TokenInfo(b.content.accountId, body.contentRef, body.meta)];
      RecordCustody(body.token.value, b.content.accountId, b.content.index, true);
    }

    method ApplyNftSend(b: Block)
      requires b.content.body.NftSend?
      modifies this
      ensures View() == old(View()).(tokens := ApplyTokens(old(ViewTokens()), b))
    {
      var body := b.content.body;
      if body.token.None? || body.recipient.None? { return; }
      RecordCustody(body.token.value, b.content.accountId, b.content.index, false);
      if b.hash !in claimedNftTransfers {
        unclaimedNftTransfers := unclaimedNftTransfers[b.hash :=
          NftTransfer(body.token.value, b.content.accountId, body.recipient.value)];
      }
    }

    method ApplyNftReceive(b: Block)
      requires b.content.body.NftReceive?
      modifies this
      ensures View() == old(View()).(tokens := ApplyTokens(old(ViewTokens()), b))
    {
      var body := b.content.body;
      if body.token.None? { return; }
      if body.source.Some? {
        claimedNftTransfers := claimedNftTransfers + {body.source.value};
        unclaimedNftTransfers := unclaimedNftTransfers - {body.source.value};
      }
      RecordCustody(body.token.value, b.content.accountId, b.content.index, true);
    }

    method ApplyNftBurn(b: Block)
      requires b.content.body.NftBurn?
      modifies this
      ensures View() == old(View()).(tokens := ApplyTokens(old(ViewTokens()), b))
    {
      var body := b.content.body;
      if body.token.None? { return; }
      burnedNfts := burnedNfts + {body.token.value};
      RecordCustody(body.token.value, b.content.accountId, b.content.index, false);
      nftOwner := nftOwner - {body.token.value};
    }

    // -------------------------------------------------------------- Block creation

    /** Build the next block on the account's head and push it. */
    method PushNext(pub: AccountId, signer: AccountId, timestamp: int, balance: int, body: Body) returns (b: Block)
      requires Head(View(), pub).Some?
      modifies this`held, this`allBlocks
      ensures b == NextBlock(old(View()), pub, signer, timestamp, balance, body)
      ensures View() == Retain(Extend(old(View()), b), b)
    {
      var h := held[pub];
      var head := h.chain[|h.chain| - 1];
      b := MakeBlock(Content(pub, head.content.index + 1, head.hash, timestamp, balance, body), h.acc, signer);
      held := held[pub := Held(h.chain + [b], h.acc + [b.hash])];
      allBlocks := allBlocks[b.hash := b];
    }

    method OpenAccount(pub: AccountId, signer: AccountId, timestamp: int, commitment: string, identityOk: bool)
      returns (r: Option<Block>)
      modifies this
      ensures r == Created(old(View()), Step.OpenAccount(pub, signer, timestamp, commitment, identityOk))
      ensures View() == Next(old(View()), Step.OpenAccount(pub, signer, timestamp, commitment, identityOk))
    {
      if pub in held { return None; }
      if !identityOk { return None; }
      var b := OpenBlock(pub, signer, commitment, timestamp);
      held := held[pub := Held([b], [b.hash])];
      allBlocks := allBlocks[b.hash := b];
      assert [] + [b] == [b] && [] + [b.hash] == [b.hash];
      assert held == Extend(old(View()), b).held;
      return Some(b);
    }

    method CreateSend(pub: AccountId, signer: AccountId, timestamp: int, recipient: Option<AccountId>, amount: int,
                      bonded: nat)
      returns (r: Option<Block>)
      modifies this
      ensures r == Created(old(View()), Step.CreateSend(pub, signer, timestamp, recipient, amount, bonded))
      ensures View() == Next(old(View()), Step.CreateSend(pub, signer, timestamp, recipient, amount, bonded))
    {
      if recipient.None? { return None; }
      var head := GetAccountHead(pub);
      if head.None? { return None; }
      if amount <= 0 { return None; }
      var available := head.value.content.balance - bonded;
      if available < amount { return None; }
      var b := PushNext(pub, signer, timestamp, head.value.content.balance - amount, Send(recipient, Some(amount)));
      unclaimedSends := unclaimedSends[b.hash := Transfer(pub, recipient.value, amount)];
      return Some(b);
    }

    method CreateReceive(pub: AccountId, signer: AccountId, timestamp: int, source: Hash) returns (r: Option<Block>)
      modifies this
      ensures r == Created(old(View()), Step.CreateReceive(pub, signer, timestamp, source))
      ensures View() == Next(old(View()), Step.CreateReceive(pub, signer, timestamp, source))
    {
      if source !in unclaimedSends { return None; }
      var unclaimed := unclaimedSends[source];
      if unclaimed.toPub != pub { return None; }
      var head := GetAccountHead(pub);
      if head.None? { return None; }
      var b := PushNext(pub, signer, timestamp, head.value.content.balance + unclaimed.amount,
                        Receive(Some(source), Some(unclaimed.amount)));
      claimedSends := claimedSends + {source};
      unclaimedSends := unclaimedSends - {source};
      return Some(b);
    }

    method CreateUpdate(pub: AccountId, signer: AccountId, timestamp: int, updates: map<string, string>)
      returns (r: Option<Block>)
      modifies this
      ensures r == Created(old(View()), Step.CreateUpdate(pub, signer, timestamp, updates))
      ensures View() == Next(old(View()), Step.CreateUpdate(pub, signer, timestamp, updates))
    {
      var head := GetAccountHead(pub);
      if head.None? { return None; }
      if pub in equivocated { return None; }
      if updates == map[] { return None; }
      var b := PushNext(pub, signer, timestamp, head.value.content.balance, Update(updates));
      return Some(b);
    }

    method CreateMintNft(pub: AccountId, signer: AccountId, timestamp: int, contentRef: string,
                         meta: map<string, string>)
      returns (r: Option<Block>)
      modifies this
      ensures r == Created(old(View()), Step.CreateMint(pub, signer, timestamp, contentRef, meta))
      ensures View() == Next(old(View()), Step.CreateMint(pub, signer, timestamp, contentRef, meta))
    {
      var head := GetAccountHead(pub);
      if head.None? { return None; }
      if pub in equivocated { return None; }
      if contentRef == "" { return None; }
      var token := MintedToken(pub, head.value.content.index + 1, contentRef);
      var b := PushNext(pub, signer, timestamp, head.value.content.balance, NftMint(Some(token), contentRef, meta));
      ApplyNftMint(b);
      return Some(b);
    }

    /** The source dereferences the head of the owner's chain; an owner without one would throw there, which
    `Custody.OwnersAreHeld` rules out in every run. */
    method CreateTransferNft(pub: AccountId, signer: AccountId, timestamp: int, token: TokenId,
                             recipient: Option<AccountId>)
      returns (r: Option<Block>)
      modifies this
      ensures r == Created(old(View()), Step.CreateTransfer(pub, signer, timestamp, token, recipient))
      ensures View() == Next(old(View()), Step.CreateTransfer(pub, signer, timestamp, token, recipient))
    {
      if recipient.None? { return None; }
      if pub in equivocated { return None; }
      if token !in nftOwner || nftOwner[token] != pub { return None; }
      var head := GetAccountHead(pub);
      if head.None? { return None; }
      var b := PushNext(pub, signer, timestamp, head.value.content.balance, NftSend(Some(token), recipient));
      ApplyNftSend(b);
      return Some(b);
    }

    method CreateReceiveNft(pub: AccountId, signer: AccountId, timestamp: int, source: Hash) returns (r: Option<Block>)
      modifies this
      ensures r == Created(old(View()), Step.CreateReceiveNft(pub, signer, timestamp, source))
      ensures View() == Next(old(View()), Step.CreateReceiveNft(pub, signer, timestamp, source))
    {
      if pub in equivocated { return None; }
      if source !in unclaimedNftTransfers { return None; }
      var unclaimed := unclaimedNftTransfers[source];
      if unclaimed.toPub != pub { return None; }
      var head := GetAccountHead(pub);
      if head.None? { return None; }
      var b :=
        PushNext(pub, signer, timestamp, head.value.content.balance, NftReceive(Some(unclaimed.token), Some(source)));
      ApplyNftReceive(b);
      return Some(b);
    }

    method CreateBurnNft(pub: AccountId, signer: AccountId, timestamp: int, token: TokenId) returns (r: Option<Block>)
      modifies this
      ensures r == Created(old(View()), Step.CreateBurn(pub, signer, timestamp, token))
      ensures View() == Next(old(View()), Step.CreateBurn(pub, signer, timestamp, token))
    {
      if pub in equivocated { return None; }
      if token !in nftOwner || nftOwner[token] != pub { return None; }
      var head := GetAccountHead(pub);
      if head.None? { return None; }
      var b := PushNext(pub, signer, timestamp, head.value.content.balance, NftBurn(Some(token)));
      ApplyNftBurn(b);
      return Some(b);
    }

    // -------------------------------------------------------------- Freezing

    /** Delete the account's sends on offer, one by one. */
    method VoidSends(pub: AccountId)
      modifies this`unclaimedSends
      ensures unclaimedSends == map h | h in old(unclaimedSends) && old(unclaimedSends)[h].fromPub != pub ::
        old(unclaimedSends)[h]
    {
      var todo := unclaimedSends.Keys;
      while todo != {}
        invariant todo <= unclaimedSends.Keys <= old(unclaimedSends).Keys
        invariant forall h :: h in unclaimedSends ==> unclaimedSends[h] == old(unclaimedSends)[h]
        invariant forall h :: h in old(unclaimedSends) ==>
          (h in unclaimedSends <==> h in todo || old(unclaimedSends)[h].fromPub != pub)
        decreases todo
      {
        var h :| h in todo;
        if unclaimedSends[h].fromPub == pub { unclaimedSends := unclaimedSends - {h}; }
        todo := todo - {h};
      }
    }

    /** Delete the account's token transfers on offer, one by one. */
    method VoidNftTransfers(pub: AccountId)
      modifies this`unclaimedNftTransfers
      ensures unclaimedNftTransfers ==
        map h | h in old(unclaimedNftTransfers) && old(unclaimedNftTransfers)[h].fromPub != pub ::
          old(unclaimedNftTransfers)[h]
    {
      var todo := unclaimedNftTransfers.Keys;
      while todo != {}
        invariant todo <= unclaimedNftTransfers.Keys <= old(unclaimedNftTransfers).Keys
        invariant forall h :: h in unclaimedNftTransfers ==> unclaimedNftTransfers[h] == old(unclaimedNftTransfers)[h]
        invariant forall h :: h in old(unclaimedNftTransfers) ==>
          (h in unclaimedNftTransfers <==> h in todo || old(unclaimedNftTransfers)[h].fromPub != pub)
        decreases todo
      {
        var h :| h in todo;
        if unclaimedNftTransfers[h].fromPub == pub { unclaimedNftTransfers := unclaimedNftTransfers - {h}; }
        todo := todo - {h};
      }
    }

    method FreezeEquivocator(ev: Evidence) returns (newly: bool)
      modifies this
      ensures View() == Freeze(old(View()), ev)
      ensures newly <==> ev.first.content.accountId !in old(equivocated)
    {
      var pub := ev.first.content.accountId;
      if pub in equivocated { return false; }
      equivocated := equivocated[pub := ev];
      VoidSends(pub);
      VoidNftTransfers(pub);
      return true;
    }

    method FlagEquivocation(a: Block, b: Block)
      modifies this
      ensures View() == Flag(old(View()), a, b)
    {
      if DoubleSpend(a, b) { var _ := FreezeEquivocator(Evidence(a, b)); }
    }

    method ApplyEvidenceFromBlocks(a: Block, b: Block) returns (newly: bool)
      modifies this
      ensures View() == Next(old(View()), ApplyEvidence(a, b))
      ensures newly <==> a.content.accountId !in old(equivocated) && a.content.accountId in equivocated
    {
      if !DoubleSpend(a, b) { return false; }
      if !a.Authentic() || !b.Authentic() { return false; }
      newly := FreezeEquivocator(Evidence(a, b));
    }

    // -------------------------------------------------------------- Remote blocks

    /** Index an appended block. */
    method IndexBlock(b: Block)
      modifies this
      ensures View() == old(View()).(
        payments := ApplyPayments(old(View()).payments, b), tokens := ApplyTokens(old(ViewTokens()), b))
    {
      var body := b.content.body;
      if body.Send? && body.recipient.Some? && body.amount.Some? {
        if b.hash !in claimedSends {
          unclaimedSends :=
            unclaimedSends[b.hash := Transfer(b.content.accountId, body.recipient.value, body.amount.value)];
        }
      } else if body.Receive? && body.source.Some? {
        claimedSends := claimedSends + {body.source.value};
        unclaimedSends := unclaimedSends - {body.source.value};
      } else if body.NftMint? {
        ApplyNftMint(b);
      } else if body.NftSend? {
        ApplyNftSend(b);
      } else if body.NftReceive? {
        ApplyNftReceive(b);
      } else if body.NftBurn? {
        ApplyNftBurn(b);
      }
    }

    /** The per-type rules above the genesis, in the order they are checked. */
    method CheckBody(head: Block, b: Block, storageOk: bool) returns (err: Option<Refusal>)
      ensures err == BodyError(View(), head, b, storageOk)
    {
      var body, pub := b.content.body, b.content.accountId;
      var balance, before := b.content.balance, head.content.balance;
      if body.Update? && balance != before { return Some(BalanceInconsistent); }
      if body.Send? {
        if body.amount.None? || body.amount.value <= 0 { return Some(AmountNotPositive); }
        if balance < 0 || balance != before - body.amount.value { return Some(BalanceInconsistent); }
      }
      if body.Receive? {
        if body.amount.None? || body.amount.value <= 0 { return Some(AmountNotPositive); }
        if balance != before + body.amount.value { return Some(BalanceInconsistent); }
        if body.source.Some? && body.source.value in allBlocks {
          var src := allBlocks[body.source.value];
          var paid := src.content.body;
          if !paid.Send? || paid.recipient != Some(pub) || paid.amount != body.amount {
            return Some(SourceMismatch);
          }
        }
      }
      if body.NftMint? {
        if balance != before { return Some(BalanceInconsistent); }
        if body.token.None? || body.contentRef == "" { return Some(FieldMissing); }
        if body.token.value in nftInfo || body.token.value in burnedNfts { return Some(TokenExists); }
      }
      if body.NftSend? {
        if balance != before { return Some(BalanceInconsistent); }
        if body.token.None? || body.recipient.None? { return Some(FieldMissing); }
        var owned := body.token.value in nftOwner && nftOwner[body.token.value] == pub;
        if !owned && b.hash !in claimedNftTransfers { return Some(NotTheOwner); }
      }
      if body.NftReceive? {
        if balance != before { return Some(BalanceInconsistent); }
        if body.token.None? || body.source.None? { return Some(FieldMissing); }
        if body.source.value in allBlocks {
          var src := allBlocks[body.source.value];
          var handed := src.content.body;
          if !handed.NftSend? || handed.recipient != Some(pub) || handed.token != body.token {
            return Some(SourceMismatch);
          }
        }
      }
      if body.NftBurn? {
        if balance != before { return Some(BalanceInconsistent); }
        if body.token.None? { return Some(FieldMissing); }
        if body.token.value !in nftOwner || nftOwner[body.token.value] != pub { return Some(NotTheOwner); }
      }
      if body.StorageUpkeep? && balance != before { return Some(BalanceInconsistent); }
      if body.StorageSettle? {
        if body.amount.None? || body.amount.value <= 0 { return Some(AmountNotPositive); }
        if balance != before + body.amount.value { return Some(BalanceInconsistent); }
      }
      if (body.StorageUpkeep? || body.StorageSettle?) && !storageOk { return Some(ProviderRefused); }
      return None;
    }

    /** A different block is held where `b` would go: flag the pair and keep `b` for the committees. */
    method RetainSibling(existing: Block, b: Block)
      modifies this
      ensures View() == Retain(Flag(old(View()), existing, b), b)
    {
      FlagEquivocation(existing, b);
      allBlocks := allBlocks[b.hash := b];
    }

    /** Push an accepted block on `h` and index it. */
    method PushAccepted(h: Held, b: Block)
      requires h == if b.content.accountId in held then held[b.content.accountId] else Held([], [])
      modifies this
      ensures View() == Applied(old(View()), b)
    {
      held := held[b.content.accountId := Held(h.chain + [b], h.acc + [b.hash])];
      IndexBlock(b);
      allBlocks := allBlocks[b.hash := b];
    }

    method AddGenesis(b: Block) returns (outcome: Outcome)
      modifies this
      ensures outcome == JudgeGenesis(old(View()), b).Outcome()
      ensures View() == Enact(old(View()), b, JudgeGenesis(old(View()), b))
    {
      var pub := b.content.accountId;
      if !b.content.body.Open? || b.content.previousHash != GenesisPrev { return Refused(BadGenesis); }
      if b.content.balance != MINT { return Refused(WrongMint); }
      if pub in held {
        if held[pub].chain == [] { return Threw; }
        if held[pub].chain[0].hash == b.hash { return AlreadyHeld; }
        RetainSibling(held[pub].chain[0], b);
        return Refused(ConflictingOpen);
      }
      held := held[pub := Held([], [])];
      if [b.hash] != b.root { return Refused(RootMismatch); }
      PushAccepted(Held([], []), b);
      assert View().held == Applied(old(View()), b).held;
      return Appended;
    }

    method AddNext(b: Block, storageOk: bool) returns (outcome: Outcome)
      modifies this
      ensures outcome == JudgeNext(old(View()), b, storageOk).Outcome()
      ensures View() == Enact(old(View()), b, JudgeNext(old(View()), b, storageOk))
    {
      var pub, index := b.content.accountId, b.content.index;
      if pub !in held { return Refused(MissingPriorChain); }
      var h := held[pub];
      if h.chain == [] { return Threw; }
      var head := h.chain[|h.chain| - 1];
      if index <= head.content.index {
        if 0 <= index < |h.chain| {
          var existing := h.chain[index];
          if existing.hash == b.hash { return AlreadyHeld; }
          RetainSibling(existing, b);
        }
        return Refused(StaleOrConflicting);
      }
      if index != head.content.index + 1 { return Refused(NonSequential); }
      if b.content.previousHash != head.hash { return Refused(PreviousHashMismatch); }
      var err := CheckBody(head, b, storageOk);
      if err.Some? { return Refused(err.value); }
      if h.acc + [b.hash] != b.root { return Refused(RootMismatch); }
      PushAccepted(h, b);
      return Appended;
    }

    method AddBlock(b: Block, storageOk: bool) returns (outcome: Outcome)
      modifies this
      ensures outcome == Judge(old(View()), b, storageOk).Outcome()
      ensures View() == Next(old(View()), Deliver(b, storageOk))
    {
      if ContentHash(b.content) != b.hash { return Refused(ContentHashMismatch); }
      if b.signature != Signed(b.content.accountId, b.hash, b.root) { return Refused(InvalidSignature); }
      if b.content.accountId in equivocated { return Refused(AccountEquivocated); }
      if b.content.index == 0 { outcome := AddGenesis(b); } else { outcome := AddNext(b, storageOk); }
    }

    // -------------------------------------------------------------- Proof-carried registration

    method RegisterVerifiedSend(b: Block, claimant: AccountId, included: bool) returns (ok: bool)
      modifies this
      ensures View() == Next(old(View()), RegisterSend(b, claimant, included))
      ensures ok ==> b.hash in allBlocks && (b.hash in unclaimedSends || b.hash in unclaimedNftTransfers)
      ensures ok <==>
        && b.content.accountId !in equivocated && PacketOk(b, claimant, included)
        && if b.content.body.Send? then b.hash !in claimedSends
           else
             && b.content.body.token.Some? && b.hash !in claimedNftTransfers
             && b.content.body.token.value !in burnedNfts
    {
      if b.content.accountId in equivocated { return false; }
      if !PacketOk(b, claimant, included) { return false; }
      var body := b.content.body;
      if body.NftSend? {
        if body.token.None? { return false; }
        if b.hash in claimedNftTransfers { return false; }
        if body.token.value in burnedNfts { return false; }
        allBlocks := allBlocks[b.hash := b];
        if b.hash !in unclaimedNftTransfers {
          unclaimedNftTransfers :=
            unclaimedNftTransfers[b.hash := NftTransfer(body.token.value, b.content.accountId, claimant)];
        }
        return true;
      }
      if b.hash in claimedSends { return false; }
      allBlocks := allBlocks[b.hash := b];
      if b.hash !in unclaimedSends {
        unclaimedSends := unclaimedSends[b.hash :=
          Transfer(b.content.accountId, claimant, if body.amount.Some? then body.amount.value else 0)];
      }
      return true;
    }

    method RegisterVerifiedMint(b: Block, token: TokenId, included: bool) returns (ok: bool)
      modifies this
      ensures View() == Next(old(View()), RegisterMint(b, token, included))
      ensures ok <==> token in nftInfo
    {
      if token in nftInfo { return true; }
      if b.content.accountId in equivocated { return false; }
      if token in burnedNfts { return false; }
      var body := b.content.body;
      if !body.NftMint? || body.token != Some(token) || body.contentRef == "" || !b.Authentic() || !included {
        return false;
      }
      allBlocks := allBlocks[b.hash := b];
      nftInfo := nftInfo[token := TokenInfo(b.content.accountId, body.contentRef, body.meta)];
      return true;
    }

    method RestoreVerifiedBlock(b: Block) returns (ok: bool)
      modifies this
      ensures View() == Next(old(View()), Restore(b))
      ensures ok ==> b.hash in allBlocks && allBlocks[b.hash] == b
      ensures ok <==> b.Authentic() && match b.content.body
        case NftMint(token, contentRef, _) => token.Some? && contentRef != "" && token.value !in burnedNfts
        case NftSend(token, recipient) => token.Some? && recipient.Some?
        case Send(recipient, amount) => recipient.Some? && amount.Some?
        case _ => false
    {
      if !b.Authentic() { return false; }
      var body := b.content.body;
      if body.NftMint? {
        if body.token.None? || body.contentRef == "" { return false; }
        if body.token.value in burnedNfts { return false; }
        allBlocks := allBlocks[b.hash := b];
        if body.token.value !in nftInfo {
          nftInfo := nftInfo[body.token.value := TokenInfo(b.content.accountId, body.contentRef, body.meta)];
        }
        return true;
      }
      if body.NftSend? {
        if body.token.None? || body.recipient.None? { return false; }
        allBlocks := allBlocks[b.hash := b];
        ApplyNftSend(b);
        return true;
      }
      if body.Send? {
        if body.recipient.None? || body.amount.None? { return false; }
        allBlocks := allBlocks[b.hash := b];
        if b.hash !in claimedSends && b.hash !in unclaimedSends {
          unclaimedSends :=
            unclaimedSends[b.hash := Transfer(b.content.accountId, body.recipient.value, body.amount.value)];
        }
        return true;
      }
      return false;
    }
  }
}
