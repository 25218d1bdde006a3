/** Token replay in causal order: when every transfer is delivered before the receive that claims it, genuine
token chains are accepted in full and the ledger agrees on everything, owners included. Out of causal order genuine
mints, transfers and burns can be refused; exactly when is stated for every block and for whole replays.
 */
module NftReplay {
  import opened Prelude
  import opened Blocks
  import opened Ledgers
  import opened ChainIndex
  import opened Indexing
  import opened Replay

  // ---------------------------------------------------------------- Where a token is

  /** A token is held by an account, or on its way in an unclaimed transfer. */
  datatype Place = HeldBy(account: AccountId) | InFlight(send: Hash)

  predicate HoldsBy(d: Deeds, t: TokenId, pub: AccountId) {
    Holding(RowsOf(d, t), pub)
  }

  ghost predicate At(tk: Tokens, t: TokenId, x: Place) {
    match x
    case HeldBy(pub) => HoldsBy(tk.deeds, t, pub)
    case InFlight(h) => h in tk.unclaimed && tk.unclaimed[h].token == t
  }

  /** The token is in at most one place, in none before its mint and none after its burn. */
  ghost predicate PlacedOnce(tk: Tokens, t: TokenId) {
    && (forall x, y :: At(tk, t, x) && At(tk, t, y) ==> x == y)
    && (forall x :: At(tk, t, x) ==> t in tk.info && t !in tk.deeds.burned)
    && (t in tk.deeds.burned ==> t in tk.info)
  }

  ghost predicate Single(tk: Tokens) {
    forall t :: PlacedOnce(tk, t)
  }

  // ---------------------------------------------------------------- Genuine token chains

  /** By its own chain, the account holds the token it sends or burns. */
  ghost predicate OwnClaim(f: Family, b: Block)
    requires InFamily(f, b)
  {
    (b.content.body.NftSend? || b.content.body.NftBurn?) && b.content.body.token.Some? ==>
      var touch := LastTouch(f[b.content.accountId][..b.content.index], b.content.body.token.value);
      touch.Some? && touch.value.holds
  }

  ghost predicate Sourced(f: Family, r: Block) {
    r.content.body.NftReceive? ==>
      exists s ::
        InFamily(f, s) && r.content.body.source == Some(s.hash) && Hands(s, r.content.accountId, r.content.body.token)
  }

  predicate SameClaim(r: Block, q: Block) {
    r.content.body.NftReceive? && q.content.body.NftReceive? && r.content.body.source == q.content.body.source
  }

  predicate SameMint(m: Block, n: Block) {
    m.content.body.NftMint? && n.content.body.NftMint? && m.content.body.token == n.content.body.token
  }

  /** What honest accounts produce together: amounts match, nobody sends or burns what its own chain does not
  hold, every receive claims a transfer of that token to it, no transfer is claimed twice, no token minted
  twice. */
  ghost predicate Genuine(f: Family) {
    && Matched(f)
    && (forall b :: InFamily(f, b) ==> OwnClaim(f, b) && Sourced(f, b))
    && (forall r, q :: InFamily(f, r) && InFamily(f, q) && SameClaim(r, q) ==> r == q)
    && (forall m, n :: InFamily(f, m) && InFamily(f, n) && SameMint(m, n) ==> m == n)
  }

  /** Step `s` delivered the transfer that `r` claims. */
  predicate DeliversSource(s: Step, r: Block)
    requires r.content.body.NftReceive?
  {
    s.Deliver? && r.content.body.source == Some(s.block.hash)
  }

  /** Every token receive comes after the transfer it claims. */
  ghost predicate Causal(steps: seq<Step>) {
    forall k :: 0 <= k < |steps| && steps[k].Deliver? && steps[k].block.content.body.NftReceive? ==>
      exists j :: 0 <= j < k && DeliversSource(steps[j], steps[k].block)
  }

  // ---------------------------------------------------------------- How a block moves a token

  /** The event of a block that is later than its account's row settles that account's row and no other. */
  lemma HoldersAfter(tk: Tokens, b: Block, t: TokenId, pub: AccountId)
    requires EventOf(b).Some?
    requires var row := FindRow(RowsOf(tk.deeds, EventOf(b).value.token), b.content.accountId);
      row.Some? ==> row.value.index < b.content.index
    ensures
      var Event(u, holds) := EventOf(b).value;
      HoldsBy(ApplyTokens(tk, b).deeds, t, pub) <==>
        if t == u && pub == b.content.accountId then holds else HoldsBy(tk.deeds, t, pub)
  {
    DeedsFind(tk.deeds, b, t, pub);
    assert ApplyTokens(tk, b).deeds == ApplyDeeds(tk.deeds, b);
  }

  lemma BurnedAndInfoAfter(tk: Tokens, b: Block)
    requires EventOf(b).Some? && b.hash == ContentHash(b.content)
    ensures
      var r, u := ApplyTokens(tk, b), EventOf(b).value.token;
      && r.deeds.burned == tk.deeds.burned + (if b.content.body.NftBurn? then {u} else {})
      && r.info.Keys == tk.info.Keys + (if b.content.body.NftMint? then {u} else {})
  {
    BurnsAre(tk.deeds, b);
  }

  /** A later block of a well-placed token keeps it well placed: a mint puts a new token at its minter, a
  transfer moves it from its holder into flight, a receive lands it, a burn removes it. */
  lemma MovingKeepsSingle(tk: Tokens, b: Block)
    requires Single(tk) && EventOf(b).Some? && b.hash == ContentHash(b.content) && b.hash !in tk.unclaimed
    requires var row := FindRow(RowsOf(tk.deeds, EventOf(b).value.token), b.content.accountId);
      row.Some? ==> row.value.index < b.content.index
    requires var u := EventOf(b).value.token;
      match b.content.body
      case NftMint(_, _, _) => u !in tk.info
      case NftReceive(_, source) => source.Some? && At(tk, u, InFlight(source.value))
      case _ => HoldsBy(tk.deeds, u, b.content.accountId)
    ensures Single(ApplyTokens(tk, b))
  {
    var r, u := ApplyTokens(tk, b), EventOf(b).value.token;
    BurnedAndInfoAfter(tk, b);
    forall t ensures PlacedOnce(r, t) {
      assert PlacedOnce(tk, t) && PlacedOnce(tk, u);
      forall pub ensures HoldsBy(r.deeds, t, pub) <==>
        if t == u && pub == b.content.accountId then EventOf(b).value.holds else HoldsBy(tk.deeds, t, pub)
      {
        HoldersAfter(tk, b, t, pub);
      }
      if t != u { OtherTokenStays(tk, r, b, t); } else { MovedToken(tk, r, b); }
    }
  }

  lemma OtherTokenStays(tk: Tokens, r: Tokens, b: Block, t: TokenId)
    requires EventOf(b).Some? && r == ApplyTokens(tk, b) && b.hash !in tk.unclaimed && t != EventOf(b).value.token
    requires PlacedOnce(tk, t) && forall pub :: HoldsBy(r.deeds, t, pub) <==> HoldsBy(tk.deeds, t, pub)
    requires b.content.body.NftReceive? ==>
      b.content.body.source.Some? && At(tk, EventOf(b).value.token, InFlight(b.content.body.source.value))
    requires r.deeds.burned == tk.deeds.burned + (if b.content.body.NftBurn? then {EventOf(b).value.token} else {})
    requires r.info.Keys == tk.info.Keys + (if b.content.body.NftMint? then {EventOf(b).value.token} else {})
    ensures PlacedOnce(r, t)
  {
    forall x ensures At(r, t, x) <==> At(tk, t, x) {}
  }

  lemma MovedToken(tk: Tokens, r: Tokens, b: Block)
    requires EventOf(b).Some? && r == ApplyTokens(tk, b)
    requires b.hash !in tk.unclaimed && PlacedOnce(tk, EventOf(b).value.token)
    requires forall pub :: HoldsBy(r.deeds, EventOf(b).value.token, pub) <==>
      if pub == b.content.accountId then EventOf(b).value.holds else HoldsBy(tk.deeds, EventOf(b).value.token, pub)
    requires var u := EventOf(b).value.token;
      match b.content.body
      case NftMint(_, _, _) => u !in tk.info
      case NftReceive(_, source) => source.Some? && At(tk, u, InFlight(source.value))
      case _ => HoldsBy(tk.deeds, u, b.content.accountId)
    requires r.deeds.burned == tk.deeds.burned + (if b.content.body.NftBurn? then {EventOf(b).value.token} else {})
    requires r.info.Keys == tk.info.Keys + (if b.content.body.NftMint? then {EventOf(b).value.token} else {})
    ensures PlacedOnce(r, EventOf(b).value.token)
  {
    var u, pub := EventOf(b).value.token, b.content.accountId;
    match b.content.body
    case NftMint(_, _, _) =>
      forall x ensures At(r, u, x) <==> x == HeldBy(pub) { assert !At(tk, u, x); }
    case NftSend(_, _) =>
      assert At(tk, u, HeldBy(pub));
      forall x | At(r, u, x)
        ensures x == InFlight(b.hash)
      {
        assert x != InFlight(b.hash) && x != HeldBy(pub) ==> At(tk, u, x);
      }
    case NftReceive(_, source) =>
      assert At(tk, u, InFlight(source.value));
      forall x ensures At(r, u, x) <==> x == HeldBy(pub) { assert At(tk, u, x) || !At(tk, u, x); }
    case NftBurn(_) =>
      assert At(tk, u, HeldBy(pub));
      forall x ensures !At(r, u, x) { assert x != HeldBy(pub) && At(r, u, x) ==> At(tk, u, x); }
    case _ =>
  }

  // ---------------------------------------------------------------- A genuine block is accepted

  /** An account whose own chain holds the token holds it by its custody row. */
  lemma OwnChainHolds(f: Family, l: Ledger, b: Block)
    requires FamilyOk(f) && Genuine(f) && Follows(f, l) && InFamily(f, b)
    requires b.content.index == |ChainOf(l, b.content.accountId)|
    requires b.content.body.NftSend? || b.content.body.NftBurn?
    requires b.content.body.token.Some?
    ensures HoldsBy(l.tokens.deeds, b.content.body.token.value, b.content.accountId)
  {
    var pub, t := b.content.accountId, b.content.body.token.value;
    assert OwnClaim(f, b);
    assert ChainOf(l, pub) == f[pub][..b.content.index];
    assert FindRow(RowsOf(l.tokens.deeds, t), pub) == LastTouch(ChainOf(l, pub), t);
  }

  /** The only holder of a token that is not burned is its owner. */
  lemma SoleHolderOwns(l: Ledger, t: TokenId, pub: AccountId)
    requires OwnersOk(l.tokens.deeds) && HoldsBy(l.tokens.deeds, t, pub) && t !in l.tokens.deeds.burned
    requires forall q :: HoldsBy(l.tokens.deeds, t, q) ==> q == pub
    ensures Owns(l, pub, t)
  {
    var rows := RowsOf(l.tokens.deeds, t);
    assert OwnerOkFor(l.tokens.deeds, t);
    HolderIsFound(rows, pub);
    var owner := l.tokens.deeds.owner[t];
    HolderIsFound(rows, owner);
    assert HoldsBy(l.tokens.deeds, t, owner);
  }

  lemma HolderOwns(l: Ledger, t: TokenId, pub: AccountId)
    requires OwnersOk(l.tokens.deeds) && Single(l.tokens) && HoldsBy(l.tokens.deeds, t, pub)
    ensures Owns(l, pub, t)
  {
    assert PlacedOnce(l.tokens, t);
    assert At(l.tokens, t, HeldBy(pub));
    forall q | HoldsBy(l.tokens.deeds, t, q) ensures q == pub { assert At(l.tokens, t, HeldBy(q)); }
    SoleHolderOwns(l, t, pub);
  }

  /** Blocks of the family are told apart by their content. */
  lemma LeafIsOfFamily(f: Family, l: Ledger, h: Hash)
    requires FamilyOk(f) && Follows(f, l) && h in Leaves(l)
    ensures h in l.allBlocks && InFamily(f, l.allBlocks[h])
    ensures l.allBlocks[h].hash == h == ContentHash(l.allBlocks[h].content)
  {
    FamilyHashes(f, l.allBlocks[h]);
  }

  /** The held source of a family receive is a transfer of its token to its account. */
  lemma SourceIsHanded(f: Family, l: Ledger, b: Block)
    requires FamilyOk(f) && Genuine(f) && Follows(f, l) && InFamily(f, b)
    requires b.content.body.NftReceive? && b.content.body.source.Some? && b.content.body.source.value in Leaves(l)
    ensures b.content.body.source.value in l.allBlocks
    ensures Hands(l.allBlocks[b.content.body.source.value], b.content.accountId, b.content.body.token)
  {
    var source := b.content.body.source.value;
    LeafIsOfFamily(f, l, source);
    assert Sourced(f, b);
    var s :| InFamily(f, s) && s.hash == source && Hands(s, b.content.accountId, b.content.body.token);
    FamilyHashes(f, s);
  }

  /** A delivered, not yet received transfer is in flight. */
  lemma SourceIsInFlight(f: Family, l: Ledger, b: Block)
    requires FamilyOk(f) && Genuine(f) && Follows(f, l) && InFamily(f, b) && b.hash !in Leaves(l)
    requires b.content.body.NftReceive? && b.content.body.token.Some? && b.content.body.source.Some?
    requires b.content.body.source.value in Leaves(l)
    ensures At(l.tokens, b.content.body.token.value, InFlight(b.content.body.source.value))
  {
    var source := b.content.body.source.value;
    SourceIsHanded(f, l, b);
    LeafIsOfFamily(f, l, source);
    assert OffersNft(source);
    assert source !in ClaimedNftsOf(Leaves(l)) by {
      forall h | h in Leaves(l) && ClaimsNft(h) ensures h.content.body.source.value != source {
        LeafIsOfFamily(f, l, h);
        var r := l.allBlocks[h];
        assert SameClaim(r, b) ==> r == b;
      }
    }
    assert l.tokens.unclaimed == OfferedNftsOf(Leaves(l), l.equivocated.Keys);
  }

  lemma MintIsFresh(f: Family, l: Ledger, b: Block)
    requires FamilyOk(f) && Genuine(f) && Follows(f, l) && Single(l.tokens) && InFamily(f, b) && b.hash !in Leaves(l)
    requires b.content.body.NftMint? && b.content.body.token.Some?
    ensures b.content.body.token.value !in l.tokens.info && b.content.body.token.value !in l.tokens.deeds.burned
  {
    var t := b.content.body.token.value;
    assert PlacedOnce(l.tokens, t);
    forall h | h in Leaves(l) && Mints(h) ensures h.content.body.token.value != t {
      LeafIsOfFamily(f, l, h);
      var m := l.allBlocks[h];
      assert SameMint(m, b) ==> m == b;
    }
  }

  lemma NextIsNotHeld(f: Family, l: Ledger, b: Block)
    requires FamilyOk(f) && Follows(f, l) && InFamily(f, b) && b.content.index == |ChainOf(l, b.content.accountId)|
    ensures b.hash !in Leaves(l) && b.hash == ContentHash(b.content)
  {
    FamilyHashes(f, b);
    LeafOf(l, b.hash);
  }

  lemma OwnerHasNoError(f: Family, l: Ledger, b: Block, ok: bool)
    requires FamilyOk(f) && Genuine(f) && Follows(f, l) && Single(l.tokens) && InFamily(f, b)
    requires b.content.index == |ChainOf(l, b.content.accountId)| && b.content.index > 0
    requires b.content.body.NftSend? || b.content.body.NftBurn?
    ensures BodyError(l, f[b.content.accountId][b.content.index - 1], b, ok).None?
  {
    assert LinkOk(f[b.content.accountId], b.content.index);
    OwnChainHolds(f, l, b);
    HolderOwns(l, b.content.body.token.value, b.content.accountId);
  }

  lemma ClaimHasNoError(f: Family, l: Ledger, b: Block, ok: bool)
    requires FamilyOk(f) && Genuine(f) && Follows(f, l) && InFamily(f, b)
    requires b.content.index == |ChainOf(l, b.content.accountId)| && b.content.index > 0
    requires b.content.body.NftReceive? && (b.content.body.source.Some? ==> b.content.body.source.value in Leaves(l))
    ensures BodyError(l, f[b.content.accountId][b.content.index - 1], b, ok).None?
  {
    assert LinkOk(f[b.content.accountId], b.content.index);
    NextIsNotHeld(f, l, b);
    SourceIsHanded(f, l, b);
  }

  lemma MintHasNoError(f: Family, l: Ledger, b: Block, ok: bool)
    requires FamilyOk(f) && Genuine(f) && Follows(f, l) && Single(l.tokens) && InFamily(f, b)
    requires b.content.index == |ChainOf(l, b.content.accountId)| && b.content.index > 0
    requires b.content.body.NftMint?
    ensures BodyError(l, f[b.content.accountId][b.content.index - 1], b, ok).None?
  {
    assert LinkOk(f[b.content.accountId], b.content.index);
    NextIsNotHeld(f, l, b);
    MintIsFresh(f, l, b);
  }

  lemma TokenHasNoError(f: Family, l: Ledger, b: Block, ok: bool)
    requires FamilyOk(f) && Genuine(f) && Follows(f, l) && Single(l.tokens) && InFamily(f, b)
    requires b.content.index == |ChainOf(l, b.content.accountId)| && b.content.index > 0
    requires b.content.body.NftReceive? && b.content.body.source.Some? ==> b.content.body.source.value in Leaves(l)
    ensures BodyError(l, f[b.content.accountId][b.content.index - 1], b, ok).None?
  {
    assert LinkOk(f[b.content.accountId], b.content.index);
    match b.content.body
    case NftMint(_, _, _) => MintHasNoError(f, l, b, ok);
    case NftSend(_, _) => OwnerHasNoError(f, l, b, ok);
    case NftReceive(_, _) => ClaimHasNoError(f, l, b, ok);
    case NftBurn(_) => OwnerHasNoError(f, l, b, ok);
    case _ => PaymentHasNoError(f, l, b, ok);
  }

  /** The custody row of the account that appends next is older than its new block. */
  lemma RowIsOlder(l: Ledger, b: Block, t: TokenId)
    requires ChainsOk(l) && CustodyOk(l) && b.content.index == |ChainOf(l, b.content.accountId)|
    ensures
      var row := FindRow(RowsOf(l.tokens.deeds, t), b.content.accountId);
      row.Some? ==> row.value.index < b.content.index
  {
    var chain := ChainOf(l, b.content.accountId);
    assert FindRow(RowsOf(l.tokens.deeds, t), b.content.accountId) == LastTouch(chain, t);
    assert chain[..|chain|] == chain;
    LastTouchBound(l, b.content.accountId, |chain|, t);
  }

  lemma AcceptedKeepsSingle(f: Family, l: Ledger, b: Block)
    requires FamilyOk(f) && Genuine(f) && Follows(f, l) && Single(l.tokens) && InFamily(f, b)
    requires b.content.index == |ChainOf(l, b.content.accountId)|
    requires b.content.body.NftReceive? && b.content.body.source.Some? ==> b.content.body.source.value in Leaves(l)
    ensures Single(ApplyTokens(l.tokens, b))
  {
    if EventOf(b).Some? {
      assert LinkOk(f[b.content.accountId], b.content.index);
      NextIsNotHeld(f, l, b);
      NotOnOfferYet(l, b.hash);
      RowIsOlder(l, b, EventOf(b).value.token);
      match b.content.body {
        case NftMint(_, _, _) => MintIsFresh(f, l, b);
        case NftReceive(_, _) => SourceIsInFlight(f, l, b);
        case _ => OwnChainHolds(f, l, b);
      }
      MovingKeepsSingle(l.tokens, b);
    }
  }

  lemma NotOnOfferYet(l: Ledger, h: Hash)
    requires NftClaimsIndexed(l) && h !in Leaves(l)
    ensures h !in l.tokens.unclaimed
  {
    assert l.tokens.unclaimed == OfferedNftsOf(Leaves(l), l.equivocated.Keys);
  }

  lemma CausalStep(f: Family, l: Ledger, b: Block, ok: bool)
    requires FamilyOk(f) && Genuine(f) && Follows(f, l) && Single(l.tokens) && InFamily(f, b)
    requires b.content.index <= |ChainOf(l, b.content.accountId)|
    requires b.content.body.NftReceive? && b.content.body.source.Some? ==> b.content.body.source.value in Leaves(l)
    ensures Judge(l, b, ok).Outcome().Success() && Single(AddBlock(l, b, ok).tokens)
  {
    DeliveryShape(l, b, ok);
    if b.content.index < |ChainOf(l, b.content.accountId)| {
      RepeatChangesNothing(f, l, b, ok);
    } else {
      NextIsJudgedByBody(f, l, b, ok);
      if b.content.index > 0 { TokenHasNoError(f, l, b, ok); }
      AcceptedKeepsSingle(f, l, b);
    }
  }

  // ---------------------------------------------------------------- Causal replays

  lemma DeliveredIsHeld(f: Family, steps: seq<Step>, b: Block)
    requires FamilyOk(f) && OwnOrder(f, steps) && Accepted(steps) && b in Delivered(steps)
    ensures b.hash in Leaves(Run(EMPTY_LEDGER, steps))
  {
    var l := Run(EMPTY_LEDGER, steps);
    ReplayFollows(f, steps);
    var s :| s in steps && s.Deliver? && s.block == b;
    var k :| 0 <= k < |steps| && steps[k] == s;
    assert InFamily(f, b);
    ReachedCovers(steps, b.content.accountId);
    FamilyHashes(f, b);
    var chain := ChainOf(l, b.content.accountId);
    assert |chain| == Reached(steps, b.content.accountId);
    assert chain[b.content.index] == f[b.content.accountId][b.content.index];
    LeafOf(l, b.hash);
  }

  /** In a causal replay the claimed transfer is held when its receive arrives. */
  lemma SourceIsHeld(f: Family, steps: seq<Step>)
    requires FamilyOk(f) && steps != [] && Causal(steps) && steps[|steps| - 1].Deliver?
    requires OwnOrder(f, steps[..|steps| - 1]) && Accepted(steps[..|steps| - 1])
    ensures
      var b := steps[|steps| - 1].block;
      b.content.body.NftReceive? && b.content.body.source.Some? ==>
        b.content.body.source.value in Leaves(Run(EMPTY_LEDGER, steps[..|steps| - 1]))
  {
    var k := |steps| - 1;
    var rest, b := steps[..k], steps[k].block;
    if b.content.body.NftReceive? && b.content.body.source.Some? {
      var j :| 0 <= j < k && DeliversSource(steps[j], steps[k].block);
      assert rest[j] == steps[j] && rest[j] in rest;
      DeliveredIsHeld(f, rest, steps[j].block);
    }
  }

  /** Every causal replay of genuine chains is accepted in full, and at its end each token is in at most one
  place. */
  lemma {:induction false} CausalReplayIsAccepted(f: Family, steps: seq<Step>)
    requires FamilyOk(f) && Genuine(f) && OwnOrder(f, steps) && Causal(steps)
    ensures Accepted(steps) && Single(Run(EMPTY_LEDGER, steps).tokens)
    decreases |steps|
  {
    if steps == [] {
      EmptyIsSingle();
    } else {
      var k := |steps| - 1;
      PrefixInOrder(f, steps);
      PrefixIsCausal(steps);
      CausalReplayIsAccepted(f, steps[..k]);
      LastCausalStep(f, steps, Run(EMPTY_LEDGER, steps[..k]), Run(EMPTY_LEDGER, steps));
    }
  }

  lemma LastCausalStep(f: Family, steps: seq<Step>, l: Ledger, next: Ledger)
    requires FamilyOk(f) && Genuine(f) && steps != [] && OwnOrder(f, steps) && Causal(steps)
    requires OwnOrder(f, steps[..|steps| - 1]) && Accepted(steps[..|steps| - 1])
    requires l == Run(EMPTY_LEDGER, steps[..|steps| - 1]) && next == Run(EMPTY_LEDGER, steps) && Single(l.tokens)
    ensures Accepted(steps) && Single(next.tokens)
  {
    var k := |steps| - 1;
    ReplayFollows(f, steps[..k]);
    ReachedBelow(f, steps);
    SourceIsHeld(f, steps);
    CausalStep(f, l, steps[k].block, steps[k].storageOk);
    assert next == AddBlock(l, steps[k].block, steps[k].storageOk);
  }

  lemma EmptyIsSingle()
    ensures Single(EMPTY_LEDGER.tokens)
  {
    forall t ensures PlacedOnce(EMPTY_LEDGER.tokens, t) {
      forall x ensures !At(EMPTY_LEDGER.tokens, t, x) {}
    }
  }

  lemma PrefixIsCausal(steps: seq<Step>)
    requires Causal(steps) && steps != []
    ensures Causal(steps[..|steps| - 1])
  {
    var rest := steps[..|steps| - 1];
    forall k | 0 <= k < |rest| && rest[k].Deliver? && rest[k].block.content.body.NftReceive?
      ensures exists j :: 0 <= j < k && DeliversSource(rest[j], rest[k].block)
    {
      assert rest[k] == steps[k];
      var j :| 0 <= j < k && DeliversSource(steps[j], steps[k].block);
      assert rest[j] == steps[j];
    }
  }

  lemma {:induction false} SoleHolders(rows: seq<CustodyRow>)
    requires DistinctRows(rows)
    requires forall p, q :: Holding(rows, p) && Holding(rows, q) ==> p == q
    ensures |Holders(rows)| <= 1
    decreases |rows|
  {
    if rows != [] {
      forall p | Holding(rows[1..], p) ensures Holding(rows, p) {}
      SoleHolders(rows[1..]);
      if Holders(rows[1..]) != [] {
        var other := Holders(rows[1..])[0];
        HolderIsFound(rows[1..], other);
        assert Holding(rows, other) && (rows[0].holds ==> Holding(rows, rows[0].account));
      }
    }
  }

  /** Where no token has two holders, custody decides every owner. */
  lemma SingleOwnersAgree(l: Ledger, r: Ledger)
    requires Single(l.tokens) && OwnersOk(l.tokens.deeds)
    requires forall t :: |Holders(RowsOf(l.tokens.deeds, t))| <= 1 ==>
      OwnerOf(l.tokens.deeds, t) == OwnerOf(r.tokens.deeds, t)
    ensures l.tokens.deeds.owner == r.tokens.deeds.owner
  {
    forall t ensures OwnerOf(l.tokens.deeds, t) == OwnerOf(r.tokens.deeds, t) {
      assert PlacedOnce(l.tokens, t);
      forall p, q | Holding(RowsOf(l.tokens.deeds, t), p) && Holding(RowsOf(l.tokens.deeds, t), q) ensures p == q {
        assert At(l.tokens, t, HeldBy(p)) && At(l.tokens, t, HeldBy(q));
      }
      SoleHolders(RowsOf(l.tokens.deeds, t));
    }
    assert forall t :: t in l.tokens.deeds.owner <==> OwnerOf(l.tokens.deeds, t).Some?;
    assert forall t :: t in r.tokens.deeds.owner <==> OwnerOf(r.tokens.deeds, t).Some?;
  }

  /** Causal replays of the same genuine blocks are accepted and agree on everything the ledger answers:
  chains, claims, offers, records, burns, custody, and the owner of every token. */
  lemma CausalReplayConverges(f: Family, steps: seq<Step>, steps': seq<Step>)
    requires FamilyOk(f) && Genuine(f)
    requires OwnOrder(f, steps) && Causal(steps) && OwnOrder(f, steps') && Causal(steps')
    requires Delivered(steps) == Delivered(steps')
    ensures Accepted(steps) && Accepted(steps')
    ensures
      var l, r := Run(EMPTY_LEDGER, steps), Run(EMPTY_LEDGER, steps');
      && l.held == r.held && l.allBlocks == r.allBlocks && l.payments == r.payments
      && l.tokens.info == r.tokens.info && l.tokens.claimed == r.tokens.claimed
      && l.tokens.unclaimed == r.tokens.unclaimed
      && l.tokens.deeds.burned == r.tokens.deeds.burned && l.tokens.deeds.owner == r.tokens.deeds.owner
      && forall t, pub :: FindRow(RowsOf(l.tokens.deeds, t), pub) == FindRow(RowsOf(r.tokens.deeds, t), pub)
  {
    CausalReplayIsAccepted(f, steps);
    CausalReplayIsAccepted(f, steps');
    TokenReplayConverges(f, steps, steps');
    RunKeepsOwners(steps);
    SingleOwnersAgree(Run(EMPTY_LEDGER, steps), Run(EMPTY_LEDGER, steps'));
  }

  // ---------------------------------------------------------------- Out of causal order

  predicate OwnedByAnother(d: Deeds, t: TokenId, pub: AccountId) {
    t in d.owner && d.owner[t] != pub && HoldsBy(d, t, d.owner[t])
  }

  /** The token is burned already, or somebody else still counts as its holder and is named owner. */
  predicate Obstructed(d: Deeds, b: Block) {
    match b.content.body
    case NftMint(token, _, _) => token.Some? && token.value in d.burned
    case NftSend(token, _) => token.Some?
      && (token.value in d.burned || OwnedByAnother(d, token.value, b.content.accountId))
    case NftBurn(token) => token.Some?
      && (token.value in d.burned || OwnedByAnother(d, token.value, b.content.accountId))
    case _ => false
  }

  /** The rule that consults other accounts lets the block through: a mint unless its token is burned, a
  transfer from the named owner or already claimed, a burn by the named owner, and every other block. */
  predicate Welcome(l: Ledger, b: Block) {
    match b.content.body
    case NftMint(token, _, _) => token.Some? ==> token.value !in l.tokens.deeds.burned
    case NftSend(token, _) => token.Some? ==> Owns(l, b.content.accountId, token.value) || b.hash in l.tokens.claimed
    case NftBurn(token) => token.Some? ==> Owns(l, b.content.accountId, token.value)
    case _ => true
  }

  function Unwelcome(b: Block): Refusal {
    if b.content.body.NftMint? then TokenExists else NotTheOwner
  }

  /** A token record comes from a mint that is held, so a mint that is not held finds none. */
  lemma MintHasNoRecord(f: Family, l: Ledger, b: Block)
    requires FamilyOk(f) && Genuine(f) && Follows(f, l) && InFamily(f, b) && b.hash !in Leaves(l)
    requires b.content.body.NftMint? && b.content.body.token.Some?
    ensures b.content.body.token.value !in l.tokens.info
  {
    forall h | h in Leaves(l) && Mints(h) ensures h.content.body.token != b.content.body.token {
      LeafIsOfFamily(f, l, h);
      var m := l.allBlocks[h];
      assert SameMint(m, b) ==> m == b;
    }
  }

  lemma TokenBodyError(f: Family, l: Ledger, b: Block, ok: bool)
    requires FamilyOk(f) && Genuine(f) && Follows(f, l) && InFamily(f, b)
    requires b.content.index == |ChainOf(l, b.content.accountId)| && b.content.index > 0
    requires b.content.body.NftMint? || b.content.body.NftSend? || b.content.body.NftBurn?
    ensures
      var err := BodyError(l, f[b.content.accountId][b.content.index - 1], b, ok);
      err == if Welcome(l, b) then None else Some(Unwelcome(b))
  {
    assert LinkOk(f[b.content.accountId], b.content.index);
    if b.content.body.NftMint? {
      NextIsNotHeld(f, l, b);
      MintHasNoRecord(f, l, b);
    }
  }

  lemma OtherBodyError(f: Family, l: Ledger, b: Block, ok: bool)
    requires FamilyOk(f) && Genuine(f) && Follows(f, l) && InFamily(f, b)
    requires b.content.index == |ChainOf(l, b.content.accountId)| && b.content.index > 0
    requires !b.content.body.NftMint? && !b.content.body.NftSend? && !b.content.body.NftBurn?
    ensures BodyError(l, f[b.content.accountId][b.content.index - 1], b, ok).None?
  {
    assert LinkOk(f[b.content.accountId], b.content.index);
    if !b.content.body.NftReceive? {
      PaymentHasNoError(f, l, b, ok);
    } else if b.content.body.source.value in Leaves(l) {
      ClaimHasNoError(f, l, b, ok);
    }
  }

  /** Whatever arrived before, the next block of a genuine chain is appended exactly when it is welcome, and
  otherwise refused as unwelcome. A transfer or burn is then refused because the token is burned or somebody
  else still counts as holder and is named owner. */
  lemma GenuineIsAppendedIff(f: Family, l: Ledger, b: Block, ok: bool)
    requires FamilyOk(f) && Genuine(f) && Follows(f, l) && InFamily(f, b)
    requires b.content.index == |ChainOf(l, b.content.accountId)|
    ensures Judge(l, b, ok) == if Welcome(l, b) then Append else Refuse(Unwelcome(b))
    ensures Welcome(l, b) || Obstructed(l.tokens.deeds, b)
  {
    assert LinkOk(f[b.content.accountId], b.content.index);
    NextIsJudgedByBody(f, l, b, ok);
    if b.content.index > 0 {
      if b.content.body.NftMint? || b.content.body.NftSend? || b.content.body.NftBurn? {
        TokenBodyError(f, l, b, ok);
        if !b.content.body.NftMint? { UnownedBecause(f, l, b); }
      } else {
        OtherBodyError(f, l, b, ok);
      }
    }
  }

  lemma UnownedBecause(f: Family, l: Ledger, b: Block)
    requires FamilyOk(f) && Genuine(f) && Follows(f, l) && InFamily(f, b)
    requires b.content.index == |ChainOf(l, b.content.accountId)|
    requires (b.content.body.NftSend? || b.content.body.NftBurn?) && b.content.body.token.Some?
    ensures
      var t, pub := b.content.body.token.value, b.content.accountId;
      Owns(l, pub, t) || t in l.tokens.deeds.burned || OwnedByAnother(l.tokens.deeds, t, pub)
  {
    var t, pub := b.content.body.token.value, b.content.accountId;
    OwnChainHolds(f, l, b);
    assert OwnerOkFor(l.tokens.deeds, t);
    HolderIsFound(RowsOf(l.tokens.deeds, t), pub);
    if t in l.tokens.deeds.owner { HolderIsFound(RowsOf(l.tokens.deeds, t), l.tokens.deeds.owner[t]); }
  }

  /** The delivered block is held already, or welcome. */
  ghost predicate WelcomeOrHeld(l: Ledger, s: Step) {
    s.Deliver? && (s.block.content.index < |ChainOf(l, s.block.content.accountId)| || Welcome(l, s.block))
  }

  /** Every block of the run is welcome where it first arrives. */
  ghost predicate AllWelcome(steps: seq<Step>) {
    steps != [] ==>
      var n := |steps| - 1;
      AllWelcome(steps[..n]) && WelcomeOrHeld(Run(EMPTY_LEDGER, steps[..n]), steps[n])
  }

  lemma DeliverySucceedsIff(f: Family, l: Ledger, b: Block, ok: bool)
    requires FamilyOk(f) && Genuine(f) && Follows(f, l) && InFamily(f, b)
    requires b.content.index <= |ChainOf(l, b.content.accountId)|
    ensures Judge(l, b, ok).Outcome().Success() <==> WelcomeOrHeld(l, Deliver(b, ok))
  {
    if b.content.index < |ChainOf(l, b.content.accountId)| {
      RepeatChangesNothing(f, l, b, ok);
    } else {
      GenuineIsAppendedIff(f, l, b, ok);
    }
  }

  lemma LastSucceedsIff(f: Family, steps: seq<Step>, l: Ledger)
    requires FamilyOk(f) && Genuine(f) && steps != [] && OwnOrder(f, steps)
    requires OwnOrder(f, steps[..|steps| - 1]) && Accepted(steps[..|steps| - 1])
    requires l == Run(EMPTY_LEDGER, steps[..|steps| - 1])
    ensures steps[|steps| - 1].Deliver?
    ensures Judge(l, steps[|steps| - 1].block, steps[|steps| - 1].storageOk).Outcome().Success()
      <==> WelcomeOrHeld(l, steps[|steps| - 1])
  {
    ReplayFollows(f, steps[..|steps| - 1]);
    ReachedBelow(f, steps);
    DeliverySucceedsIff(f, l, steps[|steps| - 1].block, steps[|steps| - 1].storageOk);
  }

  /** Own-order replays of genuine chains, exactly: accepted in full if and only if every block is welcome
  where it first arrives. */
  lemma {:induction false} OwnOrderIsAcceptedIff(f: Family, steps: seq<Step>)
    requires FamilyOk(f) && Genuine(f) && OwnOrder(f, steps)
    ensures Accepted(steps) <==> AllWelcome(steps)
    decreases |steps|
  {
    if steps != [] {
      var n := |steps| - 1;
      PrefixInOrder(f, steps);
      OwnOrderIsAcceptedIff(f, steps[..n]);
      if Accepted(steps[..n]) { LastSucceedsIff(f, steps, Run(EMPTY_LEDGER, steps[..n])); }
    }
  }
}
