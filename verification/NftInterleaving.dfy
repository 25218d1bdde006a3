/** Two deliveries of genuine token chains, each account's in its own order, that the ledger does not accept in
full: a mint refused because its token came back burned first, and a transfer refused because the last holder
came first.
 */
module NftInterleaving {
  import opened Prelude
  import opened Blocks
  import opened Ledgers
  import opened ChainIndex
  import opened Indexing
  import opened Replay
  import opened LocalReplay
  import opened NftReplay

  // ---------------------------------------------------------------- Chains and steps of both examples

  function First(pub: AccountId): Block {
    OpenBlock(pub, pub, "", 0)
  }

  function After(prev: Block, body: Body): Block {
    var c := prev.content;
    MakeBlock(Content(c.accountId, c.index + 1, prev.hash, 0, MINT, body), prev.root, c.accountId)
  }

  const TOKEN: TokenId := MintedToken("minter", 1, "art")

  lemma PairIsOk(pub: AccountId, b0: Block, b1: Block)
    requires b0 == First(pub) && b1 == After(b0, b1.content.body)
    ensures ChainOk(pub, Held([b0, b1], HashesOf([b0, b1])))
  {
    assert HashesOf([b0, b1]) == [b0.hash, b1.hash];
    assert [b0.hash, b1.hash][..1] == [b0.hash];
    assert [b0.hash, b1.hash][..2] == [b0.hash, b1.hash];
  }

  lemma TripleIsOk(pub: AccountId, b0: Block, b1: Block, b2: Block)
    requires b0 == First(pub) && b1 == After(b0, b1.content.body) && b2 == After(b1, b2.content.body)
    ensures ChainOk(pub, Held([b0, b1, b2], HashesOf([b0, b1, b2])))
  {
    assert HashesOf([b0, b1, b2]) == [b0.hash, b1.hash, b2.hash];
    assert [b0.hash, b1.hash, b2.hash][..1] == [b0.hash];
    assert [b0.hash, b1.hash, b2.hash][..2] == [b0.hash, b1.hash];
    assert [b0.hash, b1.hash, b2.hash][..3] == [b0.hash, b1.hash, b2.hash];
  }

  ghost predicate Longer(l: Ledger, r: Ledger, who: AccountId) {
    forall pub :: |ChainOf(r, pub)| == |ChainOf(l, pub)| + if pub == who then 1 else 0
  }

  /** A welcome next block arrives: it is appended, and its account's chain is one longer. */
  lemma Arrives(f: Family, l: Ledger, b: Block)
    requires FamilyOk(f) && Genuine(f) && Follows(f, l) && InFamily(f, b) && Welcome(l, b)
    requires b.content.index == |ChainOf(l, b.content.accountId)|
    ensures Judge(l, b, false) == Append && Follows(f, AddBlock(l, b, false))
    ensures AddBlock(l, b, false).tokens == ApplyTokens(l.tokens, b)
    ensures Longer(l, AddBlock(l, b, false), b.content.accountId)
  {
    GenuineIsAppendedIff(f, l, b, false);
    FollowStep(f, l, b, false);
    DeliveryShape(l, b, false);
  }

  lemma IsRefused(f: Family, l: Ledger, b: Block, why: Refusal)
    requires FamilyOk(f) && Genuine(f) && Follows(f, l) && InFamily(f, b) && !Welcome(l, b) && why == Unwelcome(b)
    requires b.content.index == |ChainOf(l, b.content.accountId)|
    ensures Judge(l, b, false) == Refuse(why)
  {
    GenuineIsAppendedIff(f, l, b, false);
  }

  /** A run grows by two blocks that arrive. */
  lemma LogTwo(log: seq<Step>, l: Ledger, a: Block, b: Block, m: Ledger)
    requires Run(EMPTY_LEDGER, log) == l && Accepted(log) && m == AddBlock(AddBlock(l, a, false), b, false)
    requires Judge(l, a, false) == Append && Judge(AddBlock(l, a, false), b, false) == Append
    ensures Run(EMPTY_LEDGER, log + [Deliver(a, false)] + [Deliver(b, false)]) == m
    ensures Accepted(log + [Deliver(a, false)] + [Deliver(b, false)])
  {
    LogGrows(log, l, a);
    LogGrows(log + [Deliver(a, false)], AddBlock(l, a, false), b);
  }

  /** Four blocks that arrive, two by two. */
  lemma LogFour(a: Block, b: Block, c: Block, d: Block, l: Ledger, m: Ledger)
    requires l == AddBlock(AddBlock(EMPTY_LEDGER, a, false), b, false)
    requires m == AddBlock(AddBlock(l, c, false), d, false)
    requires Judge(EMPTY_LEDGER, a, false) == Append && Judge(AddBlock(EMPTY_LEDGER, a, false), b, false) == Append
    requires Judge(l, c, false) == Append && Judge(AddBlock(l, c, false), d, false) == Append
    ensures Run(EMPTY_LEDGER, Deliveries([a, b, c, d])) == m && Accepted(Deliveries([a, b, c, d]))
  {
    var none: seq<Step> := [];
    LogTwo(none, EMPTY_LEDGER, a, b, l);
    LogTwo(none + [Deliver(a, false)] + [Deliver(b, false)], l, c, d, m);
    assert Deliveries([a, b, c, d])
      == none + [Deliver(a, false)] + [Deliver(b, false)] + [Deliver(c, false)] + [Deliver(d, false)];
  }

  function Deliveries(bs: seq<Block>): seq<Step> {
    seq(|bs|, i requires 0 <= i < |bs| => Deliver(bs[i], false))
  }

  /** No burn of the family has arrived, so no token is burned. */
  lemma NothingBurned(f: Family, l: Ledger, t: TokenId)
    requires FamilyOk(f) && Follows(f, l)
    requires forall b :: InFamily(f, b) && b.content.body.NftBurn? ==>
      b.content.index >= |ChainOf(l, b.content.accountId)|
    ensures t !in l.tokens.deeds.burned
  {
    forall h | h in Leaves(l) ensures !Burns(h) {
      LeafIsOfFamily(f, l, h);
      LeafOf(l, h);
    }
  }

  /** While one account alone has a chain, it owns what its chain holds. */
  lemma OnlyChainOwns(f: Family, l: Ledger, pub: AccountId, t: TokenId)
    requires Follows(f, l) && t !in l.tokens.deeds.burned
    requires forall q :: q != pub ==> ChainOf(l, q) == []
    requires LastTouch(ChainOf(l, pub), t).Some? && LastTouch(ChainOf(l, pub), t).value.holds
    ensures Owns(l, pub, t) && HoldsBy(l.tokens.deeds, t, pub)
  {
    forall q ensures HoldsBy(l.tokens.deeds, t, q) <==> q == pub {
      assert FindRow(RowsOf(l.tokens.deeds, t), q) == LastTouch(ChainOf(l, q), t);
    }
    SoleHolderOwns(l, t, pub);
  }

  ghost predicate Lengths(l: Ledger, minter: nat, last: nat) {
    forall pub :: |ChainOf(l, pub)| == if pub == "last" then last else if pub == "minter" then minter else 0
  }

  // ---------------------------------------------------------------- A genuine mint refused

  /** The minter mints and passes a token; its last holder burns it. */
  datatype Burnt = Burnt(minter: seq<Block>, last: seq<Block>)

  function Burning(): Burnt {
    var m0 := First("minter");
    var m1 := After(m0, NftMint(Some(TOKEN), "art", map[]));
    var m2 := After(m1, NftSend(Some(TOKEN), Some("last")));
    var z0 := First("last");
    var z1 := After(z0, NftReceive(Some(TOKEN), Some(m2.hash)));
    var z2 := After(z1, NftBurn(Some(TOKEN)));
    Burnt([m0, m1, m2], [z0, z1, z2])
  }

  function BurningFamily(): Family {
    map["minter" := Burning().minter, "last" := Burning().last]
  }

  lemma BurningChainsOk()
    ensures FamilyOk(BurningFamily())
  {
    var r, f := Burning(), BurningFamily();
    TripleIsOk("minter", r.minter[0], r.minter[1], r.minter[2]);
    TripleIsOk("last", r.last[0], r.last[1], r.last[2]);
    assert r.minter == [r.minter[0], r.minter[1], r.minter[2]];
    assert r.last == [r.last[0], r.last[1], r.last[2]];
    forall pub | pub in f ensures forall i: nat :: i < |f[pub]| ==> LinkOk(f[pub], i) {}
  }

  predicate OneOfBurning(b: Block) {
    var r := Burning();
    b == r.minter[0] || b == r.minter[1] || b == r.minter[2] || b == r.last[0] || b == r.last[1] || b == r.last[2]
  }

  lemma InBurning(b: Block)
    requires InFamily(BurningFamily(), b)
    ensures OneOfBurning(b)
    ensures b.content.body.NftBurn? ==> b.content.accountId == "last" && b.content.index == 2
  {}

  lemma BurningTouches()
    ensures LastTouch(Burning().minter[..2], TOKEN) == Some(CustodyRow("minter", 1, true))
    ensures LastTouch(Burning().last[..2], TOKEN) == Some(CustodyRow("last", 1, true))
  {}

  lemma BurningIsGenuine()
    ensures Genuine(BurningFamily())
  {
    var f, r := BurningFamily(), Burning();
    BurningTouches();
    forall b | InFamily(f, b) ensures OwnClaim(f, b) && Sourced(f, b) {
      InBurning(b);
      assert InFamily(f, r.minter[2]);
    }
    forall b, c | InFamily(f, b) && InFamily(f, c) && (SameClaim(b, c) || SameMint(b, c)) ensures b == c {
      InBurning(b);
      InBurning(c);
    }
    forall b, c | InFamily(f, b) && InFamily(f, c) && b.content.body.Receive? ensures false {
      InBurning(b);
    }
  }

  lemma ReceiverMayBurn(l: Ledger)
    requires Follows(BurningFamily(), l) && Lengths(l, 0, 2)
    ensures Welcome(l, Burning().last[2])
  {
    var f, r := BurningFamily(), Burning();
    BurningChainsOk();
    forall b | InFamily(f, b) && b.content.body.NftBurn? ensures b.content.index >= |ChainOf(l, b.content.accountId)| {
      InBurning(b);
    }
    NothingBurned(f, l, TOKEN);
    assert |ChainOf(l, "last")| == 2;
    assert ChainOf(l, "last") == r.last[..2];
    forall q | q != "last" ensures ChainOf(l, q) == [] { assert |ChainOf(l, q)| == 0; }
    BurningTouches();
    OnlyChainOwns(f, l, "last", TOKEN);
  }

  lemma BurnIsHeld(l: Ledger)
    requires Follows(BurningFamily(), l) && Lengths(l, 1, 3)
    ensures !Welcome(l, Burning().minter[1])
  {
    var b := Burning().last[2];
    assert |ChainOf(l, "last")| == 3;
    assert ChainOf(l, "last")[2] == BurningFamily()["last"][2];
    LeafOf(l, b.hash);
    assert Burns(b.hash);
  }

  lemma BurnArrives() returns (l: Ledger, m: Ledger)
    ensures l == AddBlock(AddBlock(EMPTY_LEDGER, Burning().last[0], false), Burning().last[1], false)
    ensures Judge(EMPTY_LEDGER, Burning().last[0], false) == Append
    ensures Judge(AddBlock(EMPTY_LEDGER, Burning().last[0], false), Burning().last[1], false) == Append
    ensures Judge(l, Burning().last[2], false) == Append && m == AddBlock(l, Burning().last[2], false)
    ensures Follows(BurningFamily(), m) && Lengths(m, 0, 3)
  {
    var f, r := BurningFamily(), Burning();
    BurningChainsOk();
    BurningIsGenuine();
    EmptyIsIndexed();
    assert InFamily(f, r.last[0]) && InFamily(f, r.last[1]) && InFamily(f, r.last[2]);
    Arrives(f, EMPTY_LEDGER, r.last[0]);
    var l1 := AddBlock(EMPTY_LEDGER, r.last[0], false);
    Arrives(f, l1, r.last[1]);
    l := AddBlock(l1, r.last[1], false);
    ReceiverMayBurn(l);
    Arrives(f, l, r.last[2]);
    m := AddBlock(l, r.last[2], false);
  }

  lemma MinterOpens(l: Ledger)
    requires Follows(BurningFamily(), l) && Lengths(l, 0, 3)
    ensures Judge(l, Burning().minter[0], false) == Append
    ensures Follows(BurningFamily(), AddBlock(l, Burning().minter[0], false))
    ensures Lengths(AddBlock(l, Burning().minter[0], false), 1, 3)
  {
    BurningChainsOk();
    BurningIsGenuine();
    assert InFamily(BurningFamily(), Burning().minter[0]) && |ChainOf(l, "minter")| == 0;
    Arrives(BurningFamily(), l, Burning().minter[0]);
  }

  function BurnFirst(): seq<Step> {
    var r := Burning();
    Deliveries([r.last[0], r.last[1], r.last[2], r.minter[0]])
  }

  lemma BurnArrivesFirst() returns (m: Ledger)
    ensures Run(EMPTY_LEDGER, BurnFirst()) == m && Accepted(BurnFirst())
    ensures Follows(BurningFamily(), m) && Lengths(m, 1, 3)
  {
    var r := Burning();
    var l, k := BurnArrives();
    MinterOpens(k);
    m := AddBlock(k, r.minter[0], false);
    LogFour(r.last[0], r.last[1], r.last[2], r.minter[0], l, m);
  }

  lemma MintIsRefused(m: Ledger)
    requires Follows(BurningFamily(), m) && Lengths(m, 1, 3)
    ensures Judge(m, Burning().minter[1], false) == Refuse(TokenExists)
  {
    BurningChainsOk();
    BurningIsGenuine();
    BurnIsHeld(m);
    assert InFamily(BurningFamily(), Burning().minter[1]) && |ChainOf(m, "minter")| == 1;
    IsRefused(BurningFamily(), m, Burning().minter[1], TokenExists);
  }

  lemma BurningOwnOrder()
    ensures OwnOrder(BurningFamily(), BurnFirst() + [Deliver(Burning().minter[1], false)])
  {
    var f, r := BurningFamily(), Burning();
    var all := BurnFirst() + [Deliver(r.minter[1], false)];
    assert InFamily(f, r.last[0]) && InFamily(f, r.last[1]) && InFamily(f, r.last[2]);
    assert InFamily(f, r.minter[0]) && InFamily(f, r.minter[1]);
    forall k | 0 <= k < |all|
      ensures all[k].Deliver? && InFamily(f, all[k].block)
      ensures all[k].block.content.index > 0 ==> exists j :: 0 <= j < k && PrecedesIn(f, all[j], all[k].block)
    {
      if k == 1 { assert PrecedesIn(f, all[0], all[1].block); }
      if k == 2 { assert PrecedesIn(f, all[1], all[2].block); }
      if k == 4 { assert PrecedesIn(f, all[3], all[4].block); }
    }
  }

  /** Two accounts are enough: when the receiver's chain, burn included, arrives before the minter's, the genuine
  mint is refused as existing already, and the minter's chain stays cut off there. */
  lemma GenuineMintCanBeRefused()
    ensures exists f, steps, b ::
      && FamilyOk(f) && Genuine(f) && OwnOrder(f, steps + [Deliver(b, false)]) && b.content.body.NftMint?
      && Accepted(steps) && Judge(Run(EMPTY_LEDGER, steps), b, false) == Refuse(TokenExists)
  {
    BurningChainsOk();
    BurningIsGenuine();
    var m := BurnArrivesFirst();
    MintIsRefused(m);
    BurningOwnOrder();
  }

  // ---------------------------------------------------------------- A genuine transfer refused

  /** A token passes from its minter through a middleman to its last holder. */
  datatype Relay = Relay(minter: seq<Block>, middle: seq<Block>, last: seq<Block>)

  function Passing(): Relay {
    var m0 := First("minter");
    var m1 := After(m0, NftMint(Some(TOKEN), "art", map[]));
    var m2 := After(m1, NftSend(Some(TOKEN), Some("middle")));
    var d0 := First("middle");
    var d1 := After(d0, NftReceive(Some(TOKEN), Some(m2.hash)));
    var d2 := After(d1, NftSend(Some(TOKEN), Some("last")));
    var z0 := First("last");
    var z1 := After(z0, NftReceive(Some(TOKEN), Some(d2.hash)));
    Relay([m0, m1, m2], [d0, d1, d2], [z0, z1])
  }

  function PassingFamily(): Family {
    map["minter" := Passing().minter, "middle" := Passing().middle, "last" := Passing().last]
  }

  lemma PassingChainsOk()
    ensures FamilyOk(PassingFamily())
  {
    var r, f := Passing(), PassingFamily();
    TripleIsOk("minter", r.minter[0], r.minter[1], r.minter[2]);
    TripleIsOk("middle", r.middle[0], r.middle[1], r.middle[2]);
    PairIsOk("last", r.last[0], r.last[1]);
    assert r.minter == [r.minter[0], r.minter[1], r.minter[2]];
    assert r.middle == [r.middle[0], r.middle[1], r.middle[2]];
    assert r.last == [r.last[0], r.last[1]];
    forall pub | pub in f ensures forall i: nat :: i < |f[pub]| ==> LinkOk(f[pub], i) {}
  }

  /** The blocks of the example, one by one. */
  predicate OneOfPassing(b: Block) {
    var r := Passing();
    || b == r.minter[0] || b == r.minter[1] || b == r.minter[2]
    || b == r.middle[0] || b == r.middle[1] || b == r.middle[2] || b == r.last[0] || b == r.last[1]
  }

  lemma InPassing(b: Block)
    requires InFamily(PassingFamily(), b)
    ensures OneOfPassing(b)
  {}

  lemma NoBurnInPassing(b: Block)
    requires InFamily(PassingFamily(), b)
    ensures !b.content.body.NftBurn?
  {
    InPassing(b);
  }

  lemma PassingTouches()
    ensures
      var r := Passing();
      && LastTouch(r.minter[..2], TOKEN) == Some(CustodyRow("minter", 1, true))
      && LastTouch(r.middle[..2], TOKEN) == Some(CustodyRow("middle", 1, true))
      && LastTouch(r.last, TOKEN) == Some(CustodyRow("last", 1, true))
  {}

  lemma PassingIsGenuine()
    ensures Genuine(PassingFamily())
  {
    var f, r := PassingFamily(), Passing();
    PassingTouches();
    forall b | InFamily(f, b) ensures OwnClaim(f, b) && Sourced(f, b) {
      InPassing(b);
      assert InFamily(f, r.minter[2]) && InFamily(f, r.middle[2]);
    }
    forall b, c | InFamily(f, b) && InFamily(f, c) && (SameClaim(b, c) || SameMint(b, c)) ensures b == c {
      InPassing(b);
      InPassing(c);
    }
    forall b, c | InFamily(f, b) && InFamily(f, c) && b.content.body.Receive? ensures false {
      InPassing(b);
    }
  }

  lemma PassingUnburned(l: Ledger)
    requires Follows(PassingFamily(), l)
    ensures TOKEN !in l.tokens.deeds.burned
  {
    PassingChainsOk();
    forall b | InFamily(PassingFamily(), b) ensures !b.content.body.NftBurn? { NoBurnInPassing(b); }
    NothingBurned(PassingFamily(), l, TOKEN);
  }

  /** Recording an event of a second account does not dislodge an owner who still holds the token. */
  lemma IncumbentStays(d: Deeds, b: Block, t: TokenId, pub: AccountId)
    requires OwnersOk(d) && Touches(b, t) && EventOf(b).value.holds && b.content.accountId != pub
    requires t in d.owner && d.owner[t] == pub && HoldsBy(d, t, pub)
    ensures ApplyDeeds(d, b).owner == d.owner
  {
    var rows := SetRow(RowsOf(d, t), CustodyRow(b.content.accountId, b.content.index, true));
    assert OwnerOkFor(d, t);
    SetRowFinds(RowsOf(d, t), CustodyRow(b.content.accountId, b.content.index, true), pub);
    SetRowDistinct(RowsOf(d, t), CustodyRow(b.content.accountId, b.content.index, true));
    HolderIsFound(rows, pub);
    if |Holders(rows)| == 1 { assert d.owner[t := pub] == d.owner; }
  }

  lemma LastHolderOwns(l: Ledger)
    requires Follows(PassingFamily(), l) && Lengths(l, 0, 2)
    ensures Owns(l, "last", TOKEN) && HoldsBy(l.tokens.deeds, TOKEN, "last")
  {
    PassingUnburned(l);
    assert |ChainOf(l, "last")| == 2;
    assert ChainOf(l, "last") == Passing().last;
    forall q | q != "last" ensures ChainOf(l, q) == [] { assert |ChainOf(l, q)| == 0; }
    PassingTouches();
    OnlyChainOwns(PassingFamily(), l, "last", TOKEN);
  }

  /** The opening moves nothing; the mint adds a second holder under the incumbent. */
  lemma MintLeavesOwner(l: Ledger, m: Ledger)
    requires OwnersOk(l.tokens.deeds) && Owns(l, "last", TOKEN) && HoldsBy(l.tokens.deeds, TOKEN, "last")
    requires m.tokens == ApplyTokens(ApplyTokens(l.tokens, Passing().minter[0]), Passing().minter[1])
    ensures Owns(m, "last", TOKEN)
  {
    assert ApplyTokens(l.tokens, Passing().minter[0]) == l.tokens;
    assert m.tokens.deeds == ApplyDeeds(l.tokens.deeds, Passing().minter[1]);
    IncumbentStays(l.tokens.deeds, Passing().minter[1], TOKEN, "last");
  }

  lemma LastHolderArrives() returns (l: Ledger)
    ensures l == AddBlock(AddBlock(EMPTY_LEDGER, Passing().last[0], false), Passing().last[1], false)
    ensures Judge(EMPTY_LEDGER, Passing().last[0], false) == Append
    ensures Judge(AddBlock(EMPTY_LEDGER, Passing().last[0], false), Passing().last[1], false) == Append
    ensures Follows(PassingFamily(), l) && Lengths(l, 0, 2)
  {
    var f, r := PassingFamily(), Passing();
    PassingChainsOk();
    PassingIsGenuine();
    EmptyIsIndexed();
    assert InFamily(f, r.last[0]) && InFamily(f, r.last[1]);
    Arrives(f, EMPTY_LEDGER, r.last[0]);
    Arrives(f, AddBlock(EMPTY_LEDGER, r.last[0], false), r.last[1]);
    l := AddBlock(AddBlock(EMPTY_LEDGER, r.last[0], false), r.last[1], false);
  }

  lemma MinterArrives(l: Ledger) returns (m: Ledger)
    requires Follows(PassingFamily(), l) && Lengths(l, 0, 2)
    ensures m == AddBlock(AddBlock(l, Passing().minter[0], false), Passing().minter[1], false)
    ensures Judge(l, Passing().minter[0], false) == Append
    ensures Judge(AddBlock(l, Passing().minter[0], false), Passing().minter[1], false) == Append
    ensures Follows(PassingFamily(), m) && Lengths(m, 2, 2) && Owns(m, "last", TOKEN)
  {
    var f, r := PassingFamily(), Passing();
    PassingChainsOk();
    PassingIsGenuine();
    assert InFamily(f, r.minter[0]) && InFamily(f, r.minter[1]);
    assert |ChainOf(l, "minter")| == 0;
    Arrives(f, l, r.minter[0]);
    var k := AddBlock(l, r.minter[0], false);
    assert |ChainOf(k, "minter")| == 1;
    PassingUnburned(k);
    Arrives(f, k, r.minter[1]);
    m := AddBlock(k, r.minter[1], false);
    LastHolderOwns(l);
    MintLeavesOwner(l, m);
  }

  lemma OnlyMiddleClaims(b: Block)
    requires InFamily(PassingFamily(), b) && b.content.body.NftReceive?
    requires b.content.body.source == Some(Passing().minter[2].hash)
    ensures b.content.accountId == "middle"
  {
    InPassing(b);
  }

  lemma SendIsUnclaimed(m: Ledger)
    requires Follows(PassingFamily(), m) && |ChainOf(m, "middle")| == 0
    ensures Passing().minter[2].hash !in m.tokens.claimed
  {
    PassingChainsOk();
    var sent := Passing().minter[2].hash;
    forall h | h in Leaves(m) && ClaimsNft(h) ensures h.content.body.source.value != sent {
      LeafIsOfFamily(PassingFamily(), m, h);
      LeafOf(m, h);
      if h.content.body.source.value == sent { OnlyMiddleClaims(m.allBlocks[h]); }
    }
  }

  function LastFirst(): seq<Step> {
    var r := Passing();
    Deliveries([r.last[0], r.last[1], r.minter[0], r.minter[1]])
  }

  lemma PassingOwnOrder()
    ensures OwnOrder(PassingFamily(), LastFirst() + [Deliver(Passing().minter[2], false)])
  {
    var f, r := PassingFamily(), Passing();
    var all := LastFirst() + [Deliver(r.minter[2], false)];
    assert InFamily(f, r.last[0]) && InFamily(f, r.last[1]);
    assert InFamily(f, r.minter[0]) && InFamily(f, r.minter[1]) && InFamily(f, r.minter[2]);
    forall k | 0 <= k < |all|
      ensures all[k].Deliver? && InFamily(f, all[k].block)
      ensures all[k].block.content.index > 0 ==> exists j :: 0 <= j < k && PrecedesIn(f, all[j], all[k].block)
    {
      if k == 1 { assert PrecedesIn(f, all[0], all[1].block); }
      if k == 3 { assert PrecedesIn(f, all[2], all[3].block); }
      if k == 4 { assert PrecedesIn(f, all[3], all[4].block); }
    }
  }

  lemma LastArrivesFirst() returns (m: Ledger)
    ensures Run(EMPTY_LEDGER, LastFirst()) == m && Accepted(LastFirst())
    ensures Follows(PassingFamily(), m) && Lengths(m, 2, 2) && Owns(m, "last", TOKEN)
  {
    var r := Passing();
    var l := LastHolderArrives();
    m := MinterArrives(l);
    LogFour(r.last[0], r.last[1], r.minter[0], r.minter[1], l, m);
  }

  lemma SendIsRefused(m: Ledger)
    requires Follows(PassingFamily(), m) && Lengths(m, 2, 2) && Owns(m, "last", TOKEN)
    ensures Judge(m, Passing().minter[2], false) == Refuse(NotTheOwner)
  {
    assert InFamily(PassingFamily(), Passing().minter[2]) && |ChainOf(m, "minter")| == 2;
    SendIsUnwelcome(m);
    PassingRefuses(m, Passing().minter[2]);
  }

  lemma PassingRefuses(m: Ledger, b: Block)
    requires Follows(PassingFamily(), m) && InFamily(PassingFamily(), b) && !Welcome(m, b)
    requires b.content.index == |ChainOf(m, b.content.accountId)|
    ensures Judge(m, b, false) == Refuse(Unwelcome(b))
  {
    PassingChainsOk();
    PassingIsGenuine();
    IsRefused(PassingFamily(), m, b, Unwelcome(b));
  }

  lemma SendIsUnwelcome(m: Ledger)
    requires Follows(PassingFamily(), m) && Lengths(m, 2, 2) && Owns(m, "last", TOKEN)
    ensures !Welcome(m, Passing().minter[2])
  {
    assert |ChainOf(m, "middle")| == 0;
    SendIsUnclaimed(m);
  }

  /** When the last holder's chain arrives first, then the minter's, the minter's genuine transfer is refused,
  because the ledger still names the last holder as owner. */
  lemma GenuineTransferCanBeRefused()
    ensures exists f, steps, b ::
      && FamilyOk(f) && Genuine(f) && OwnOrder(f, steps + [Deliver(b, false)]) && b.content.body.NftSend?
      && Accepted(steps) && Judge(Run(EMPTY_LEDGER, steps), b, false) == Refuse(NotTheOwner)
  {
    PassingChainsOk();
    PassingIsGenuine();
    var m := LastArrivesFirst();
    SendIsRefused(m);
    PassingOwnOrder();
  }
}
