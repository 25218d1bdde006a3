/** Deliveries and local calls keep every index equal to its definition in `ChainIndex`. */
module Indexing {
  import opened Prelude
  import opened Blocks
  import opened Ledgers
  import opened ChainIndex

  // ---------------------------------------------------------------- Owners across every entry point

  /** In every run of every entry point, whatever is delivered and in whatever order: the owner of a token is
  an account whose latest recorded event holds it, and there is an owner exactly when the token is unburned
  and somebody holds it. */
  lemma NextKeepsOwners(l: Ledger, s: Step)
    requires OwnersOk(l.tokens.deeds)
    ensures OwnersOk(Next(l, s).tokens.deeds)
  {
    NextDeeds(l, s);
    if EventBlock(l, s).Some? {
      DeedsKeepOwners(l.tokens.deeds, EventBlock(l, s).value);
    }
  }

  /** The block whose custody event a step applies. */
  function EventBlock(l: Ledger, s: Step): Option<Block> {
    if s.Local() then Created(l, s)
    else if s.Deliver? && Judge(l, s.block, s.storageOk).Append? then Some(s.block)
    else if s.Restore? && s.block.Authentic() && s.block.content.body.NftSend? then Some(s.block)
    else None
  }

  lemma NextDeeds(l: Ledger, s: Step)
    ensures Next(l, s).tokens.deeds ==
      if EventBlock(l, s).Some? then ApplyDeeds(l.tokens.deeds, EventBlock(l, s).value) else l.tokens.deeds
  {
    if s.Local() { LocalDeeds(l, s); }
    else if s.Deliver? { DeliveryShape(l, s.block, s.storageOk); }
  }

  lemma LocalDeeds(l: Ledger, s: Step)
    requires s.Local()
    ensures NextLocal(l, s).tokens.deeds ==
      if Created(l, s).Some? then ApplyDeeds(l.tokens.deeds, Created(l, s).value) else l.tokens.deeds
  {}

  /** What a delivery does, by verdict. */
  lemma DeliveryShape(l: Ledger, b: Block, ok: bool)
    ensures
      var r := AddBlock(l, b, ok);
      match Judge(l, b, ok)
      case Append => r == Applied(l, b) && r.tokens == ApplyTokens(l.tokens, b)
      case Fork(rival, _) => r == Retain(Flag(l, rival, b), b) && r.tokens.deeds == l.tokens.deeds
      case SeatEmptyChain =>
        && r == l.(held := l.held[b.content.accountId := Held([], [])])
        && b.content.accountId !in l.held
      case _ => r == l
  {}

  lemma {:induction false} RunKeepsOwners(steps: seq<Step>)
    ensures OwnersOk(Run(EMPTY_LEDGER, steps).tokens.deeds)
  {
    if steps == [] {
      forall t ensures OwnerOkFor(EMPTY_LEDGER.tokens.deeds, t) {}
    } else {
      RunKeepsOwners(steps[..|steps| - 1]);
      NextKeepsOwners(Run(EMPTY_LEDGER, steps[..|steps| - 1]), steps[|steps| - 1]);
    }
  }

  // ---------------------------------------------------------------- Appending to a chain

  function AccOf(l: Ledger, pub: AccountId): Root {
    if pub in l.held then l.held[pub].acc else []
  }

  /** `b` is the next link of its account's chain. */
  ghost predicate NextLink(l: Ledger, b: Block) {
    var acc := AccOf(l, b.content.accountId);
    && b.hash == ContentHash(b.content)
    && b.content.index == |acc|
    && b.content.previousHash == (if acc == [] then GenesisPrev else acc[|acc| - 1])
    && b.root == acc + [b.hash]
  }

  /** A mint names a token that has no record yet. */
  ghost predicate FreshMint(l: Ledger, b: Block) {
    Mints(b.hash) ==> b.hash.content.body.token.value !in l.tokens.info
  }

  lemma ExtendKeepsChains(l: Ledger, b: Block)
    requires ChainsOk(l) && NextLink(l, b)
    ensures ChainsOk(Extend(l, b))
    ensures b.hash !in Leaves(l)
    ensures Leaves(Extend(l, b)) == Leaves(l) + {b.hash}
    ensures forall pub ::
      ChainOf(Extend(l, b), pub) == ChainOf(l, pub) + (if pub == b.content.accountId then [b] else [])
  {
    var pub := b.content.accountId;
    var h := if pub in l.held then l.held[pub] else Held([], []);
    var h' := Held(h.chain + [b], h.acc + [b.hash]);
    assert ChainOk(pub, h);
    forall i: nat | i < |h'.chain| ensures PlaceOk(pub, h', i) {
      if i < |h.chain| { assert PlaceOk(pub, h, i) && h'.acc[..i + 1] == h.acc[..i + 1]; }
      else { assert h'.acc[..i + 1] == h'.acc; }
    }
    assert ChainOk(pub, h');
    LeafOf(l, b.hash);
    var l' := Extend(l, b);
    forall x ensures x in Leaves(l') <==> x in Leaves(l) + {b.hash} {
      if x in Leaves(l) {
        var p :| p in l.held && x in l.held[p].acc;
        assert p in l'.held && x in l'.held[p].acc;
      }
      if x == b.hash { assert pub in l'.held && x in l'.held[pub].acc; }
    }
  }

  lemma PaymentsFollow(leaves: set<Hash>, frozen: set<AccountId>, b: Block)
    requires b.hash == ContentHash(b.content) && b.hash !in leaves
    requires b.content.body.Send? ==> b.content.accountId !in frozen
    ensures
      var p := ApplyPayments(Payments(OfferedOf(leaves, frozen), ClaimedOf(leaves)), b);
      p.claimed == ClaimedOf(leaves + {b.hash}) && p.unclaimed == OfferedOf(leaves + {b.hash}, frozen)
  {
    var s' := leaves + {b.hash};
    var p := ApplyPayments(Payments(OfferedOf(leaves, frozen), ClaimedOf(leaves)), b);
    forall x ensures x in ClaimedOf(s') <==> x in p.claimed {
      if x in ClaimedOf(leaves) {
        var h :| h in leaves && Claims(h) && h.content.body.source.value == x;
        assert h in s';
      }
      if Claims(b.hash) && x == b.content.body.source.value { assert b.hash in s'; }
    }
    assert p.unclaimed.Keys == OfferedOf(s', frozen).Keys;
  }

  lemma NftClaimsFollow(leaves: set<Hash>, frozen: set<AccountId>, t: Tokens, b: Block)
    requires b.hash == ContentHash(b.content) && b.hash !in leaves && b.content.accountId !in frozen
    requires t.claimed == ClaimedNftsOf(leaves) && t.unclaimed == OfferedNftsOf(leaves, frozen)
    ensures
      var r := ApplyTokens(t, b);
      r.claimed == ClaimedNftsOf(leaves + {b.hash}) && r.unclaimed == OfferedNftsOf(leaves + {b.hash}, frozen)
  {
    var s' := leaves + {b.hash};
    var r := ApplyTokens(t, b);
    forall x ensures x in ClaimedNftsOf(s') <==> x in r.claimed {
      if x in ClaimedNftsOf(leaves) {
        var h :| h in leaves && ClaimsNft(h) && h.content.body.source.value == x;
        assert h in s';
      }
      if ClaimsNft(b.hash) && x == b.content.body.source.value { assert b.hash in s'; }
    }
    assert r.unclaimed.Keys == OfferedNftsOf(s', frozen).Keys;
  }

  lemma BurnsFollow(leaves: set<Hash>, d: Deeds, b: Block)
    requires b.hash == ContentHash(b.content) && d.burned == BurnedOf(leaves)
    ensures ApplyDeeds(d, b).burned == BurnedOf(leaves + {b.hash})
  {
    var s' := leaves + {b.hash};
    BurnsAre(d, b);
    forall x ensures x in BurnedOf(s') <==> x in ApplyDeeds(d, b).burned {
      if x in BurnedOf(leaves) { var h :| h in leaves && Burns(h) && h.content.body.token.value == x; assert h in s'; }
      if Burns(b.hash) && x == b.content.body.token.value { assert b.hash in s'; }
    }
  }

  lemma InfoAfter(t: Tokens, b: Block)
    requires b.hash == ContentHash(b.content)
    ensures ApplyTokens(t, b).info == if Mints(b.hash) then t.info[b.content.body.token.value := InfoOf(b.hash)]
      else t.info
    ensures ApplyTokens(t, b).deeds == ApplyDeeds(t.deeds, b)
  {}

  lemma InfosFollow(leaves: set<Hash>, infos: map<TokenId, TokenInfo>, h: Hash)
    requires InfosOf(infos, leaves) && (Mints(h) ==> h.content.body.token.value !in infos)
    ensures InfosOf(if Mints(h) then infos[h.content.body.token.value := InfoOf(h)] else infos, leaves + {h})
  {
    var s' := leaves + {h};
    var after := if Mints(h) then infos[h.content.body.token.value := InfoOf(h)] else infos;
    forall u | u in after ensures exists g :: g in s' && Mints(g) && g.content.body.token.value == u {
      if u in infos { var g :| g in leaves && Mints(g) && g.content.body.token.value == u; assert g in s'; }
      else { assert h in s' && Mints(h); }
    }
  }

  lemma RecordsFollow(leaves: set<Hash>, t: Tokens, b: Block)
    requires b.hash == ContentHash(b.content) && b.hash !in leaves
    requires t.deeds.burned == BurnedOf(leaves) && InfosOf(t.info, leaves)
    requires Mints(b.hash) ==> b.content.body.token.value !in t.info
    ensures
      var r := ApplyTokens(t, b);
      r.deeds.burned == BurnedOf(leaves + {b.hash}) && InfosOf(r.info, leaves + {b.hash})
  {
    BurnsFollow(leaves, t.deeds, b);
    InfoAfter(t, b);
    InfosFollow(leaves, t.info, b.hash);
  }

  lemma BurnsAre(d: Deeds, b: Block)
    requires b.hash == ContentHash(b.content)
    ensures ApplyDeeds(d, b).burned == d.burned + (if Burns(b.hash) then {b.content.body.token.value} else {})
  {
    if EventOf(b).Some? {
      var Event(t, holds) := EventOf(b).value;
      var row := CustodyRow(b.content.accountId, b.content.index, holds);
      RecordShape(d, t, row);
      RecordShape(d.(burned := d.burned + {t}), t, row);
    }
  }

  lemma {:induction false} LastTouchBound(l: Ledger, pub: AccountId, n: nat, t: TokenId)
    requires ChainsOk(l) && n <= |ChainOf(l, pub)|
    ensures
      var touch := LastTouch(ChainOf(l, pub)[..n], t);
      touch.Some? ==> touch.value.account == pub && 0 <= touch.value.index < n
  {
    if n > 0 {
      var chain := ChainOf(l, pub);
      assert PlaceOk(pub, l.held[pub], n - 1);
      assert chain[..n][..n - 1] == chain[..n - 1];
      LastTouchBound(l, pub, n - 1, t);
    }
  }

  lemma LastTouchAfter(chain: seq<Block>, b: Block, t: TokenId)
    ensures LastTouch(chain + [b], t) ==
      if Touches(b, t) then Some(CustodyRow(b.content.accountId, b.content.index, EventOf(b).value.holds))
        else LastTouch(chain, t)
  {
    assert (chain + [b])[..|chain|] == chain;
  }

  lemma RowFollows(l: Ledger, b: Block, t: TokenId, pub: AccountId)
    requires ChainsOk(l) && NextLink(l, b)
    requires FindRow(RowsOf(l.tokens.deeds, t), pub) == LastTouch(ChainOf(l, pub), t)
    ensures FindRow(RowsOf(ApplyDeeds(l.tokens.deeds, b), t), pub) ==
      LastTouch(ChainOf(l, pub) + (if pub == b.content.accountId then [b] else []), t)
  {
    DeedsFind(l.tokens.deeds, b, t, pub);
    var chain := ChainOf(l, pub);
    assert chain[..|chain|] == chain;
    LastTouchBound(l, pub, |chain|, t);
    if pub == b.content.accountId {
      LastTouchAfter(chain, b, t);
      if pub in l.held { assert ChainOk(pub, l.held[pub]); }
      assert |chain| == |AccOf(l, pub)|;
    } else {
      assert chain + [] == chain;
    }
  }

  lemma CustodyFollows(l: Ledger, b: Block, r: Ledger)
    requires ChainsOk(l) && NextLink(l, b) && CustodyOk(l) && r.tokens.deeds == ApplyDeeds(l.tokens.deeds, b)
    requires forall pub :: ChainOf(r, pub) == ChainOf(l, pub) + (if pub == b.content.accountId then [b] else [])
    ensures CustodyOk(r)
  {
    forall t, pub ensures FindRow(RowsOf(r.tokens.deeds, t), pub) == LastTouch(ChainOf(r, pub), t) {
      assert FindRow(RowsOf(l.tokens.deeds, t), pub) == LastTouch(ChainOf(l, pub), t);
      RowFollows(l, b, t, pub);
    }
  }

  lemma AppliedLeaves(l: Ledger, b: Block)
    requires ChainsOk(l) && NextLink(l, b)
    ensures ChainsOk(Applied(l, b)) && Leaves(Applied(l, b)) == Leaves(l) + {b.hash} && b.hash !in Leaves(l)
    ensures Applied(l, b).equivocated == l.equivocated
  {
    ExtendKeepsChains(l, b);
    SameHeld(Extend(l, b), Applied(l, b));
  }

  lemma SameHeld(l: Ledger, r: Ledger)
    requires l.held == r.held
    ensures Leaves(l) == Leaves(r) && (ChainsOk(l) ==> ChainsOk(r))
    ensures forall pub :: ChainOf(r, pub) == ChainOf(l, pub)
  {}

  lemma AppliedPayments(l: Ledger, b: Block)
    requires ChainsOk(l) && PaymentsIndexed(l) && NextLink(l, b)
    requires b.content.body.Send? ==> b.content.accountId !in l.equivocated
    ensures PaymentsIndexed(Applied(l, b))
  {
    AppliedLeaves(l, b);
    PaymentsFollow(Leaves(l), l.equivocated.Keys, b);
  }

  lemma AppliedNftClaims(l: Ledger, b: Block)
    requires ChainsOk(l) && NftClaimsIndexed(l) && NextLink(l, b) && b.content.accountId !in l.equivocated
    ensures NftClaimsIndexed(Applied(l, b))
  {
    AppliedLeaves(l, b);
    NftClaimsFollow(Leaves(l), l.equivocated.Keys, l.tokens, b);
  }

  lemma AppliedRecords(l: Ledger, b: Block)
    requires ChainsOk(l) && RecordsIndexed(l) && NextLink(l, b) && FreshMint(l, b)
    ensures RecordsIndexed(Applied(l, b))
  {
    AppliedLeaves(l, b);
    RecordsFollow(Leaves(l), l.tokens, b);
  }

  lemma AppliedCustody(l: Ledger, b: Block)
    requires ChainsOk(l) && CustodyOk(l) && NextLink(l, b)
    ensures CustodyOk(Applied(l, b))
  {
    ExtendKeepsChains(l, b);
    SameHeld(Extend(l, b), Applied(l, b));
    AppliedDeeds(l, b);
    CustodyFollows(l, b, Applied(l, b));
  }

  /** Applying the next link of an unfrozen account's chain keeps the whole index. */
  lemma AppliedKeepsIndex(l: Ledger, b: Block)
    requires Indexed(l) && NextLink(l, b) && FreshMint(l, b) && b.content.accountId !in l.equivocated
    ensures Indexed(Applied(l, b))
  {
    AppliedLeaves(l, b);
    AppliedPayments(l, b);
    AppliedNftClaims(l, b);
    AppliedRecords(l, b);
    AppliedCustody(l, b);
    AppliedDeeds(l, b);
    DeedsKeepOwners(l.tokens.deeds, b);
  }

  lemma AppliedDeeds(l: Ledger, b: Block)
    ensures Applied(l, b).tokens.deeds == ApplyDeeds(l.tokens.deeds, b)
  {}

  lemma CustodyReads(l: Ledger, r: Ledger)
    requires CustodyOk(l) && r.tokens.deeds == l.tokens.deeds
    requires forall pub :: ChainOf(r, pub) == ChainOf(l, pub)
    ensures CustodyOk(r)
  {
    forall t, pub ensures FindRow(RowsOf(r.tokens.deeds, t), pub) == LastTouch(ChainOf(r, pub), t) {
      assert FindRow(RowsOf(l.tokens.deeds, t), pub) == LastTouch(ChainOf(l, pub), t);
    }
  }

  // ---------------------------------------------------------------- Deliveries

  lemma AppendIsNextLink(l: Ledger, b: Block, ok: bool)
    requires ChainsOk(l) && Judge(l, b, ok).Append?
    ensures NextLink(l, b) && b.Authentic() && b.content.accountId !in l.equivocated
  {
    if b.content.accountId in l.held { assert ChainOk(b.content.accountId, l.held[b.content.accountId]); }
    if b.content.index != 0 {
      var h := l.held[b.content.accountId];
      assert PlaceOk(b.content.accountId, h, |h.chain| - 1);
    }
  }

  lemma FreezeShape(l: Ledger, ev: Evidence)
    ensures
      var r := Freeze(l, ev);
      var pub := ev.first.content.accountId;
      && r.held == l.held && r.allBlocks == l.allBlocks && r.tokens.deeds == l.tokens.deeds
      && r.tokens.info == l.tokens.info && r.tokens.claimed == l.tokens.claimed
      && r.payments.claimed == l.payments.claimed
      && r.equivocated.Keys == l.equivocated.Keys + {pub}
  {}

  lemma FreezePayments(l: Ledger, ev: Evidence)
    requires PaymentsIndexed(l)
    ensures PaymentsIndexed(Freeze(l, ev))
  {
    FreezeShape(l, ev);
    var r := Freeze(l, ev);
    SameHeld(l, r);
    assert OfferedOf(Leaves(l), r.equivocated.Keys).Keys == r.payments.unclaimed.Keys;
  }

  lemma FreezeNftClaims(l: Ledger, ev: Evidence)
    requires NftClaimsIndexed(l)
    ensures NftClaimsIndexed(Freeze(l, ev))
  {
    FreezeShape(l, ev);
    var r := Freeze(l, ev);
    SameHeld(l, r);
    assert OfferedNftsOf(Leaves(l), r.equivocated.Keys).Keys == r.tokens.unclaimed.Keys;
  }

  lemma FreezeKeepsIndex(l: Ledger, ev: Evidence)
    requires Indexed(l)
    ensures Indexed(Freeze(l, ev))
  {
    FreezeShape(l, ev);
    FreezePayments(l, ev);
    FreezeNftClaims(l, ev);
    SameHeld(l, Freeze(l, ev));
    CustodyReads(l, Freeze(l, ev));
  }

  /** The index reads neither `allBlocks` nor accounts held with an empty chain. */
  lemma IndexReads(l: Ledger, r: Ledger)
    requires Indexed(l) && ChainsOk(r) && Leaves(r) == Leaves(l)
    requires r.payments == l.payments && r.tokens == l.tokens && r.equivocated == l.equivocated
    requires forall pub :: ChainOf(r, pub) == ChainOf(l, pub)
    ensures Indexed(r)
  {
    CustodyReads(l, r);
  }

  lemma EmptySeatAddsNoLeaf(l: Ledger, pub: AccountId)
    requires pub !in l.held
    ensures
      var r := l.(held := l.held[pub := Held([], [])]);
      Leaves(r) == Leaves(l) && (ChainsOk(l) ==> ChainsOk(r)) && forall p :: ChainOf(r, p) == ChainOf(l, p)
  {
    var r := l.(held := l.held[pub := Held([], [])]);
    forall x ensures x in Leaves(r) <==> x in Leaves(l) {
      if x in Leaves(l) { var p :| p in l.held && x in l.held[p].acc; assert p in r.held && x in r.held[p].acc; }
    }
  }

  lemma JudgedMintIsFresh(l: Ledger, b: Block, ok: bool)
    requires Judge(l, b, ok).Append?
    ensures FreshMint(l, b)
  {}

  /** Delivering any block at all, valid or not, keeps every index a function of the held chains. */
  lemma DeliveryKeepsIndex(l: Ledger, b: Block, ok: bool)
    requires Indexed(l)
    ensures Indexed(AddBlock(l, b, ok))
  {
    DeliveryShape(l, b, ok);
    match Judge(l, b, ok)
    case Append =>
      AppendIsNextLink(l, b, ok);
      JudgedMintIsFresh(l, b, ok);
      AppliedKeepsIndex(l, b);
    case Fork(rival, _) =>
      FreezeKeepsIndex(l, Evidence(rival, b));
      SameHeld(Flag(l, rival, b), AddBlock(l, b, ok));
      IndexReads(Flag(l, rival, b), AddBlock(l, b, ok));
    case SeatEmptyChain =>
      EmptySeatAddsNoLeaf(l, b.content.accountId);
      IndexReads(l, AddBlock(l, b, ok));
    case _ =>
  }

  // ---------------------------------------------------------------- Local calls

  /** What a local creation needs beyond its own checks for the index to follow: the owner signs, a send is
  made by an unfrozen account and its hash was not claimed in advance, and a minted token has no record. */
  ghost predicate Regular(l: Ledger, s: Step)
    requires s.Local()
  {
    && s.signer == s.pub
    && s.pub !in l.equivocated
    && (Created(l, s).Some? && s.CreateSend? ==> Created(l, s).value.hash !in l.payments.claimed)
    && (Created(l, s).Some? ==> FreshMint(l, Created(l, s).value))
  }

  lemma CreatedIsNextLink(l: Ledger, s: Step)
    requires ChainsOk(l) && s.Local() && Created(l, s).Some?
    ensures NextLink(l, Created(l, s).value) && Created(l, s).value.content.accountId == s.pub
    ensures s.signer == s.pub ==> Created(l, s).value.Authentic()
  {
    if s.pub in l.held {
      var h := l.held[s.pub];
      assert ChainOk(s.pub, h);
      if h.chain != [] { assert PlaceOk(s.pub, h, |h.chain| - 1); }
    }
  }

  lemma CreationKeepsIndex(l: Ledger, s: Step)
    requires Indexed(l) && s.Local() && Regular(l, s)
    ensures Indexed(Next(l, s))
  {
    if Created(l, s).Some? {
      var b := Created(l, s).value;
      CreatedIsNextLink(l, s);
      AppliedKeepsIndex(l, b);
      assert Seat(l, b) == Applied(l, b);
    }
  }

  lemma EmptyIsIndexed()
    ensures Indexed(EMPTY_LEDGER) && Leaves(EMPTY_LEDGER) == {}
  {
    forall t ensures OwnerOkFor(EMPTY_LEDGER.tokens.deeds, t) {}
  }

  /** A run of deliveries and regular local calls. */
  ghost predicate RegularRun(steps: seq<Step>) {
    steps != [] ==>
      var last := steps[|steps| - 1];
      && RegularRun(steps[..|steps| - 1])
      && (last.Deliver? || (last.Local() && Regular(Run(EMPTY_LEDGER, steps[..|steps| - 1]), last)))
  }

  /** The indexes after any such run are the ones its chains define. */
  lemma {:induction false} RunKeepsIndex(steps: seq<Step>)
    requires RegularRun(steps)
    ensures Indexed(Run(EMPTY_LEDGER, steps))
  {
    if steps == [] {
      EmptyIsIndexed();
    } else {
      var l, last := Run(EMPTY_LEDGER, steps[..|steps| - 1]), steps[|steps| - 1];
      RunKeepsIndex(steps[..|steps| - 1]);
      if last.Deliver? { DeliveryKeepsIndex(l, last.block, last.storageOk); } else { CreationKeepsIndex(l, last); }
    }
  }

  // ---------------------------------------------------------------- Chains decide the rest

  /** Two indexed ledgers with the same chains and the same frozen accounts agree on every claim and offer,
  token record, burn and custody row, and on the owner of every token that at most one account holds. */
  lemma ChainsDecide(l: Ledger, r: Ledger)
    requires Indexed(l) && Indexed(r)
    requires l.held == r.held && l.equivocated.Keys == r.equivocated.Keys
    ensures l.payments == r.payments
    ensures l.tokens.claimed == r.tokens.claimed && l.tokens.unclaimed == r.tokens.unclaimed
    ensures l.tokens.info == r.tokens.info && l.tokens.deeds.burned == r.tokens.deeds.burned
    ensures forall t, pub :: FindRow(RowsOf(l.tokens.deeds, t), pub) == FindRow(RowsOf(r.tokens.deeds, t), pub)
    ensures forall t :: |Holders(RowsOf(l.tokens.deeds, t))| <= 1 ==>
      OwnerOf(l.tokens.deeds, t) == OwnerOf(r.tokens.deeds, t)
  {
    assert Leaves(l) == Leaves(r);
    InfosAgree(l.tokens.info, r.tokens.info, Leaves(l));
    forall t, pub ensures FindRow(RowsOf(l.tokens.deeds, t), pub) == FindRow(RowsOf(r.tokens.deeds, t), pub) {
      assert ChainOf(l, pub) == ChainOf(r, pub);
    }
    forall t | |Holders(RowsOf(l.tokens.deeds, t))| <= 1
      ensures OwnerOf(l.tokens.deeds, t) == OwnerOf(r.tokens.deeds, t)
    {
      OwnersAgree(l.tokens.deeds, r.tokens.deeds, t);
    }
  }

  lemma InfosAgree(m: map<TokenId, TokenInfo>, n: map<TokenId, TokenInfo>, leaves: set<Hash>)
    requires InfosOf(m, leaves) && InfosOf(n, leaves)
    ensures m == n
  {
    forall t | t in m ensures t in n && m[t] == n[t] {
      var h :| h in leaves && Mints(h) && h.content.body.token.value == t;
    }
    forall t | t in n ensures t in m {
      var h :| h in leaves && Mints(h) && h.content.body.token.value == t;
    }
  }

  lemma OwnersAgree(d: Deeds, e: Deeds, t: TokenId)
    requires OwnersOk(d) && OwnersOk(e) && d.burned == e.burned
    requires forall pub :: FindRow(RowsOf(d, t), pub) == FindRow(RowsOf(e, t), pub)
    requires |Holders(RowsOf(d, t))| <= 1
    ensures OwnerOf(d, t) == OwnerOf(e, t)
  {
    var hs, gs := Holders(RowsOf(d, t)), Holders(RowsOf(e, t));
    assert OwnerOkFor(d, t) && OwnerOkFor(e, t);
    forall pub ensures pub in hs <==> pub in gs {
      HolderIsFound(RowsOf(d, t), pub);
      HolderIsFound(RowsOf(e, t), pub);
    }
    if hs == [] && gs != [] { assert gs[0] in hs; }
    if gs == [] && hs != [] { assert hs[0] in gs; }
    if hs != [] && gs != [] && t !in d.burned {
      assert e.owner[t] in hs && d.owner[t] in hs;
    }
  }
}
