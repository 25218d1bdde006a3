/** Freezing equivocating accounts is sound, blind to delivery order, and final for deliveries. */
module Freezing {
  import opened Prelude
  import opened Blocks
  import opened Ledgers
  import opened ChainIndex
  import opened Indexing

  // ---------------------------------------------------------------- What a step can do to a chain

  /** How a step moves chains and frozen accounts: it appends at most one next link, or seats an empty
  chain, or freezes at most one account. */
  datatype Move = Still | Links(block: Block) | SeatsEmpty(pub: AccountId) | Freezes(evidence: Evidence)

  function MoveOf(l: Ledger, s: Step): Move {
    if s.Local() then
      if Created(l, s).Some? then Links(Created(l, s).value) else Still
    else if s.Deliver? then
      match Judge(l, s.block, s.storageOk)
      case Append => Links(s.block)
      case Fork(rival, _) => if DoubleSpend(rival, s.block) then Freezes(Evidence(rival, s.block)) else Still
      case SeatEmptyChain => SeatsEmpty(s.block.content.accountId)
      case _ => Still
    else if s.ApplyEvidence? && DoubleSpend(s.first, s.second) && s.first.Authentic() && s.second.Authentic() then
      Freezes(Evidence(s.first, s.second))
    else Still
  }

  lemma LocalMoves(l: Ledger, s: Step)
    requires s.Local()
    ensures NextLocal(l, s).equivocated == l.equivocated
    ensures NextLocal(l, s).held == if Created(l, s).Some? then Extend(l, Created(l, s).value).held else l.held
  {}

  lemma NextMoves(l: Ledger, s: Step)
    ensures
      var r := Next(l, s);
      match MoveOf(l, s)
      case Still => r.held == l.held && r.equivocated == l.equivocated
      case Links(b) => r.held == Extend(l, b).held && r.equivocated == l.equivocated
      case SeatsEmpty(pub) => pub !in l.held && r.held == l.held[pub := Held([], [])] && r.equivocated == l.equivocated
      case Freezes(ev) => r.held == l.held && r.equivocated == Freeze(l, ev).equivocated
  {
    if s.Local() { LocalMoves(l, s); }
    else if s.Deliver? { DeliveryShape(l, s.block, s.storageOk); }
  }

  lemma LinkIsNext(l: Ledger, s: Step)
    requires ChainsOk(l) && MoveOf(l, s).Links?
    ensures NextLink(l, MoveOf(l, s).block)
  {
    if s.Local() { CreatedIsNextLink(l, s); } else { AppendIsNextLink(l, s.block, s.storageOk); }
  }

  /** No entry point breaks a chain, shortens it, or thaws an account. */
  lemma ChainsOnlyGrow(l: Ledger, s: Step)
    requires ChainsOk(l)
    ensures
      var r := Next(l, s);
      && ChainsOk(r)
      && (forall pub :: ChainOf(l, pub) <= ChainOf(r, pub))
      && l.equivocated.Keys <= r.equivocated.Keys
      && forall pub :: pub in l.equivocated ==> r.equivocated[pub] == l.equivocated[pub]
  {
    NextMoves(l, s);
    match MoveOf(l, s)
    case Links(b) =>
      LinkIsNext(l, s);
      ExtendKeepsChains(l, b);
      SameHeld(Extend(l, b), Next(l, s));
    case SeatsEmpty(pub) => EmptySeatAddsNoLeaf(l, pub);
    case _ =>
  }

  lemma {:induction false} RunOnlyGrows(l: Ledger, steps: seq<Step>)
    requires ChainsOk(l)
    ensures
      var r := Run(l, steps);
      && ChainsOk(r)
      && (forall pub :: ChainOf(l, pub) <= ChainOf(r, pub))
      && l.equivocated.Keys <= r.equivocated.Keys
  {
    if steps != [] {
      RunOnlyGrows(l, steps[..|steps| - 1]);
      ChainsOnlyGrow(Run(l, steps[..|steps| - 1]), steps[|steps| - 1]);
    }
  }

  // ---------------------------------------------------------------- Soundness

  /** The blocks a step shows to the ledger: delivered, offered as evidence, or created by it. */
  function Shown(l: Ledger, s: Step): set<Block> {
    if s.Local() then
      if Created(l, s).Some? then {Created(l, s).value} else {}
    else if s.Deliver? then {s.block}
    else if s.ApplyEvidence? then {s.first, s.second}
    else {}
  }

  function Seen(steps: seq<Step>): set<Block> {
    if steps == [] then {}
    else
      var k := |steps| - 1;
      Seen(steps[..k]) + Shown(Run(EMPTY_LEDGER, steps[..k]), steps[k])
  }

  ghost predicate Witnessed(l: Ledger, seen: set<Block>) {
    && (forall pub, i :: 0 <= i < |ChainOf(l, pub)| ==> ChainOf(l, pub)[i].Authentic() && ChainOf(l, pub)[i] in seen)
    && forall pub :: pub in l.equivocated ==> GenuineEvidence(pub, l.equivocated[pub], seen)
  }

  /** Two authentic, different blocks of the account at one height on one parent, both shown to the ledger. */
  ghost predicate GenuineEvidence(pub: AccountId, ev: Evidence, seen: set<Block>) {
    && ev.first in seen && ev.second in seen
    && ev.first.Authentic() && ev.second.Authentic()
    && DoubleSpend(ev.first, ev.second) && ev.first.content.accountId == pub
  }

  lemma ExtendedIsWitnessed(l: Ledger, b: Block, r: Ledger, seen: set<Block>, more: set<Block>)
    requires Witnessed(l, seen) && seen <= more && b.Authentic() && b in more && r.equivocated == l.equivocated
    requires forall pub :: ChainOf(r, pub) == ChainOf(l, pub) + (if pub == b.content.accountId then [b] else [])
    ensures Witnessed(r, more)
  {
    forall pub, i | 0 <= i < |ChainOf(r, pub)| ensures ChainOf(r, pub)[i].Authentic() && ChainOf(r, pub)[i] in more {
      if i < |ChainOf(l, pub)| { assert ChainOf(r, pub)[i] == ChainOf(l, pub)[i]; }
    }
  }

  lemma LinkIsWitnessed(l: Ledger, s: Step, seen: set<Block>)
    requires ChainsOk(l) && Witnessed(l, seen) && (s.Local() ==> s.signer == s.pub) && MoveOf(l, s).Links?
    ensures Witnessed(Next(l, s), seen + Shown(l, s))
  {
    var b := MoveOf(l, s).block;
    NextMoves(l, s);
    LinkIsNext(l, s);
    ExtendKeepsChains(l, b);
    SameHeld(Extend(l, b), Next(l, s));
    if s.Local() { CreatedIsNextLink(l, s); } else { AppendIsNextLink(l, s.block, s.storageOk); }
    ExtendedIsWitnessed(l, b, Next(l, s), seen, seen + Shown(l, s));
  }

  lemma StepIsWitnessed(l: Ledger, s: Step, seen: set<Block>)
    requires ChainsOk(l) && Witnessed(l, seen) && (s.Local() ==> s.signer == s.pub)
    ensures Witnessed(Next(l, s), seen + Shown(l, s))
  {
    NextMoves(l, s);
    match MoveOf(l, s)
    case Links(_) => LinkIsWitnessed(l, s, seen);
    case SeatsEmpty(pub) => EmptySeatAddsNoLeaf(l, pub);
    case Freezes(ev) =>
      SameHeld(l, Next(l, s));
      FreezingIsWitnessed(l, s, seen);
    case Still => SameHeld(l, Next(l, s));
  }

  lemma FreezingIsWitnessed(l: Ledger, s: Step, seen: set<Block>)
    requires ChainsOk(l) && Witnessed(l, seen) && MoveOf(l, s).Freezes?
    ensures
      var ev := MoveOf(l, s).evidence;
      GenuineEvidence(ev.first.content.accountId, ev, seen + Shown(l, s))
  {
    if s.Deliver? {
      var b := s.block;
      var rival := Judge(l, b, s.storageOk).rival;
      var chain := ChainOf(l, b.content.accountId);
      assert rival == chain[if b.content.index == 0 then 0 else b.content.index];
    }
  }

  /** Whatever reaches the ledger, an account is frozen only on self-incriminating evidence the ledger saw. */
  lemma {:induction false} FrozenOnlyOnEvidence(steps: seq<Step>)
    requires forall s :: s in steps && s.Local() ==> s.signer == s.pub
    ensures ChainsOk(Run(EMPTY_LEDGER, steps)) && Witnessed(Run(EMPTY_LEDGER, steps), Seen(steps))
  {
    if steps != [] {
      var k := |steps| - 1;
      assert steps[k] in steps && forall s :: s in steps[..k] ==> s in steps;
      FrozenOnlyOnEvidence(steps[..k]);
      ChainsOnlyGrow(Run(EMPTY_LEDGER, steps[..k]), steps[k]);
      StepIsWitnessed(Run(EMPTY_LEDGER, steps[..k]), steps[k], Seen(steps[..k]));
    }
  }

  /** An account whose authentic blocks all lie on one chain is never frozen, whatever else is delivered. */
  lemma OneChainIsNeverFrozen(steps: seq<Step>, pub: AccountId, chain: seq<Block>)
    requires forall s :: s in steps && s.Local() ==> s.signer == s.pub
    requires forall b :: b in Seen(steps) && b.content.accountId == pub && b.Authentic() ==>
      0 <= b.content.index < |chain| && chain[b.content.index] == b
    ensures pub !in Run(EMPTY_LEDGER, steps).equivocated
  {
    FrozenOnlyOnEvidence(steps);
  }

  // ---------------------------------------------------------------- Order-blindness

  /** The held chain has `first` at the height of `second`, which conflicts with it: delivering `second` freezes. */
  lemma SiblingFreezes(l: Ledger, first: Block, second: Block, ok: bool)
    requires ChainsOk(l) && second.Authentic() && DoubleSpend(first, second)
    requires 0 <= first.content.index < |ChainOf(l, first.content.accountId)|
    requires ChainOf(l, first.content.accountId)[first.content.index] == first
    requires second.content.index == 0 ==>
      second.content.body.Open? && second.content.previousHash == GenesisPrev && second.content.balance == MINT
    ensures first.content.accountId in AddBlock(l, second, ok).equivocated
  {
    var pub := first.content.accountId;
    var h := l.held[pub];
    assert ChainOk(pub, h);
    assert PlaceOk(pub, h, |h.chain| - 1);
    if pub !in l.equivocated {
      assert Judge(l, second, ok).Fork? && Judge(l, second, ok).rival == first;
    }
  }

  lemma AppendLands(l: Ledger, b: Block, ok: bool)
    requires ChainsOk(l) && Judge(l, b, ok) == Append
    ensures ChainsOk(AddBlock(l, b, ok))
    ensures ChainOf(AddBlock(l, b, ok), b.content.accountId) == ChainOf(l, b.content.accountId) + [b]
    ensures b.Authentic() && b.content.index == |ChainOf(l, b.content.accountId)|
    ensures b.content.index == 0 ==> b.content.body.Open? && b.content.balance == MINT
    ensures b.content.previousHash == if b.content.index == 0 then GenesisPrev
      else ChainOf(l, b.content.accountId)[b.content.index - 1].hash
  {
    AppendIsNextLink(l, b, ok);
    ExtendKeepsChains(l, b);
    SameHeld(Extend(l, b), AddBlock(l, b, ok));
    var pub := b.content.accountId;
    if pub in l.held {
      assert ChainOk(pub, l.held[pub]);
      if b.content.index > 0 { assert PlaceOk(pub, l.held[pub], b.content.index - 1); }
    }
  }

  /** Two different blocks that the same ledger would each accept on one account freeze that account as soon as
  both have arrived, whichever came first and whatever arrived in between. */
  lemma ForkFreezesInEitherOrder(l: Ledger, a: Block, b: Block, okA: bool, okB: bool, between: seq<Step>)
    requires ChainsOk(l) && a.content.accountId == b.content.accountId && a.hash != b.hash
    requires Judge(l, a, okA) == Append && Judge(l, b, okB) == Append
    ensures a.content.accountId in Run(l, [Deliver(a, okA)] + between + [Deliver(b, okB)]).equivocated
    ensures a.content.accountId in Run(l, [Deliver(b, okB)] + between + [Deliver(a, okA)]).equivocated
  {
    SecondFreezes(l, a, b, okA, okB, between);
    SecondFreezes(l, b, a, okB, okA, between);
  }

  lemma SecondFreezes(l: Ledger, a: Block, b: Block, okA: bool, okB: bool, between: seq<Step>)
    requires ChainsOk(l) && a.content.accountId == b.content.accountId && a.hash != b.hash
    requires Judge(l, a, okA) == Append && Judge(l, b, okB) == Append
    ensures a.content.accountId in Run(l, [Deliver(a, okA)] + between + [Deliver(b, okB)]).equivocated
  {
    AppendLands(l, a, okA);
    AppendLands(l, b, okB);
    var l1 := AddBlock(l, a, okA);
    RunOnlyGrows(l1, between);
    var l2 := Run(l1, between);
    var steps := [Deliver(a, okA)] + between + [Deliver(b, okB)];
    assert steps[..|steps| - 1] == [Deliver(a, okA)] + between;
    RunAfter(l, Deliver(a, okA), between);
    assert ChainOf(l1, a.content.accountId) <= ChainOf(l2, a.content.accountId);
    SiblingFreezes(l2, a, b, okB);
  }

  lemma {:induction false} RunAfter(l: Ledger, s: Step, rest: seq<Step>)
    ensures Run(l, [s] + rest) == Run(Next(l, s), rest)
  {
    var steps := [s] + rest;
    if rest == [] {
      assert steps[..|steps| - 1] == [];
      assert Run(l, []) == l;
    } else {
      assert steps[..|steps| - 1] == [s] + rest[..|rest| - 1];
      RunAfter(l, s, rest[..|rest| - 1]);
    }
  }

  // ---------------------------------------------------------------- Exactly what freezes

  /** The account holds another block at the height of `b`, on the same parent. */
  predicate ConflictsWithHeld(l: Ledger, b: Block) {
    var chain, i := ChainOf(l, b.content.accountId), b.content.index;
    && 0 <= i < |chain| && chain[i].hash != b.hash && chain[i].content.previousHash == b.content.previousHash
    && (i == 0 ==> b.content.body.Open? && b.content.balance == MINT)
  }

  /** The steps that freeze `pub`: the delivery of an authentic block conflicting with the held one at its height, and
  proof of two authentic conflicting blocks. */
  predicate FreezesAccount(l: Ledger, s: Step, pub: AccountId) {
    || (s.Deliver? && s.block.content.accountId == pub && s.block.Authentic() && ConflictsWithHeld(l, s.block))
    || (s.ApplyEvidence? && s.first.Authentic() && s.second.Authentic() && s.first.hash != s.second.hash
        && s.first.content.accountId == pub == s.second.content.accountId
        && s.first.content.index == s.second.content.index
        && s.first.content.previousHash == s.second.content.previousHash)
  }

  lemma DeliveryFreezesIff(l: Ledger, b: Block, ok: bool, pub: AccountId)
    requires ChainsOk(l) && pub !in l.equivocated
    ensures MoveOf(l, Deliver(b, ok)).Freezes? && b.content.accountId == pub <==>
      FreezesAccount(l, Deliver(b, ok), pub)
  {
    if b.content.accountId in l.held {
      var h := l.held[b.content.accountId];
      assert ChainOk(b.content.accountId, h);
      if h.chain != [] { assert PlaceOk(b.content.accountId, h, |h.chain| - 1) && PlaceOk(b.content.accountId, h, 0); }
      if 0 <= b.content.index < |h.chain| { assert PlaceOk(b.content.accountId, h, b.content.index); }
    }
  }

  /** An account that is not frozen is frozen by a step of any entry point exactly when the step is one of those. */
  lemma StepFreezesIff(l: Ledger, s: Step, pub: AccountId)
    requires ChainsOk(l) && pub !in l.equivocated
    ensures pub in Next(l, s).equivocated <==> FreezesAccount(l, s, pub)
  {
    NextMoves(l, s);
    if s.Deliver? {
      DeliveryFreezesIff(l, s.block, s.storageOk, pub);
      if MoveOf(l, s).Freezes? { FrozenRivalIsSameAccount(l, s); }
    }
  }

  lemma FrozenRivalIsSameAccount(l: Ledger, s: Step)
    requires s.Deliver? && MoveOf(l, s).Freezes?
    ensures MoveOf(l, s).evidence.first.content.accountId == s.block.content.accountId
  {}

  ghost predicate EverFroze(steps: seq<Step>, pub: AccountId) {
    steps != [] &&
    var k := |steps| - 1;
    EverFroze(steps[..k], pub) || FreezesAccount(Run(EMPTY_LEDGER, steps[..k]), steps[k], pub)
  }

  /** After any run of every entry point the frozen accounts are exactly those some step froze so. */
  lemma {:induction false} RunFreezesIff(steps: seq<Step>, pub: AccountId)
    ensures pub in Run(EMPTY_LEDGER, steps).equivocated <==> EverFroze(steps, pub)
  {
    EmptyIsIndexed();
    if steps != [] {
      var k := |steps| - 1;
      RunFreezesIff(steps[..k], pub);
      RunOnlyGrows(EMPTY_LEDGER, steps[..k]);
      ChainsOnlyGrow(Run(EMPTY_LEDGER, steps[..k]), steps[k]);
      LastFreezesIff(Run(EMPTY_LEDGER, steps[..k]), steps[k], pub);
    }
  }

  lemma LastFreezesIff(l: Ledger, s: Step, pub: AccountId)
    requires ChainsOk(l)
    ensures pub in Next(l, s).equivocated <==> pub in l.equivocated || FreezesAccount(l, s, pub)
  {
    ChainsOnlyGrow(l, s);
    if pub !in l.equivocated { StepFreezesIff(l, s, pub); }
  }

  /** The account holds another authentic block at the height of the authentic `b`, and delivering `b` freezes
  nobody. */
  predicate MissedFork(l: Ledger, b: Block) {
    var chain, i := ChainOf(l, b.content.accountId), b.content.index;
    && 0 < i < |chain| && b.Authentic() && chain[i].Authentic() && chain[i].hash != b.hash
    && Judge(l, b, false).Fork? && AddBlock(l, b, false).equivocated == map[]
  }

  /** Two authentic blocks of one account at one height, but on different parents, are not held against it. */
  lemma SameHeightForkCanBeMissed()
    ensures exists steps: seq<Step>, b: Block :: MissedFork(Run(EMPTY_LEDGER, steps), b)
  {
    var updates := map["name" := "n"];
    assert "name" in updates && updates != map[];
    var s1, s2 := OpenAccount("pub", "pub", 0, "", true), CreateUpdate("pub", "pub", 0, updates);
    var l1 := Next(EMPTY_LEDGER, s1);
    assert Head(l1, "pub").Some? && ChainOf(l1, "pub") == [Created(EMPTY_LEDGER, s1).value];
    EmptyIsIndexed();
    ChainsOnlyGrow(EMPTY_LEDGER, s1);
    MissedAfterTwo(s1, s2, l1, MakeBlock(Content("pub", 1, GenesisPrev, 0, MINT, Update(map[])), [], "pub"));
  }

  lemma MissedAfterTwo(s1: Step, s2: Step, l: Ledger, b: Block)
    requires l == Next(EMPTY_LEDGER, s1) && ChainsOk(l) && l.equivocated == map[]
    requires s2.CreateUpdate? && Created(l, s2).Some? && s2.signer == s2.pub && |ChainOf(l, s2.pub)| == 1
    requires b.Authentic() && b.content.accountId == s2.pub && b.content.index == 1
    requires b.content.previousHash == GenesisPrev
    ensures exists steps: seq<Step>, b: Block :: MissedFork(Run(EMPTY_LEDGER, steps), b)
  {
    OtherParentIsMissed(l, s2, b);
    var steps := [s1, s2];
    assert steps[..1] == [s1] && [s1][..0] == [];
    assert Run(EMPTY_LEDGER, [s1]) == l;
    assert Run(EMPTY_LEDGER, steps) == Next(l, s2);
  }

  lemma OtherParentIsMissed(l: Ledger, s: Step, b: Block)
    requires ChainsOk(l) && s.CreateUpdate? && Created(l, s).Some? && s.signer == s.pub && l.equivocated == map[]
    requires |ChainOf(l, s.pub)| == 1 && b.Authentic() && b.content.accountId == s.pub && b.content.index == 1
    requires b.content.previousHash == GenesisPrev
    ensures MissedFork(Next(l, s), b)
  {
    var c, r := Created(l, s).value, Next(l, s);
    CreatedIsNextLink(l, s);
    ExtendKeepsChains(l, c);
    SameHeld(Extend(l, c), r);
    assert ChainOf(r, s.pub) == ChainOf(l, s.pub) + [c];
    assert PlaceOk(s.pub, r.held[s.pub], 1) && PlaceOk(s.pub, r.held[s.pub], 0);
    assert c.content.previousHash.ContentHash?;
  }

  // ---------------------------------------------------------------- Finality

  /** Once frozen, an account stays frozen and no delivery, registration, restoration or evidence moves its
  chain again; only calls its own owner makes locally still could. */
  lemma {:induction false} FrozenChainStaysPut(l: Ledger, pub: AccountId, steps: seq<Step>)
    requires ChainsOk(l) && pub in l.equivocated
    requires forall s :: s in steps && s.Local() ==> s.pub != pub
    ensures pub in Run(l, steps).equivocated && ChainOf(Run(l, steps), pub) == ChainOf(l, pub)
  {
    if steps != [] {
      var k := |steps| - 1;
      var m := Run(l, steps[..k]);
      assert steps[k] in steps && forall s :: s in steps[..k] ==> s in steps;
      FrozenChainStaysPut(l, pub, steps[..k]);
      RunOnlyGrows(l, steps[..k]);
      ChainsOnlyGrow(m, steps[k]);
      NextMoves(m, steps[k]);
      match MoveOf(m, steps[k]) {
        case Links(b) =>
          LinkIsNext(m, steps[k]);
          if steps[k].Local() {
            CreatedIsNextLink(m, steps[k]);
          } else {
            AppendIsNextLink(m, steps[k].block, steps[k].storageOk);
          }
        case SeatsEmpty(p) => EmptySeatAddsNoLeaf(m, p);
        case _ => SameHeld(m, Next(m, steps[k]));
      }
    }
  }

  /** The local calls a frozen account can still make, exactly: opening a chain that is not held, sending what
  its head affords, and receiving what is on offer to it. */
  lemma FrozenLocalCalls(l: Ledger, s: Step)
    requires s.Local() && s.pub in l.equivocated
    ensures Created(l, s).Some? <==>
      match s
      case OpenAccount(pub, _, _, _, identityOk) => pub !in l.held && identityOk
      case CreateSend(pub, _, _, recipient, amount, bonded) =>
        recipient.Some? && Head(l, pub).Some? && 0 < amount <= Head(l, pub).value.content.balance - bonded
      case CreateReceive(pub, _, _, source) =>
        Head(l, pub).Some? && source in l.payments.unclaimed && l.payments.unclaimed[source].toPub == pub
      case _ => false
  {}

  // ---------------------------------------------------------------- What a frozen account has on offer

  ghost predicate PaymentsClear(p: Payments, frozen: set<AccountId>) {
    forall h :: h in p.unclaimed ==> p.unclaimed[h].fromPub !in frozen
  }

  ghost predicate TokensClear(t: Tokens, frozen: set<AccountId>) {
    forall h :: h in t.unclaimed ==> t.unclaimed[h].fromPub !in frozen
  }

  /** Nothing of a frozen account is on offer. */
  ghost predicate FrozenOffersNone(l: Ledger) {
    PaymentsClear(l.payments, l.equivocated.Keys) && TokensClear(l.tokens, l.equivocated.Keys)
  }

  /** Restoring this block puts it on offer: an authentic addressed send that is neither claimed nor offered, or
  an authentic addressed transfer that is not claimed. */
  predicate RestoreOffers(l: Ledger, b: Block) {
    b.Authentic() &&
    match b.content.body
    case Send(recipient, amount) =>
      recipient.Some? && amount.Some? && b.hash !in l.payments.claimed && b.hash !in l.payments.unclaimed
    case NftSend(token, recipient) => token.Some? && recipient.Some? && b.hash !in l.tokens.claimed
    case _ => false
  }

  /** The step offers something of a frozen account: a restoration, which does not look at freezes, or a send the
  frozen account creates itself. */
  predicate Reoffers(l: Ledger, s: Step) {
    || (s.Restore? && s.block.content.accountId in l.equivocated && RestoreOffers(l, s.block))
    || (s.CreateSend? && s.pub in l.equivocated && Created(l, s).Some?)
  }

  lemma AppliedTokensClear(t: Tokens, b: Block, frozen: set<AccountId>)
    requires TokensClear(t, frozen)
    ensures TokensClear(ApplyTokens(t, b), frozen) <==>
      !(b.content.accountId in frozen && b.content.body.NftSend? && EventOf(b).Some? && b.hash !in t.claimed)
  {
    var r := ApplyTokens(t, b);
    if b.content.body.NftSend? && EventOf(b).Some? && b.hash !in t.claimed {
      assert b.hash in r.unclaimed && r.unclaimed[b.hash].fromPub == b.content.accountId;
    }
  }

  lemma AppliedPaymentsClear(p: Payments, b: Block, frozen: set<AccountId>)
    requires PaymentsClear(p, frozen) && b.content.accountId !in frozen
    ensures PaymentsClear(ApplyPayments(p, b), frozen)
  {}

  lemma DeliveryStaysClear(l: Ledger, b: Block, ok: bool)
    requires FrozenOffersNone(l)
    ensures FrozenOffersNone(AddBlock(l, b, ok))
  {
    DeliveryShape(l, b, ok);
    match Judge(l, b, ok)
    case Append =>
      AppliedTokensClear(l.tokens, b, l.equivocated.Keys);
      AppliedPaymentsClear(l.payments, b, l.equivocated.Keys);
    case _ =>
  }

  lemma LocalStaysClearIff(l: Ledger, s: Step)
    requires FrozenOffersNone(l) && s.Local()
    ensures FrozenOffersNone(Next(l, s)) <==> !Reoffers(l, s)
  {
    if Created(l, s).Some? {
      var b, r := Created(l, s).value, Next(l, s);
      LocalMoves(l, s);
      assert r.tokens == ApplyTokens(l.tokens, b) && r.payments == SeatPayments(l.payments, b);
      CreatedKind(l, s);
      AppliedTokensClear(l.tokens, b, l.equivocated.Keys);
      if s.CreateSend? { assert b.hash in r.payments.unclaimed && r.payments.unclaimed[b.hash].fromPub == s.pub; }
    }
  }

  /** Which calls create sends and transfers, and for whom. */
  lemma CreatedKind(l: Ledger, s: Step)
    requires s.Local() && Created(l, s).Some?
    ensures
      var b := Created(l, s).value;
      && b.content.accountId == s.pub
      && (b.content.body.NftSend? ==> s.pub !in l.equivocated)
      && (b.content.body.Send? <==> s.CreateSend?)
      && (s.CreateSend? ==> b.content.body.recipient.Some? && b.content.body.amount.Some?)
  {}

  lemma RestoreStaysClearIff(l: Ledger, b: Block)
    requires FrozenOffersNone(l)
    ensures FrozenOffersNone(RestoreVerifiedBlock(l, b)) <==>
      !(b.content.accountId in l.equivocated && RestoreOffers(l, b))
  {
    var r := RestoreVerifiedBlock(l, b);
    assert r.equivocated == l.equivocated;
    if RestoreOffers(l, b) {
      if b.content.body.Send? {
        assert b.hash in r.payments.unclaimed && r.payments.unclaimed[b.hash].fromPub == b.content.accountId;
      } else {
        assert r.tokens == ApplyTokens(l.tokens, b);
      }
    }
    AppliedTokensClear(l.tokens, b, l.equivocated.Keys);
  }

  /** From a state where frozen accounts offer nothing, a step of any entry point keeps it so exactly when it is
  none of the two that re-offer. */
  lemma StepStaysClearIff(l: Ledger, s: Step)
    requires FrozenOffersNone(l)
    ensures FrozenOffersNone(Next(l, s)) <==> !Reoffers(l, s)
  {
    if s.Local() { LocalStaysClearIff(l, s); }
    else if s.Deliver? { DeliveryStaysClear(l, s.block, s.storageOk); }
    else if s.Restore? { RestoreStaysClearIff(l, s.block); }
  }

  ghost predicate AlwaysClear(steps: seq<Step>) {
    FrozenOffersNone(Run(EMPTY_LEDGER, steps)) && (steps != [] ==> AlwaysClear(steps[..|steps| - 1]))
  }

  ghost predicate NeverReoffers(steps: seq<Step>) {
    steps != [] ==>
      var k := |steps| - 1;
      NeverReoffers(steps[..k]) && !Reoffers(Run(EMPTY_LEDGER, steps[..k]), steps[k])
  }

  /** Over every run of every entry point: frozen accounts never have anything on offer if and only if no step
  re-offers. */
  lemma {:induction false} FrozenOfferNothingIff(steps: seq<Step>)
    ensures AlwaysClear(steps) <==> NeverReoffers(steps)
  {
    if steps != [] {
      var k := |steps| - 1;
      FrozenOfferNothingIff(steps[..k]);
      if AlwaysClear(steps[..k]) { LastStaysClearIff(steps); }
    }
  }

  lemma LastStaysClearIff(steps: seq<Step>)
    requires steps != [] && FrozenOffersNone(Run(EMPTY_LEDGER, steps[..|steps| - 1]))
    ensures FrozenOffersNone(Run(EMPTY_LEDGER, steps)) <==>
      !Reoffers(Run(EMPTY_LEDGER, steps[..|steps| - 1]), steps[|steps| - 1])
  {
    StepStaysClearIff(Run(EMPTY_LEDGER, steps[..|steps| - 1]), steps[|steps| - 1]);
  }

  /** Reloading undoes a freeze: restoring the very send whose refusal froze its account puts it back on offer,
  and its recipient can claim it while the account stays frozen. */
  lemma RestoreUndoesFreeze(l: Ledger, b: Block, ok: bool, signer: AccountId, timestamp: int)
    requires Judge(l, b, ok).Fork? && DoubleSpend(Judge(l, b, ok).rival, b)
    requires b.content.body.Send? && b.content.body.recipient.Some? && b.content.body.amount.Some?
    requires b.hash !in l.payments.claimed && b.hash !in l.payments.unclaimed
    ensures
      var frozen := AddBlock(l, b, ok);
      var restored := Next(frozen, Restore(b));
      var to := b.content.body.recipient.value;
      && b.content.accountId in restored.equivocated
      && b.hash !in frozen.payments.unclaimed && b.hash in restored.payments.unclaimed
      && (Head(l, to).Some? ==> Created(restored, CreateReceive(to, signer, timestamp, b.hash)).Some?)
  {
    DeliveryShape(l, b, ok);
    assert RestoreOffers(AddBlock(l, b, ok), b);
  }

  /** Three steps from the empty ledger after which a frozen account's send can be claimed. */
  lemma FrozenSendCanBeClaimed()
    ensures exists steps: seq<Step>, s: Step, c: Content ::
      && s.CreateReceive? && s.source == ContentHash(c) && c.accountId in Run(EMPTY_LEDGER, steps).equivocated
      && Created(Run(EMPTY_LEDGER, steps), s).Some?
  {
    var c, d := Content("sender", 1, GenesisPrev, 0, 0, Send(Some("to"), Some(1))),
                Content("sender", 1, GenesisPrev, 0, 0, Send(Some("to"), Some(2)));
    var a, b := MakeBlock(c, [], "sender"), MakeBlock(d, [], "sender");
    var s1, s2, s3 := OpenAccount("to", "to", 0, "", true), ApplyEvidence(a, b), Restore(a);
    var l1 := Next(EMPTY_LEDGER, s1);
    var l2 := Next(l1, s2);
    var l3 := Next(l2, s3);
    assert Head(l1, "to").Some? && l2.held == l1.held && l3.held == l1.held;
    assert "sender" in l2.equivocated && a.hash !in l2.payments.claimed && a.hash !in l2.payments.unclaimed;
    assert l3.payments.unclaimed[a.hash] == Transfer("sender", "to", 1);
    RunOfThree(EMPTY_LEDGER, s1, s2, s3);
    assert Created(l3, CreateReceive("to", "to", 0, ContentHash(c))).Some?;
  }

  lemma RunOfThree(l: Ledger, s1: Step, s2: Step, s3: Step)
    ensures Run(l, [s1, s2, s3]) == Next(Next(Next(l, s1), s2), s3)
  {
    var steps := [s1, s2, s3];
    assert steps[..2] == [s1, s2] && [s1, s2][..1] == [s1] && [s1][..0] == [];
    assert Run(l, [s1]) == Next(l, s1);
    assert Run(l, [s1, s2]) == Next(Next(l, s1), s2);
  }
}
