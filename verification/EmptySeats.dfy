/** A genesis whose accumulator root is wrong is refused only after its account was stored with an empty chain, and
from then on the account is lost to this ledger: nothing ever fills the chain, and further deliveries make `addBlock`
dereference a block that is not there.
 */
module EmptySeats {
  import opened Prelude
  import opened Blocks
  import opened Ledgers
  import opened ChainIndex
  import opened Indexing
  import opened Freezing

  /** The account is held with no block. */
  predicate SeatedEmpty(l: Ledger, pub: AccountId) {
    pub in l.held && l.held[pub].chain == []
  }

  /** An `open` at height 0 that mints what it should. */
  predicate WellFormedGenesis(b: Block) {
    b.content.body.Open? && b.content.previousHash == GenesisPrev && b.content.balance == MINT
  }

  /** A signed genesis that is right in everything but its accumulator root, for an account not yet held. */
  predicate SeatsEmptyChain(l: Ledger, s: Step, pub: AccountId) {
    && s.Deliver? && s.block.Authentic() && s.block.content.accountId == pub
    && s.block.content.index == 0 && WellFormedGenesis(s.block) && s.block.root != [s.block.hash]
    && pub !in l.held && pub !in l.equivocated
  }

  lemma SeatsEmptyMove(l: Ledger, s: Step, pub: AccountId)
    ensures SeatsEmptyChain(l, s, pub) <==> MoveOf(l, s) == SeatsEmpty(pub)
  {}

  lemma CreatedLeavesNoSeat(l: Ledger, s: Step)
    requires s.Local() && Created(l, s).Some?
    ensures Created(l, s).value.content.accountId == s.pub && !SeatedEmpty(l, s.pub)
  {}

  lemma AppendLeavesNoSeat(l: Ledger, b: Block, ok: bool)
    requires Judge(l, b, ok) == Append
    ensures !SeatedEmpty(l, b.content.accountId)
  {}

  /** Whatever the entry point, an account is held without a block exactly when it was before or the step delivers
  such a genesis. */
  lemma StepSeatsEmptyIff(l: Ledger, s: Step, pub: AccountId)
    ensures SeatedEmpty(Next(l, s), pub) <==> SeatedEmpty(l, pub) || SeatsEmptyChain(l, s, pub)
  {
    NextMoves(l, s);
    SeatsEmptyMove(l, s, pub);
    match MoveOf(l, s)
    case Links(b) => if s.Local() { CreatedLeavesNoSeat(l, s); } else { AppendLeavesNoSeat(l, b, s.storageOk); }
    case _ =>
  }

  /** Some step of the run delivered such a genesis. */
  ghost predicate EverSeatedEmpty(steps: seq<Step>, pub: AccountId) {
    steps != [] &&
    var k := |steps| - 1;
    EverSeatedEmpty(steps[..k], pub) || SeatsEmptyChain(Run(EMPTY_LEDGER, steps[..k]), steps[k], pub)
  }

  /** So after any run the accounts held without a block are exactly those such a genesis was delivered for: the
  seat is never filled. */
  lemma {:induction false} RunSeatsEmptyIff(steps: seq<Step>, pub: AccountId)
    ensures SeatedEmpty(Run(EMPTY_LEDGER, steps), pub) <==> EverSeatedEmpty(steps, pub)
  {
    if steps != [] {
      var k := |steps| - 1;
      RunSeatsEmptyIff(steps[..k], pub);
      StepSeatsEmptyIff(Run(EMPTY_LEDGER, steps[..k]), steps[k], pub);
    }
  }

  /** `addBlock` throws exactly on a signed block for an account that is held without a block and not frozen, unless
  it is a malformed genesis. */
  lemma ThrowsIff(l: Ledger, b: Block, ok: bool)
    ensures Judge(l, b, ok) == Throw <==>
      && b.Authentic() && SeatedEmpty(l, b.content.accountId) && b.content.accountId !in l.equivocated
      && (b.content.index == 0 ==> WellFormedGenesis(b))
  {}

  lemma {:induction false} SeatStaysEmpty(l: Ledger, steps: seq<Step>, pub: AccountId)
    requires SeatedEmpty(l, pub)
    ensures SeatedEmpty(Run(l, steps), pub)
  {
    if steps != [] {
      var k := |steps| - 1;
      SeatStaysEmpty(l, steps[..k], pub);
      StepSeatsEmptyIff(Run(l, steps[..k]), steps[k], pub);
    }
  }

  /** Once seated empty, whatever happens next, no local call of the account succeeds, its opening included, no
  delivered block of it is appended, and its own correct genesis makes `addBlock` throw until it is frozen. */
  lemma SeatedEmptyIsLost(l: Ledger, steps: seq<Step>, s: Step, pub: AccountId)
    requires SeatedEmpty(l, pub)
    ensures
      var r := Run(l, steps);
      && (s.Local() && s.pub == pub ==> Created(r, s).None?)
      && (s.Deliver? && s.block.content.accountId == pub ==>
            && !Judge(r, s.block, s.storageOk).Outcome().Success()
            && (s.block.Authentic() && s.block.content.index == 0 && WellFormedGenesis(s.block) && pub !in r.equivocated
                ==> Judge(r, s.block, s.storageOk) == Throw))
  {
    SeatStaysEmpty(l, steps, pub);
    LostAtOnce(Run(l, steps), s, pub);
  }

  lemma LostAtOnce(l: Ledger, s: Step, pub: AccountId)
    requires SeatedEmpty(l, pub)
    ensures s.Local() && s.pub == pub ==> Created(l, s).None?
    ensures s.Deliver? && s.block.content.accountId == pub ==>
      && !Judge(l, s.block, s.storageOk).Outcome().Success()
      && (s.block.Authentic() && s.block.content.index == 0 && WellFormedGenesis(s.block) && pub !in l.equivocated
          ==> Judge(l, s.block, s.storageOk) == Throw)
  {
    if s.Local() && s.pub == pub && Created(l, s).Some? { CreatedLeavesNoSeat(l, s); }
  }

  /** One delivery is enough: a root the signer got wrong. */
  lemma EmptySeatHappens()
    ensures exists s: Step, b: Block ::
      && b.Authentic() && b.root == [b.hash] && WellFormedGenesis(b) && b.content.index == 0
      && Judge(EMPTY_LEDGER, b, false) == Append && Judge(Run(EMPTY_LEDGER, [s]), b, false) == Throw
  {
    var b := OpenBlock("pub", "pub", "", 0);
    var bad := Block(b.content, [], b.hash, Signed("pub", b.hash, []));
    var s := Deliver(bad, false);
    assert [s][..0] == [];
    assert Run(EMPTY_LEDGER, [s]) == Next(EMPTY_LEDGER, s);
    StepSeatsEmptyIff(EMPTY_LEDGER, s, "pub");
    ThrowsIff(Next(EMPTY_LEDGER, s), b, false);
  }
}
