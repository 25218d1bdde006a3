/** Token custody forgets the order in which events arrive.

Unlike chain replay, restored transfers may be applied out of their own account's order and again and
again. Custody still ends at each account's latest event, so the set of applied blocks decides it.
 */
module Custody {
  import opened Prelude
  import opened Blocks
  import opened Ledgers
  import opened ChainIndex
  import opened Indexing
  import opened Freezing

  const NO_DEEDS: Deeds := Deeds(map[], map[], {})

  /** The deeds after applying blocks in the given order. */
  function AfterAll(bs: seq<Block>): Deeds {
    if bs == [] then NO_DEEDS else ApplyDeeds(AfterAll(bs[..|bs| - 1]), bs[|bs| - 1])
  }

  ghost predicate TouchedBy(b: Block, t: TokenId, pub: AccountId) {
    b.content.accountId == pub && Touches(b, t)
  }

  /** No account shows two different events for a token at one height. */
  ghost predicate ForkFree(bs: seq<Block>) {
    forall b, c, t ::
      b in bs && c in bs && TouchedBy(b, t, c.content.accountId) && Touches(c, t) && b.content.index == c.content.index
      ==> EventOf(b) == EventOf(c)
  }

  /** `row` is the latest event of `pub` for `t` among `bs`; `None` when there is none. */
  ghost predicate IsLatest(bs: seq<Block>, t: TokenId, pub: AccountId, row: Option<CustodyRow>) {
    && (row.None? ==> forall b :: b in bs ==> !TouchedBy(b, t, pub))
    && (row.Some? ==>
          && row.value.account == pub
          && (exists b :: b in bs && TouchedBy(b, t, pub)
                && b.content.index == row.value.index && EventOf(b).value.holds == row.value.holds)
          && forall b :: b in bs && TouchedBy(b, t, pub) ==> b.content.index <= row.value.index)
  }

  /** Whatever the order and the repetitions, each account's row is its highest-index event. */
  lemma {:induction false} CustodyIsLatest(bs: seq<Block>, t: TokenId, pub: AccountId)
    ensures IsLatest(bs, t, pub, FindRow(RowsOf(AfterAll(bs), t), pub))
  {
    if bs != [] {
      var rest, b := bs[..|bs| - 1], bs[|bs| - 1];
      assert bs == rest + [b];
      CustodyIsLatest(rest, t, pub);
      DeedsFind(AfterAll(rest), b, t, pub);
      var before := FindRow(RowsOf(AfterAll(rest), t), pub);
      var after := FindRow(RowsOf(AfterAll(bs), t), pub);
      if before.Some? && after == before {
        var c :| c in rest && TouchedBy(c, t, pub)
          && c.content.index == before.value.index && EventOf(c).value.holds == before.value.holds;
        assert c in bs;
      }
    }
  }

  lemma LatestIsUnique(bs: seq<Block>, t: TokenId, pub: AccountId, row: Option<CustodyRow>, row': Option<CustodyRow>)
    requires ForkFree(bs) && IsLatest(bs, t, pub, row) && IsLatest(bs, t, pub, row')
    ensures row == row'
  {
    if row.Some? && row'.Some? {
      var b :| b in bs && TouchedBy(b, t, pub)
        && b.content.index == row.value.index && EventOf(b).value.holds == row.value.holds;
      var c :| c in bs && TouchedBy(c, t, pub)
        && c.content.index == row'.value.index && EventOf(c).value.holds == row'.value.holds;
    }
  }

  lemma {:induction false} BurnedIsSet(bs: seq<Block>)
    ensures forall t :: t in AfterAll(bs).burned <==> exists b :: b in bs && b.content.body.NftBurn? && Touches(b, t)
  {
    if bs != [] {
      var rest, b := bs[..|bs| - 1], bs[|bs| - 1];
      assert bs == rest + [b];
      BurnedIsSet(rest);
      BurnAdds(AfterAll(rest), b);
      forall t ensures t in AfterAll(bs).burned <==> exists c :: c in bs && c.content.body.NftBurn? && Touches(c, t) {
        if t in AfterAll(rest).burned {
          var c :| c in rest && c.content.body.NftBurn? && Touches(c, t);
          assert c in bs;
        }
        if b.content.body.NftBurn? && Touches(b, t) { assert b in bs; }
      }
    }
  }

  lemma BurnAdds(d: Deeds, b: Block)
    ensures forall t :: t in ApplyDeeds(d, b).burned <==> t in d.burned || (b.content.body.NftBurn? && Touches(b, t))
  {
    if EventOf(b).Some? {
      var Event(t, holds) := EventOf(b).value;
      var row := CustodyRow(b.content.accountId, b.content.index, holds);
      RecordShape(d, t, row);
      RecordShape(d.(burned := d.burned + {t}), t, row);
    }
  }

  lemma {:induction false} OwnersFit(bs: seq<Block>)
    ensures OwnersOk(AfterAll(bs))
  {
    if bs == [] {
      forall t ensures OwnerOkFor(NO_DEEDS, t) {}
    } else {
      OwnersFit(bs[..|bs| - 1]);
      DeedsKeepOwners(AfterAll(bs[..|bs| - 1]), bs[|bs| - 1]);
    }
  }

  /** Two orders of the same fork-free blocks, with any repetitions, agree on every custody row and every burn,
  and on the owner of every token with at most one holder. */
  lemma OrderDoesNotMatter(bs: seq<Block>, cs: seq<Block>)
    requires ForkFree(bs) && forall b :: b in bs <==> b in cs
    ensures AfterAll(bs).burned == AfterAll(cs).burned
    ensures forall t, pub :: FindRow(RowsOf(AfterAll(bs), t), pub) == FindRow(RowsOf(AfterAll(cs), t), pub)
    ensures forall t :: |Holders(RowsOf(AfterAll(bs), t))| <= 1 ==> OwnerOf(AfterAll(bs), t) == OwnerOf(AfterAll(cs), t)
  {
    BurnedIsSet(bs);
    BurnedIsSet(cs);
    forall t, pub ensures FindRow(RowsOf(AfterAll(bs), t), pub) == FindRow(RowsOf(AfterAll(cs), t), pub) {
      CustodyIsLatest(bs, t, pub);
      CustodyIsLatest(cs, t, pub);
      LatestTransfers(cs, bs, t, pub, FindRow(RowsOf(AfterAll(cs), t), pub));
      LatestIsUnique(bs, t, pub, FindRow(RowsOf(AfterAll(bs), t), pub), FindRow(RowsOf(AfterAll(cs), t), pub));
    }
    OwnersFit(bs);
    OwnersFit(cs);
    forall t | |Holders(RowsOf(AfterAll(bs), t))| <= 1 ensures OwnerOf(AfterAll(bs), t) == OwnerOf(AfterAll(cs), t) {
      OwnersAgree(AfterAll(bs), AfterAll(cs), t);
    }
  }

  lemma LatestTransfers(cs: seq<Block>, bs: seq<Block>, t: TokenId, pub: AccountId, row: Option<CustodyRow>)
    requires IsLatest(cs, t, pub, row) && forall b :: b in bs <==> b in cs
    ensures IsLatest(bs, t, pub, row)
  {
    if row.Some? {
      var b :| b in cs && TouchedBy(b, t, pub)
        && b.content.index == row.value.index && EventOf(b).value.holds == row.value.holds;
      assert b in bs;
    }
  }

  // ---------------------------------------------------------------- Runs of the ledger

  /** The blocks whose custody events a run applied, in order: appended, created or restored. */
  function AppliedIn(steps: seq<Step>): seq<Block> {
    if steps == [] then []
    else
      var k := |steps| - 1;
      var b := EventBlock(Run(EMPTY_LEDGER, steps[..k]), steps[k]);
      AppliedIn(steps[..k]) + (if b.Some? then [b.value] else [])
  }

  lemma {:induction false} RunAppliesEvents(steps: seq<Step>)
    ensures Run(EMPTY_LEDGER, steps).tokens.deeds == AfterAll(AppliedIn(steps))
  {
    if steps != [] {
      var k := |steps| - 1;
      RunAppliesEvents(steps[..k]);
      NextDeeds(Run(EMPTY_LEDGER, steps[..k]), steps[k]);
      var b := EventBlock(Run(EMPTY_LEDGER, steps[..k]), steps[k]);
      if b.Some? {
        var bs := AppliedIn(steps);
        assert bs[..|bs| - 1] == AppliedIn(steps[..k]);
      } else {
        assert AppliedIn(steps) == AppliedIn(steps[..k]);
      }
    }
  }

  /** Any two runs of any entry points - deliveries, local calls, restorations of transfers kept from earlier
  proofs - that applied the same fork-free blocks agree on custody, burns and single-holder owners. */
  lemma RunsAgreeOnCustody(steps: seq<Step>, steps': seq<Step>)
    requires ForkFree(AppliedIn(steps)) && forall b :: b in AppliedIn(steps) <==> b in AppliedIn(steps')
    ensures
      var d, e := Run(EMPTY_LEDGER, steps).tokens.deeds, Run(EMPTY_LEDGER, steps').tokens.deeds;
      && d.burned == e.burned
      && (forall t, pub :: FindRow(RowsOf(d, t), pub) == FindRow(RowsOf(e, t), pub))
      && forall t :: |Holders(RowsOf(d, t))| <= 1 ==> OwnerOf(d, t) == OwnerOf(e, t)
  {
    RunAppliesEvents(steps);
    RunAppliesEvents(steps');
    OrderDoesNotMatter(AppliedIn(steps), AppliedIn(steps'));
  }

  // ---------------------------------------------------------------- Owners have chains

  /** Whoever a row says holds a token has an opened chain. */
  ghost predicate HoldersHaveHeads(l: Ledger) {
    forall t, pub {:trigger Holding(RowsOf(l.tokens.deeds, t), pub)} ::
      Holding(RowsOf(l.tokens.deeds, t), pub) ==> Head(l, pub).Some?
  }

  /** A holding event comes with its block: only appended and created blocks leave their account holding. */
  lemma HoldingEventIsLinked(l: Ledger, s: Step, next: Ledger)
    requires ChainsOk(l) && next == Next(l, s)
    requires EventBlock(l, s).Some? && EventOf(EventBlock(l, s).value).Some?
    requires EventOf(EventBlock(l, s).value).value.holds
    ensures Head(next, EventBlock(l, s).value.content.accountId).Some?
  {
    NextMoves(l, s);
    var b := EventBlock(l, s).value;
    assert MoveOf(l, s) == Links(b);
    assert next.held == Extend(l, b).held;
  }

  lemma HeadsStay(l: Ledger, s: Step, next: Ledger, pub: AccountId)
    requires ChainsOk(l) && next == Next(l, s) && Head(l, pub).Some?
    ensures Head(next, pub).Some?
  {
    ChainsOnlyGrow(l, s);
    assert ChainOf(l, pub) <= ChainOf(next, pub);
  }

  lemma StepKeepsHeads(l: Ledger, s: Step, next: Ledger)
    requires ChainsOk(l) && HoldersHaveHeads(l) && next == Next(l, s)
    ensures HoldersHaveHeads(next)
  {
    NextDeeds(l, s);
    forall t, pub | Holding(RowsOf(next.tokens.deeds, t), pub) ensures Head(next, pub).Some? {
      if Holding(RowsOf(l.tokens.deeds, t), pub) {
        HeadsStay(l, s, next, pub);
      } else {
        var b := EventBlock(l, s).value;
        DeedsFind(l.tokens.deeds, b, t, pub);
        HoldingEventIsLinked(l, s, next);
      }
    }
  }

  lemma {:induction false} RunKeepsHeads(steps: seq<Step>)
    ensures ChainsOk(Run(EMPTY_LEDGER, steps)) && HoldersHaveHeads(Run(EMPTY_LEDGER, steps))
    decreases |steps|
  {
    EmptyIsIndexed();
    RunOnlyGrows(EMPTY_LEDGER, steps);
    if steps != [] {
      var k := |steps| - 1;
      RunKeepsHeads(steps[..k]);
      StepKeepsHeads(Run(EMPTY_LEDGER, steps[..k]), steps[k], Run(EMPTY_LEDGER, steps));
    }
  }

  /** In every run of every entry point a token's owner has an opened chain, so the calls that dereference the
  owner's head never meet a missing one. */
  lemma OwnersAreHeld(steps: seq<Step>, t: TokenId)
    ensures
      var l := Run(EMPTY_LEDGER, steps);
      t in l.tokens.deeds.owner ==> Head(l, l.tokens.deeds.owner[t]).Some?
  {
    var l := Run(EMPTY_LEDGER, steps);
    RunKeepsHeads(steps);
    RunKeepsOwners(steps);
    assert OwnerOkFor(l.tokens.deeds, t);
    if t in l.tokens.deeds.owner { HolderIsFound(RowsOf(l.tokens.deeds, t), l.tokens.deeds.owner[t]); }
  }

  /** So transfer and burn are refused for exactly the source's reasons, never for want of a head. */
  lemma OwnerCallsNeedNoHead(steps: seq<Step>, s: Step)
    requires s.CreateTransfer? || s.CreateBurn?
    ensures
      var l := Run(EMPTY_LEDGER, steps);
      Created(l, s).Some? <==>
        s.pub !in l.equivocated && Owns(l, s.pub, s.token) && (s.CreateTransfer? ==> s.recipient.Some?)
  {
    OwnersAreHeld(steps, s.token);
  }
}
