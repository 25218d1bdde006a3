/** A transfer is claimable at most once. */
module ClaimOnce {
  import opened Prelude
  import opened Blocks
  import opened Ledgers
  import opened ChainIndex
  import opened Indexing

  /** Nothing is both on offer and claimed. */
  ghost predicate ClaimsDisjoint(l: Ledger) {
    l.payments.unclaimed.Keys !! l.payments.claimed && l.tokens.unclaimed.Keys !! l.tokens.claimed
  }

  /** A created send has a hash no receive has named yet. */
  ghost predicate FreshSend(l: Ledger, s: Step) {
    s.CreateSend? && Created(l, s).Some? ==> Created(l, s).value.hash !in l.payments.claimed
  }

  lemma TokensStayDisjoint(t: Tokens, b: Block)
    requires t.unclaimed.Keys !! t.claimed
    ensures ApplyTokens(t, b).unclaimed.Keys !! ApplyTokens(t, b).claimed && t.claimed <= ApplyTokens(t, b).claimed
  {}

  lemma PaymentsStayDisjoint(p: Payments, b: Block)
    requires p.unclaimed.Keys !! p.claimed
    ensures ApplyPayments(p, b).unclaimed.Keys !! ApplyPayments(p, b).claimed
    ensures p.claimed <= ApplyPayments(p, b).claimed
  {}

  lemma LocalStaysDisjoint(l: Ledger, s: Step)
    requires s.Local() && ClaimsDisjoint(l)
    ensures l.payments.claimed <= NextLocal(l, s).payments.claimed && l.tokens.claimed <= NextLocal(l, s).tokens.claimed
    ensures NextLocal(l, s).tokens.unclaimed.Keys !! NextLocal(l, s).tokens.claimed
    ensures FreshSend(l, s) ==> ClaimsDisjoint(NextLocal(l, s))
  {
    if Created(l, s).Some? {
      var b := Created(l, s).value;
      TokensStayDisjoint(l.tokens, b);
      PaymentsStayDisjoint(l.payments, b);
      assert NextLocal(l, s).tokens == ApplyTokens(l.tokens, b);
      assert NextLocal(l, s).payments == SeatPayments(l.payments, b);
    }
  }

  lemma DeliveryStaysDisjoint(l: Ledger, b: Block, ok: bool)
    requires ClaimsDisjoint(l)
    ensures ClaimsDisjoint(AddBlock(l, b, ok))
    ensures l.payments.claimed <= AddBlock(l, b, ok).payments.claimed
    ensures l.tokens.claimed <= AddBlock(l, b, ok).tokens.claimed
  {
    DeliveryShape(l, b, ok);
    TokensStayDisjoint(l.tokens, b);
    PaymentsStayDisjoint(l.payments, b);
    match Judge(l, b, ok)
    case Fork(rival, _) => FreezeShape(l, Evidence(rival, b)); FreezeShrinks(l, Evidence(rival, b));
    case _ =>
  }

  lemma FreezeShrinks(l: Ledger, ev: Evidence)
    ensures Freeze(l, ev).payments.unclaimed.Keys <= l.payments.unclaimed.Keys
    ensures Freeze(l, ev).tokens.unclaimed.Keys <= l.tokens.unclaimed.Keys
  {}

  /** Every entry point keeps offers and claims apart and never takes a claim back, provided a created send's
  hash is fresh. */
  lemma NextStaysDisjoint(l: Ledger, s: Step)
    requires ClaimsDisjoint(l) && FreshSend(l, s)
    ensures ClaimsDisjoint(Next(l, s))
    ensures l.payments.claimed <= Next(l, s).payments.claimed && l.tokens.claimed <= Next(l, s).tokens.claimed
  {
    if s.Local() { LocalStaysDisjoint(l, s); }
    else if s.Deliver? { DeliveryStaysDisjoint(l, s.block, s.storageOk); }
    else if s.Restore? { TokensStayDisjoint(l.tokens, s.block); }
    else if s.ApplyEvidence? {
      FreezeShape(l, Evidence(s.first, s.second));
      FreezeShrinks(l, Evidence(s.first, s.second));
    }
  }

  /** The freshness premise is exact: creating a send is the only call that does not look at the claims, and
  it puts a hash on offer twice exactly when that hash was claimed in advance. */
  lemma CreatedSendNeedsFreshHash(l: Ledger, s: Step)
    requires ClaimsDisjoint(l) && s.CreateSend? && Created(l, s).Some?
    ensures ClaimsDisjoint(Next(l, s)) <==> Created(l, s).value.hash !in l.payments.claimed
  {
    var b := Created(l, s).value;
    LocalStaysDisjoint(l, s);
    assert NextLocal(l, s).payments == SeatPayments(l.payments, b);
    assert b.hash in NextLocal(l, s).payments.unclaimed.Keys && b.hash in l.payments.claimed
      ==> b.hash in NextLocal(l, s).payments.unclaimed.Keys * NextLocal(l, s).payments.claimed;
  }

  ghost predicate FreshAt(steps: seq<Step>, k: nat)
    requires k < |steps|
  {
    FreshSend(Run(EMPTY_LEDGER, steps[..k]), steps[k])
  }

  ghost predicate FreshRun(steps: seq<Step>) {
    forall k: nat :: k < |steps| ==> FreshAt(steps, k)
  }

  lemma {:induction false} RunStaysDisjoint(steps: seq<Step>, k: nat)
    requires FreshRun(steps) && k <= |steps|
    ensures ClaimsDisjoint(Run(EMPTY_LEDGER, steps[..k]))
  {
    if k > 0 {
      assert FreshAt(steps, k - 1);
      RunStaysDisjoint(steps, k - 1);
      assert steps[..k][..k - 1] == steps[..k - 1] && steps[..k][k - 1] == steps[k - 1];
      NextStaysDisjoint(Run(EMPTY_LEDGER, steps[..k - 1]), steps[k - 1]);
    }
  }

  /** And exact over whole runs of every entry point: offers and claims stay apart throughout if and only if every
  created send had a fresh hash. */
  lemma AlwaysDisjointIff(steps: seq<Step>)
    ensures AlwaysDisjoint(steps) <==> FreshRun(steps)
  {
    if FreshRun(steps) {
      forall k | 0 <= k <= |steps| ensures ClaimsDisjoint(Run(EMPTY_LEDGER, steps[..k])) {
        RunStaysDisjoint(steps, k);
      }
    }
    if AlwaysDisjoint(steps) {
      forall k: nat | k < |steps| ensures FreshAt(steps, k) {
        DisjointStepIsFresh(steps, k, Run(EMPTY_LEDGER, steps[..k]));
      }
    }
  }

  ghost predicate AlwaysDisjoint(steps: seq<Step>) {
    forall k :: 0 <= k <= |steps| ==> ClaimsDisjoint(Run(EMPTY_LEDGER, steps[..k]))
  }

  lemma DisjointStepIsFresh(steps: seq<Step>, k: nat, l: Ledger)
    requires AlwaysDisjoint(steps) && k < |steps| && l == Run(EMPTY_LEDGER, steps[..k])
    ensures FreshSend(l, steps[k])
  {
    assert steps[..k + 1][..k] == steps[..k] && steps[..k + 1][k] == steps[k];
    assert ClaimsDisjoint(Run(EMPTY_LEDGER, steps[..k + 1]));
    if steps[k].CreateSend? && Created(l, steps[k]).Some? { CreatedSendNeedsFreshHash(l, steps[k]); }
  }

  lemma OneMoreKeepsClaims(steps: seq<Step>, k: nat, before: Ledger, after: Ledger)
    requires k < |steps| && before == Run(EMPTY_LEDGER, steps[..k]) && after == Run(EMPTY_LEDGER, steps[..k + 1])
    requires ClaimsDisjoint(before) && FreshSend(before, steps[k])
    ensures before.payments.claimed <= after.payments.claimed && before.tokens.claimed <= after.tokens.claimed
  {
    assert steps[..k + 1][..k] == steps[..k] && steps[..k + 1][k] == steps[k];
    NextStaysDisjoint(before, steps[k]);
  }

  /** All claims, of payments and of tokens, after each number of steps. */
  function ClaimHistory(steps: seq<Step>): seq<(set<Hash>, set<Hash>)> {
    seq(|steps| + 1, k requires 0 <= k <= |steps| =>
      (Run(EMPTY_LEDGER, steps[..k]).payments.claimed, Run(EMPTY_LEDGER, steps[..k]).tokens.claimed))
  }

  lemma {:induction false} GrowingHistory(history: seq<(set<Hash>, set<Hash>)>, i: nat, j: nat)
    requires i <= j < |history|
    requires forall k :: 0 <= k < |history| - 1 ==> history[k].0 <= history[k + 1].0 && history[k].1 <= history[k + 1].1
    ensures history[i].0 <= history[j].0 && history[i].1 <= history[j].1
    decreases j
  {
    if i < j { GrowingHistory(history, i, j - 1); }
  }

  /** No step takes a claim back. */
  lemma ClaimsPersist(steps: seq<Step>, i: nat, j: nat)
    requires FreshRun(steps) && i <= j <= |steps|
    ensures Run(EMPTY_LEDGER, steps[..i]).payments.claimed <= Run(EMPTY_LEDGER, steps[..j]).payments.claimed
    ensures Run(EMPTY_LEDGER, steps[..i]).tokens.claimed <= Run(EMPTY_LEDGER, steps[..j]).tokens.claimed
  {
    var history := ClaimHistory(steps);
    forall k | 0 <= k < |steps| ensures history[k].0 <= history[k + 1].0 && history[k].1 <= history[k + 1].1 {
      assert FreshAt(steps, k);
      RunStaysDisjoint(steps, k);
      OneMoreKeepsClaims(steps, k, Run(EMPTY_LEDGER, steps[..k]), Run(EMPTY_LEDGER, steps[..k + 1]));
    }
    GrowingHistory(history, i, j);
  }

  lemma ClaimIsRecorded(l: Ledger, s: Step)
    requires s.CreateReceive? || s.CreateReceiveNft?
    requires Created(l, s).Some?
    ensures s.CreateReceive? ==> s.source in l.payments.unclaimed && s.source in Next(l, s).payments.claimed
    ensures s.CreateReceiveNft? ==> s.source in l.tokens.unclaimed && s.source in Next(l, s).tokens.claimed
  {
    var b := Created(l, s).value;
    assert Next(l, s).payments == SeatPayments(l.payments, b);
    assert Next(l, s).tokens == ApplyTokens(l.tokens, b);
  }

  /** No run lets two claims of one transfer both succeed, for payments or for tokens: deliveries, proofs,
  restorations and freezes in between never put a claimed hash back on offer. */
  lemma ClaimedAtMostOnce(steps: seq<Step>, i: nat, j: nat)
    requires FreshRun(steps) && i < j < |steps|
    requires
      || (steps[i].CreateReceive? && steps[j].CreateReceive?)
      || (steps[i].CreateReceiveNft? && steps[j].CreateReceiveNft?)
    requires steps[i].source == steps[j].source
    requires Created(Run(EMPTY_LEDGER, steps[..i]), steps[i]).Some?
    ensures Created(Run(EMPTY_LEDGER, steps[..j]), steps[j]).None?
  {
    ClaimIsRecorded(Run(EMPTY_LEDGER, steps[..i]), steps[i]);
    assert steps[..i + 1][..i] == steps[..i] && steps[..i + 1][i] == steps[i];
    ClaimsPersist(steps, i + 1, j);
    RunStaysDisjoint(steps, j);
    if Created(Run(EMPTY_LEDGER, steps[..j]), steps[j]).Some? {
      ClaimIsRecorded(Run(EMPTY_LEDGER, steps[..j]), steps[j]);
    }
  }

  /** `addBlock` judges a delivered block without consulting the payment claims at all, so a second foreign
  receive of one send is refused only for other reasons. */
  lemma DeliveryIgnoresClaims(l: Ledger, p: Payments, b: Block, ok: bool)
    ensures Judge(l.(payments := p), b, ok) == Judge(l, b, ok)
  {}
}
