/** Replay convergence: blocks of fork-free chains may reach a ledger in any cross-account order and any
number of times, receives before their sends included; only the set of delivered blocks matters.
 */
module Replay {
  import opened Prelude
  import opened Blocks
  import opened Ledgers
  import opened ChainIndex
  import opened Indexing

  /** One fork-free chain for each account. */
  type Family = map<AccountId, seq<Block>>

  function HashesOf(chain: seq<Block>): (hs: Root)
    ensures |hs| == |chain| && forall i :: 0 <= i < |chain| ==> hs[i] == chain[i].hash
  {
    seq(|chain|, i requires 0 <= i < |chain| => chain[i].hash)
  }

  /** What a block must satisfy on top of its predecessor alone, whatever else the ledger holds. */
  predicate Lawful(prev: Block, b: Block) {
    var before, after := prev.content.balance, b.content.balance;
    match b.content.body
    case Send(recipient, amount) => amount.Some? && amount.value > 0 && after >= 0 && after == before - amount.value
    case Receive(source, amount) => amount.Some? && amount.value > 0 && after == before + amount.value
    case Update(_) => after == before
    case NftMint(token, contentRef, _) => after == before && token.Some? && contentRef != ""
    case NftSend(token, recipient) => after == before && token.Some? && recipient.Some?
    case NftReceive(token, source) => after == before && token.Some? && source.Some?
    case NftBurn(token) => after == before && token.Some?
    case _ => false
  }

  ghost predicate LinkOk(chain: seq<Block>, i: nat)
    requires i < |chain|
  {
    && chain[i].Authentic()
    && if i == 0 then chain[0].content.body.Open? && chain[0].content.balance == MINT
       else Lawful(chain[i - 1], chain[i])
  }

  ghost predicate FamilyOk(f: Family) {
    && (forall pub :: pub in f ==> ChainOk(pub, Held(f[pub], HashesOf(f[pub]))))
    && (forall pub :: pub in f ==> forall i: nat :: i < |f[pub]| ==> LinkOk(f[pub], i))
  }

  ghost predicate InFamily(f: Family, b: Block) {
    var c := b.content;
    c.accountId in f && 0 <= c.index < |f[c.accountId]| && f[c.accountId][c.index] == b
  }

  /** Every receive whose source is a block of the family names a send of its amount to its account. */
  ghost predicate Matched(f: Family) {
    forall r, s :: InFamily(f, r) && InFamily(f, s) && r.content.body.Receive? && r.content.body.source == Some(s.hash)
      ==> Pays(s, r.content.accountId, r.content.body.amount)
  }

  predicate IsPayment(b: Block) {
    b.content.body.Open? || b.content.body.Send? || b.content.body.Receive? || b.content.body.Update?
  }

  ghost predicate PaymentFamily(f: Family) {
    forall b :: InFamily(f, b) ==> IsPayment(b)
  }

  // ---------------------------------------------------------------- Deliveries

  /** Deliveries of family blocks in which each account's blocks first appear in that account's own order. */
  ghost predicate OwnOrder(f: Family, steps: seq<Step>) {
    forall k :: 0 <= k < |steps| ==>
      && steps[k].Deliver? && InFamily(f, steps[k].block)
      && (steps[k].block.content.index > 0 ==> exists j :: 0 <= j < k && PrecedesIn(f, steps[j], steps[k].block))
  }

  /** Step `s` delivered the block just below `b` on its chain. */
  ghost predicate PrecedesIn(f: Family, s: Step, b: Block)
    requires InFamily(f, b) && b.content.index > 0
  {
    s.Deliver? && s.block == f[b.content.accountId][b.content.index - 1]
  }

  /** Every delivery of the run succeeds. */
  ghost predicate Accepted(steps: seq<Step>) {
    steps != [] ==>
      var k := |steps| - 1;
      && Accepted(steps[..k])
      && steps[k].Deliver?
      && Judge(Run(EMPTY_LEDGER, steps[..k]), steps[k].block, steps[k].storageOk).Outcome().Success()
  }

  /** The blocks a run delivered. */
  function Delivered(steps: seq<Step>): set<Block> {
    set s | s in steps && s.Deliver? :: s.block
  }

  /** One more than the highest index of `pub` delivered. */
  function Reached(steps: seq<Step>, pub: AccountId): nat {
    if steps == [] then 0
    else
      var before, last := Reached(steps[..|steps| - 1], pub), steps[|steps| - 1];
      if last.Deliver? && last.block.content.accountId == pub && last.block.content.index >= before
      then last.block.content.index + 1 else before
  }

  lemma {:induction false} ReachedCovers(steps: seq<Step>, pub: AccountId)
    ensures forall b :: b in Delivered(steps) && b.content.accountId == pub ==> b.content.index < Reached(steps, pub)
    ensures Reached(steps, pub) > 0 ==>
      exists b :: b in Delivered(steps) && b.content.accountId == pub && b.content.index == Reached(steps, pub) - 1
  {
    if steps != [] {
      var rest, last := steps[..|steps| - 1], steps[|steps| - 1];
      ReachedCovers(rest, pub);
      assert steps == rest + [last];
      assert Delivered(steps) == Delivered(rest) + (if last.Deliver? then {last.block} else {});
    }
  }

  lemma SameBlocksSameReach(steps: seq<Step>, steps': seq<Step>, pub: AccountId)
    requires Delivered(steps) == Delivered(steps')
    ensures Reached(steps, pub) == Reached(steps', pub)
  {
    ReachedCovers(steps, pub);
    ReachedCovers(steps', pub);
  }

  // ---------------------------------------------------------------- A ledger following a family

  ghost predicate BlocksOk(f: Family, l: Ledger) {
    && l.allBlocks.Keys == Leaves(l)
    && forall h :: h in l.allBlocks ==> l.allBlocks[h].hash == h && InFamily(f, l.allBlocks[h])
  }

  ghost predicate Follows(f: Family, l: Ledger) {
    && Indexed(l) && l.equivocated == map[] && BlocksOk(f, l)
    && forall pub :: pub in l.held ==> pub in f && l.held[pub].chain != [] && l.held[pub].chain <= f[pub]
  }

  lemma RepeatChangesNothing(f: Family, l: Ledger, b: Block, ok: bool)
    requires FamilyOk(f) && Follows(f, l) && InFamily(f, b) && b.content.index < |ChainOf(l, b.content.accountId)|
    ensures Judge(l, b, ok) == Repeat
  {
    var pub := b.content.accountId;
    assert LinkOk(f[pub], b.content.index);
    assert ChainOk(pub, Held(f[pub], HashesOf(f[pub])));
    assert PlaceOk(pub, Held(f[pub], HashesOf(f[pub])), b.content.index);
    assert l.held[pub].chain[b.content.index] == f[pub][b.content.index];
    var n := |l.held[pub].chain|;
    assert PlaceOk(pub, Held(f[pub], HashesOf(f[pub])), n - 1);
    assert l.held[pub].chain[n - 1] == f[pub][n - 1];
  }

  lemma AccFollows(f: Family, l: Ledger, pub: AccountId)
    requires FamilyOk(f) && Follows(f, l)
    ensures pub in l.held ==> l.held[pub].acc == HashesOf(f[pub])[..|l.held[pub].chain|]
  {
    if pub in l.held {
      var h := l.held[pub];
      assert ChainOk(pub, h);
      forall i | 0 <= i < |h.chain| ensures h.acc[i] == HashesOf(f[pub])[i] {
        assert PlaceOk(pub, h, i) && h.chain[i] == f[pub][i];
      }
    }
  }

  /** The next block of an account's chain can be refused only by the rule that consults other accounts. */
  lemma NextIsJudgedByBody(f: Family, l: Ledger, b: Block, ok: bool)
    requires FamilyOk(f) && Follows(f, l) && InFamily(f, b) && b.content.index == |ChainOf(l, b.content.accountId)|
    ensures
      if b.content.index == 0 then Judge(l, b, ok) == Append
      else
        && Head(l, b.content.accountId) == Some(f[b.content.accountId][b.content.index - 1])
        && var err := BodyError(l, f[b.content.accountId][b.content.index - 1], b, ok);
           Judge(l, b, ok) == if err.Some? then Refuse(err.value) else Append
  {
    var pub, i := b.content.accountId, b.content.index;
    var whole := Held(f[pub], HashesOf(f[pub]));
    assert LinkOk(f[pub], i);
    assert ChainOk(pub, whole);
    assert PlaceOk(pub, whole, i);
    AccFollows(f, l, pub);
    assert whole.acc[..i + 1] == whole.acc[..i] + [b.hash];
    if i > 0 {
      assert PlaceOk(pub, whole, i - 1);
      assert l.held[pub].chain[i - 1] == f[pub][i - 1];
    }
  }

  lemma PaymentHasNoError(f: Family, l: Ledger, b: Block, ok: bool)
    requires FamilyOk(f) && Follows(f, l) && Matched(f) && InFamily(f, b) && b.content.index > 0 && IsPayment(b)
    ensures BodyError(l, f[b.content.accountId][b.content.index - 1], b, ok).None?
  {
    assert LinkOk(f[b.content.accountId], b.content.index);
    match b.content.body
    case Receive(source, amount) =>
      if source.Some? && source.value in l.allBlocks {
        assert Pays(l.allBlocks[source.value], b.content.accountId, amount);
      }
    case _ =>
  }

  lemma AppendKeepsBlocks(f: Family, l: Ledger, b: Block)
    requires ChainsOk(l) && BlocksOk(f, l) && NextLink(l, b) && InFamily(f, b)
    ensures BlocksOk(f, Applied(l, b))
  {
    AppliedLeaves(l, b);
    assert Applied(l, b).allBlocks == l.allBlocks[b.hash := b];
  }

  lemma AppendKeepsPrefixes(f: Family, l: Ledger, b: Block)
    requires ChainsOk(l) && NextLink(l, b) && InFamily(f, b) && b.content.index == |ChainOf(l, b.content.accountId)|
    requires forall pub :: pub in l.held ==> pub in f && l.held[pub].chain != [] && l.held[pub].chain <= f[pub]
    ensures
      var r := Applied(l, b);
      && (forall pub :: pub in r.held ==> pub in f && r.held[pub].chain != [] && r.held[pub].chain <= f[pub])
      && forall pub :: ChainOf(r, pub) == ChainOf(l, pub) + (if pub == b.content.accountId then [b] else [])
  {
    ExtendKeepsChains(l, b);
    SameHeld(Extend(l, b), Applied(l, b));
    var pub := b.content.accountId;
    assert ChainOf(Extend(l, b), pub) == f[pub][..b.content.index + 1];
  }

  lemma AppendFollows(f: Family, l: Ledger, b: Block, ok: bool)
    requires FamilyOk(f) && Follows(f, l) && InFamily(f, b) && b.content.index == |ChainOf(l, b.content.accountId)|
    requires Judge(l, b, ok) == Append
    ensures
      var r := AddBlock(l, b, ok);
      Follows(f, r) && forall pub ::
        ChainOf(r, pub) == ChainOf(l, pub) + (if pub == b.content.accountId then [b] else [])
  {
    DeliveryKeepsIndex(l, b, ok);
    DeliveryShape(l, b, ok);
    AppendIsNextLink(l, b, ok);
    AppliedLeaves(l, b);
    AppendKeepsBlocks(f, l, b);
    AppendKeepsPrefixes(f, l, b);
  }

  /** One delivery, at or below the next index of its chain. */
  lemma FollowStep(f: Family, l: Ledger, b: Block, ok: bool)
    requires FamilyOk(f) && Follows(f, l) && InFamily(f, b) && b.content.index <= |ChainOf(l, b.content.accountId)|
    requires (PaymentFamily(f) && Matched(f)) || Judge(l, b, ok).Outcome().Success()
    ensures Judge(l, b, ok).Outcome().Success()
    ensures
      var r := AddBlock(l, b, ok);
      && Follows(f, r)
      && forall pub :: |ChainOf(r, pub)| ==
           if pub == b.content.accountId && b.content.index == |ChainOf(l, pub)| then b.content.index + 1
             else |ChainOf(l, pub)|
  {
    if b.content.index < |ChainOf(l, b.content.accountId)| {
      RepeatChangesNothing(f, l, b, ok);
      DeliveryShape(l, b, ok);
    } else {
      NextIsJudgedByBody(f, l, b, ok);
      if PaymentFamily(f) && Matched(f) && b.content.index > 0 { PaymentHasNoError(f, l, b, ok); }
      AppendFollows(f, l, b, ok);
    }
  }

  /** Delivering the blocks of a family in own order keeps the ledger on the family: payments are never
  refused, and any delivery that is not refused leaves each chain at the highest index delivered. */
  lemma {:induction false} ReplayFollows(f: Family, steps: seq<Step>)
    requires FamilyOk(f) && OwnOrder(f, steps)
    requires (PaymentFamily(f) && Matched(f)) || Accepted(steps)
    ensures Follows(f, Run(EMPTY_LEDGER, steps)) && Accepted(steps)
    ensures forall pub :: |ChainOf(Run(EMPTY_LEDGER, steps), pub)| == Reached(steps, pub)
  {
    if steps == [] {
      EmptyIsIndexed();
    } else {
      var k := |steps| - 1;
      PrefixInOrder(f, steps);
      ReplayFollows(f, steps[..k]);
      ReachedBelow(f, steps);
      ReplayStep(f, steps, Run(EMPTY_LEDGER, steps[..k]), Run(EMPTY_LEDGER, steps));
    }
  }

  lemma ReachedAfter(steps: seq<Step>, pub: AccountId)
    requires steps != [] && steps[|steps| - 1].Deliver?
    requires
      var b := steps[|steps| - 1].block;
      b.content.index <= Reached(steps[..|steps| - 1], b.content.accountId)
    ensures
      var b, before := steps[|steps| - 1].block, Reached(steps[..|steps| - 1], pub);
      Reached(steps, pub) == if pub == b.content.accountId && b.content.index == before then b.content.index + 1
        else before
  {}

  lemma ReplayStep(f: Family, steps: seq<Step>, l: Ledger, next: Ledger)
    requires FamilyOk(f) && steps != [] && l == Run(EMPTY_LEDGER, steps[..|steps| - 1])
    requires next == Run(EMPTY_LEDGER, steps)
    requires Follows(f, l) && Accepted(steps[..|steps| - 1])
    requires (PaymentFamily(f) && Matched(f)) || Accepted(steps)
    requires var last := steps[|steps| - 1];
      last.Deliver? && InFamily(f, last.block) && last.block.content.index <= |ChainOf(l, last.block.content.accountId)|
    requires forall pub :: |ChainOf(l, pub)| == Reached(steps[..|steps| - 1], pub)
    ensures Follows(f, next) && Accepted(steps)
    ensures forall pub :: |ChainOf(next, pub)| == Reached(steps, pub)
  {
    var last := steps[|steps| - 1];
    assert next == AddBlock(l, last.block, last.storageOk);
    FollowStep(f, l, last.block, last.storageOk);
    forall pub ensures |ChainOf(next, pub)| == Reached(steps, pub) {
      assert |ChainOf(l, last.block.content.accountId)| == Reached(steps[..|steps| - 1], last.block.content.accountId);
      ReachedAfter(steps, pub);
    }
  }

  lemma PrefixInOrder(f: Family, steps: seq<Step>)
    requires OwnOrder(f, steps) && steps != []
    ensures OwnOrder(f, steps[..|steps| - 1])
  {
    var rest := steps[..|steps| - 1];
    forall k | 0 <= k < |rest|
      ensures rest[k].Deliver? && InFamily(f, rest[k].block)
      ensures rest[k].block.content.index > 0 ==> exists j :: 0 <= j < k && PrecedesIn(f, rest[j], rest[k].block)
    {
      assert rest[k] == steps[k];
      if rest[k].block.content.index > 0 {
        var j :| 0 <= j < k && PrecedesIn(f, steps[j], steps[k].block);
        assert rest[j] == steps[j];
      }
    }
  }

  lemma ReachedBelow(f: Family, steps: seq<Step>)
    requires FamilyOk(f) && OwnOrder(f, steps) && steps != []
    ensures
      var last := steps[|steps| - 1].block;
      0 <= last.content.index <= Reached(steps[..|steps| - 1], last.content.accountId)
  {
    var k := |steps| - 1;
    var rest, b := steps[..k], steps[k].block;
    if b.content.index > 0 {
      var j :| 0 <= j < k && PrecedesIn(f, steps[j], b);
      assert rest[j] == steps[j] && rest[j] in rest;
      var below := steps[j].block;
      assert below in Delivered(rest);
      var whole := Held(f[b.content.accountId], HashesOf(f[b.content.accountId]));
      assert ChainOk(b.content.accountId, whole);
      assert PlaceOk(b.content.accountId, whole, b.content.index - 1);
      ReachedCovers(rest, b.content.accountId);
    }
  }

  // ---------------------------------------------------------------- Convergence

  lemma SameReachSameChains(f: Family, l: Ledger, r: Ledger)
    requires FamilyOk(f) && Follows(f, l) && Follows(f, r)
    requires forall pub :: |ChainOf(l, pub)| == |ChainOf(r, pub)|
    ensures l.held == r.held && l.allBlocks == r.allBlocks
  {
    forall pub ensures pub in l.held <==> pub in r.held {
      assert |ChainOf(l, pub)| == |ChainOf(r, pub)|;
    }
    forall pub | pub in l.held ensures l.held[pub] == r.held[pub] {
      AccFollows(f, l, pub);
      AccFollows(f, r, pub);
      assert |ChainOf(l, pub)| == |ChainOf(r, pub)|;
      assert l.held[pub].chain == f[pub][..|l.held[pub].chain|];
      assert r.held[pub].chain == f[pub][..|r.held[pub].chain|];
    }
    SameHeld(l, r);
    forall h | h in l.allBlocks ensures l.allBlocks[h] == r.allBlocks[h] {
      assert InFamily(f, l.allBlocks[h]) && InFamily(f, r.allBlocks[h]);
      FamilyHashes(f, l.allBlocks[h]);
      FamilyHashes(f, r.allBlocks[h]);
    }
  }

  lemma FamilyHashes(f: Family, b: Block)
    requires FamilyOk(f) && InFamily(f, b)
    ensures b.hash == ContentHash(b.content)
  {
    assert LinkOk(f[b.content.accountId], b.content.index);
  }

  lemma NoTokensInPayments(f: Family, l: Ledger)
    requires FamilyOk(f) && PaymentFamily(f) && Follows(f, l)
    ensures l.tokens.deeds == Deeds(map[], map[], {})
  {
    forall t ensures t !in l.tokens.deeds.custody && t !in l.tokens.deeds.owner {
      if t in l.tokens.deeds.custody {
        var pub := l.tokens.deeds.custody[t][0].account;
        assert FindRow(RowsOf(l.tokens.deeds, t), pub) == LastTouch(ChainOf(l, pub), t);
        assert ChainOf(l, pub)[..|ChainOf(l, pub)|] == ChainOf(l, pub);
        NoTouchInPayments(f, l, pub, |ChainOf(l, pub)|, t);
      }
      assert OwnerOkFor(l.tokens.deeds, t);
    }
    forall h | h in Leaves(l) ensures !Burns(h) {
      assert InFamily(f, l.allBlocks[h]);
      FamilyHashes(f, l.allBlocks[h]);
    }
    assert BurnedOf(Leaves(l)) == {};
  }

  lemma {:induction false} NoTouchInPayments(f: Family, l: Ledger, pub: AccountId, n: nat, t: TokenId)
    requires FamilyOk(f) && PaymentFamily(f) && Follows(f, l) && n <= |ChainOf(l, pub)|
    ensures LastTouch(ChainOf(l, pub)[..n], t).None?
  {
    if n > 0 {
      var chain := ChainOf(l, pub);
      assert chain[n - 1] == f[pub][n - 1];
      assert PlaceOk(pub, l.held[pub], n - 1);
      assert InFamily(f, chain[n - 1]);
      assert chain[..n][..n - 1] == chain[..n - 1];
      NoTouchInPayments(f, l, pub, n - 1, t);
    }
  }

  /** Payment replay is confluent. Any delivery of the blocks of matched payment chains, each account's in
  its own order, is accepted in full, and two that deliver the same blocks end in the same ledger: the same
  chains, the same unclaimed sends, the same claimed sources, the same archive of blocks. */
  lemma PaymentReplayConverges(f: Family, steps: seq<Step>, steps': seq<Step>)
    requires FamilyOk(f) && PaymentFamily(f) && Matched(f)
    requires OwnOrder(f, steps) && OwnOrder(f, steps') && Delivered(steps) == Delivered(steps')
    ensures Accepted(steps) && Accepted(steps')
    ensures Run(EMPTY_LEDGER, steps) == Run(EMPTY_LEDGER, steps')
  {
    var l, r := Run(EMPTY_LEDGER, steps), Run(EMPTY_LEDGER, steps');
    ReplayFollows(f, steps);
    ReplayFollows(f, steps');
    forall pub ensures |ChainOf(l, pub)| == |ChainOf(r, pub)| { SameBlocksSameReach(steps, steps', pub); }
    SameReachSameChains(f, l, r);
    ChainsDecide(l, r);
    NoTokensInPayments(f, l);
    NoTokensInPayments(f, r);
  }

  /** What a full payment replay ends with, spelled out: every chain complete, on offer exactly the sends no
  delivered receive claims, claimed exactly the sources of the receives. */
  lemma PaymentReplayIsComplete(f: Family, steps: seq<Step>)
    requires FamilyOk(f) && PaymentFamily(f) && Matched(f) && OwnOrder(f, steps)
    requires forall b :: InFamily(f, b) ==> b in Delivered(steps)
    ensures
      var l := Run(EMPTY_LEDGER, steps);
      && (forall pub :: ChainOf(l, pub) == if pub in f then f[pub] else [])
      && (forall h :: h in l.payments.claimed <==>
            exists b :: InFamily(f, b) && b.content.body.Receive? && b.content.body.source == Some(h))
      && (forall b :: InFamily(f, b) && Offers(b.hash) ==>
            (b.hash in l.payments.unclaimed <==> b.hash !in l.payments.claimed))
  {
    ReplayFollows(f, steps);
    CompleteChains(f, steps, Run(EMPTY_LEDGER, steps));
    CompleteClaims(f, Run(EMPTY_LEDGER, steps));
  }

  lemma CompleteChains(f: Family, steps: seq<Step>, l: Ledger)
    requires FamilyOk(f) && Follows(f, l) && forall pub :: |ChainOf(l, pub)| == Reached(steps, pub)
    requires forall b :: InFamily(f, b) ==> b in Delivered(steps)
    ensures forall pub :: ChainOf(l, pub) == if pub in f then f[pub] else []
  {
    forall pub ensures ChainOf(l, pub) == if pub in f then f[pub] else [] {
      ReachedCovers(steps, pub);
      if pub in f && f[pub] != [] {
        var n := |f[pub]| - 1;
        var whole := Held(f[pub], HashesOf(f[pub]));
        assert ChainOk(pub, whole);
        assert PlaceOk(pub, whole, n);
        assert InFamily(f, f[pub][n]);
      }
    }
  }

  lemma CompleteClaims(f: Family, l: Ledger)
    requires FamilyOk(f) && Follows(f, l) && forall pub :: ChainOf(l, pub) == if pub in f then f[pub] else []
    ensures forall h :: h in l.payments.claimed <==>
      exists b :: InFamily(f, b) && b.content.body.Receive? && b.content.body.source == Some(h)
    ensures forall b :: InFamily(f, b) && Offers(b.hash) ==>
      (b.hash in l.payments.unclaimed <==> b.hash !in l.payments.claimed)
  {
    forall b | InFamily(f, b) ensures b.hash in Leaves(l) {
      FamilyHashes(f, b);
      LeafOf(l, b.hash);
      assert ChainOf(l, b.content.accountId) == f[b.content.accountId];
    }
    forall h ensures h in l.payments.claimed <==>
      exists b :: InFamily(f, b) && b.content.body.Receive? && b.content.body.source == Some(h)
    {
      if h in l.payments.claimed {
        var x :| x in Leaves(l) && Claims(x) && x.content.body.source.value == h;
        FamilyHashes(f, l.allBlocks[x]);
      }
      if b :| InFamily(f, b) && b.content.body.Receive? && b.content.body.source == Some(h) {
        FamilyHashes(f, b);
        assert Claims(b.hash);
      }
    }
  }

  /** Token replay converges. Two replays of the same blocks of fork-free chains, both accepted in full,
  agree on chains, claims, offers, records, burns and custody, and on the owner of every token that ends
  with at most one holder. */
  lemma TokenReplayConverges(f: Family, steps: seq<Step>, steps': seq<Step>)
    requires FamilyOk(f) && OwnOrder(f, steps) && OwnOrder(f, steps') && Delivered(steps) == Delivered(steps')
    requires Accepted(steps) && Accepted(steps')
    ensures
      var l, r := Run(EMPTY_LEDGER, steps), Run(EMPTY_LEDGER, steps');
      && l.held == r.held && l.allBlocks == r.allBlocks && l.payments == r.payments
      && l.tokens.info == r.tokens.info && l.tokens.claimed == r.tokens.claimed
      && l.tokens.unclaimed == r.tokens.unclaimed
      && l.tokens.deeds.burned == r.tokens.deeds.burned
      && (forall t, pub :: FindRow(RowsOf(l.tokens.deeds, t), pub) == FindRow(RowsOf(r.tokens.deeds, t), pub))
      && forall t :: |Holders(RowsOf(l.tokens.deeds, t))| <= 1 ==>
            OwnerOf(l.tokens.deeds, t) == OwnerOf(r.tokens.deeds, t)
  {
    var l, r := Run(EMPTY_LEDGER, steps), Run(EMPTY_LEDGER, steps');
    ReplayFollows(f, steps);
    ReplayFollows(f, steps');
    forall pub ensures |ChainOf(l, pub)| == |ChainOf(r, pub)| { SameBlocksSameReach(steps, steps', pub); }
    SameReachSameChains(f, l, r);
    ChainsDecide(l, r);
  }
}
