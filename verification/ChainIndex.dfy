/** Every index the ledger keeps is a function of the chains it holds and of the accounts it froze.

`addBlock` maintains claims, offers, custody, token records and owners incrementally. Here each index is
defined from the set of block hashes in the held chains, and every delivery, whatever the block, is
shown to keep the index equal to its definition. Replay order can therefore only matter through the
chains themselves.
 */
module ChainIndex {
  import opened Prelude
  import opened Blocks
  import opened Ledgers

  // ---------------------------------------------------------------- Chains

  ghost predicate PlaceOk(pub: AccountId, h: Held, i: nat)
    requires i < |h.chain| == |h.acc|
  {
    var b := h.chain[i];
    && b.hash == ContentHash(b.content) == h.acc[i]
    && b.content.accountId == pub
    && b.content.index == i
    && b.content.previousHash == (if i == 0 then GenesisPrev else h.acc[i - 1])
    && b.root == h.acc[..i + 1]
  }

  /** A held chain is hash-linked from a genesis, indexed from 0, and mirrored by its accumulator. */
  ghost predicate ChainOk(pub: AccountId, h: Held) {
    && |h.chain| == |h.acc|
    && forall i: nat :: i < |h.chain| ==> PlaceOk(pub, h, i)
  }

  ghost predicate ChainsOk(l: Ledger) {
    forall pub :: pub in l.held ==> ChainOk(pub, l.held[pub])
  }

  /** The hashes of all blocks in held chains. */
  ghost function Leaves(l: Ledger): set<Hash> {
    set pub, h | pub in l.held && h in l.held[pub].acc :: h
  }

  lemma LeafOf(l: Ledger, h: Hash)
    requires ChainsOk(l)
    ensures h in Leaves(l) <==>
      && h.ContentHash? && h.content.accountId in l.held
      && 0 <= h.content.index < |l.held[h.content.accountId].chain|
      && l.held[h.content.accountId].chain[h.content.index].hash == h
  {
    if h in Leaves(l) {
      var pub :| pub in l.held && h in l.held[pub].acc;
      var i :| 0 <= i < |l.held[pub].acc| && l.held[pub].acc[i] == h;
      assert PlaceOk(pub, l.held[pub], i);
    }
    if h.ContentHash? && h.content.accountId in l.held
       && 0 <= h.content.index < |l.held[h.content.accountId].chain|
       && l.held[h.content.accountId].chain[h.content.index].hash == h {
      assert PlaceOk(h.content.accountId, l.held[h.content.accountId], h.content.index);
      assert h in l.held[h.content.accountId].acc;
    }
  }

  // ---------------------------------------------------------------- Payments

  ghost predicate Claims(h: Hash) {
    h.ContentHash? && h.content.body.Receive? && h.content.body.source.Some?
  }

  ghost predicate Offers(h: Hash) {
    h.ContentHash? && h.content.body.Send? && h.content.body.recipient.Some? && h.content.body.amount.Some?
  }

  function TransferOf(h: Hash): Transfer
    requires Offers(h)
  {
    Transfer(h.content.accountId, h.content.body.recipient.value, h.content.body.amount.value)
  }

  ghost function ClaimedOf(leaves: set<Hash>): set<Hash> {
    set h | h in leaves && Claims(h) :: h.content.body.source.value
  }

  /** Sends in `leaves` that no receive in `leaves` claims and whose account is not frozen. */
  ghost function OfferedOf(leaves: set<Hash>, frozen: set<AccountId>): map<Hash, Transfer> {
    map h | h in leaves && Offers(h) && h !in ClaimedOf(leaves) && h.content.accountId !in frozen :: TransferOf(h)
  }

  // ---------------------------------------------------------------- Tokens

  ghost predicate ClaimsNft(h: Hash) {
    h.ContentHash? && h.content.body.NftReceive? && h.content.body.token.Some? && h.content.body.source.Some?
  }

  ghost predicate OffersNft(h: Hash) {
    h.ContentHash? && h.content.body.NftSend? && h.content.body.token.Some? && h.content.body.recipient.Some?
  }

  ghost predicate Burns(h: Hash) {
    h.ContentHash? && h.content.body.NftBurn? && h.content.body.token.Some?
  }

  ghost predicate Mints(h: Hash) {
    h.ContentHash? && h.content.body.NftMint? && h.content.body.token.Some? && h.content.body.contentRef != ""
  }

  function NftTransferOf(h: Hash): NftTransfer
    requires OffersNft(h)
  {
    NftTransfer(h.content.body.token.value, h.content.accountId, h.content.body.recipient.value)
  }

  function InfoOf(h: Hash): TokenInfo
    requires Mints(h)
  {
    TokenInfo(h.content.accountId, h.content.body.contentRef, h.content.body.meta)
  }

  ghost function ClaimedNftsOf(leaves: set<Hash>): set<Hash> {
    set h | h in leaves && ClaimsNft(h) :: h.content.body.source.value
  }

  ghost function OfferedNftsOf(leaves: set<Hash>, frozen: set<AccountId>): map<Hash, NftTransfer> {
    map h | h in leaves && OffersNft(h) && h !in ClaimedNftsOf(leaves) && h.content.accountId !in frozen ::
      NftTransferOf(h)
  }

  ghost function BurnedOf(leaves: set<Hash>): set<TokenId> {
    set h | h in leaves && Burns(h) :: h.content.body.token.value
  }

  /** The token records are exactly those of the mints in `leaves`. */
  ghost predicate InfosOf(infos: map<TokenId, TokenInfo>, leaves: set<Hash>) {
    && (forall h :: h in leaves && Mints(h) ==>
          h.content.body.token.value in infos && infos[h.content.body.token.value] == InfoOf(h))
    && (forall t :: t in infos ==> exists h :: h in leaves && Mints(h) && h.content.body.token.value == t)
  }

  ghost predicate Touches(b: Block, t: TokenId) {
    EventOf(b).Some? && EventOf(b).value.token == t
  }

  /** The last event of a chain for a token. */
  ghost function LastTouch(chain: seq<Block>, t: TokenId): Option<CustodyRow> {
    if chain == [] then None
    else
      var b := chain[|chain| - 1];
      if Touches(b, t) then Some(CustodyRow(b.content.accountId, b.content.index, EventOf(b).value.holds))
      else LastTouch(chain[..|chain| - 1], t)
  }

  /** No account has two rows. */
  ghost predicate DistinctRows(rows: seq<CustodyRow>) {
    rows != [] ==> FindRow(rows[1..], rows[0].account).None? && DistinctRows(rows[1..])
  }

  /** Each account's custody row for a token is the last event of its own chain. */
  ghost predicate CustodyOk(l: Ledger) {
    forall t, pub :: FindRow(RowsOf(l.tokens.deeds, t), pub) == LastTouch(ChainOf(l, pub), t)
  }

  /** The account's own row says it holds the token. */
  predicate Holding(rows: seq<CustodyRow>, pub: AccountId) {
    FindRow(rows, pub).Some? && FindRow(rows, pub).value.holds
  }

  // ---------------------------------------------------------------- Owners

  ghost function OwnerOf(d: Deeds, t: TokenId): Option<AccountId> {
    if t in d.owner then Some(d.owner[t]) else None
  }

  ghost predicate OwnerFits(owner: Option<AccountId>, burned: bool, holders: seq<AccountId>) {
    if burned || holders == [] then owner.None? else owner.Some? && owner.value in holders
  }

  /** The owner of a token is one of its holders; there is none when it is burned or held by nobody. */
  ghost predicate OwnerOkFor(d: Deeds, t: TokenId) {
    OwnerFits(OwnerOf(d, t), t in d.burned, Holders(RowsOf(d, t)))
  }

  ghost predicate RowsDistinct(d: Deeds) {
    forall t :: t in d.custody ==> d.custody[t] != [] && DistinctRows(d.custody[t])
  }

  ghost predicate OwnersOk(d: Deeds) {
    RowsDistinct(d) && forall t :: OwnerOkFor(d, t)
  }

  // ---------------------------------------------------------------- The whole index

  ghost predicate PaymentsIndexed(l: Ledger) {
    && l.payments.claimed == ClaimedOf(Leaves(l))
    && l.payments.unclaimed == OfferedOf(Leaves(l), l.equivocated.Keys)
  }

  ghost predicate NftClaimsIndexed(l: Ledger) {
    && l.tokens.claimed == ClaimedNftsOf(Leaves(l))
    && l.tokens.unclaimed == OfferedNftsOf(Leaves(l), l.equivocated.Keys)
  }

  ghost predicate RecordsIndexed(l: Ledger) {
    && l.tokens.deeds.burned == BurnedOf(Leaves(l))
    && InfosOf(l.tokens.info, Leaves(l))
  }

  ghost predicate Indexed(l: Ledger) {
    && ChainsOk(l) && PaymentsIndexed(l) && NftClaimsIndexed(l) && RecordsIndexed(l) && CustodyOk(l)
    && OwnersOk(l.tokens.deeds)
  }

  // ---------------------------------------------------------------- Rows

  lemma {:induction false} SetRowFinds(rows: seq<CustodyRow>, row: CustodyRow, pub: AccountId)
    ensures FindRow(SetRow(rows, row), pub) == if pub == row.account then Some(row) else FindRow(rows, pub)
  {
    if rows != [] && rows[0].account != row.account {
      SetRowFinds(rows[1..], row, pub);
      assert SetRow(rows, row)[1..] == SetRow(rows[1..], row);
    } else if rows != [] {
      assert SetRow(rows, row)[1..] == rows[1..];
    }
  }

  /** A row takes its account's place where there is one, and otherwise goes last; the others stay where they are. */
  lemma {:induction false} SetRowInPlace(rows: seq<CustodyRow>, row: CustodyRow) returns (i: nat)
    ensures i <= |rows| && forall j :: 0 <= j < i ==> rows[j].account != row.account
    ensures i < |rows| ==> rows[i].account == row.account && SetRow(rows, row) == rows[i := row]
    ensures i == |rows| ==> SetRow(rows, row) == rows + [row]
  {
    i := 0;
    if rows != [] && rows[0].account != row.account {
      var k := SetRowInPlace(rows[1..], row);
      i := k + 1;
      forall j | 0 < j < i ensures rows[j].account != row.account { assert rows[j] == rows[1..][j - 1]; }
    }
  }

  lemma {:induction false} SetRowDistinct(rows: seq<CustodyRow>, row: CustodyRow)
    requires DistinctRows(rows)
    ensures DistinctRows(SetRow(rows, row)) && SetRow(rows, row) != []
  {
    if rows != [] && rows[0].account != row.account {
      SetRowDistinct(rows[1..], row);
      SetRowFinds(rows[1..], row, rows[0].account);
      assert SetRow(rows, row)[1..] == SetRow(rows[1..], row);
    } else if rows != [] {
      assert SetRow(rows, row)[1..] == rows[1..];
    }
  }

  /** An account is a holder of a token exactly when its own row says so. */
  lemma {:induction false} HolderIsFound(rows: seq<CustodyRow>, pub: AccountId)
    requires DistinctRows(rows)
    ensures pub in Holders(rows) <==> Holding(rows, pub)
  {
    if rows != [] {
      HolderIsFound(rows[1..], pub);
    }
  }

  /** The account of the last row that holds. */
  predicate LastHolding(rows: seq<CustodyRow>, pub: AccountId) {
    exists i :: 0 <= i < |rows| && rows[i].holds && rows[i].account == pub
      && forall j :: i < j < |rows| ==> !rows[j].holds
  }

  lemma {:induction false} HoldersEnd(rows: seq<CustodyRow>)
    ensures Holders(rows) == [] <==> forall i :: 0 <= i < |rows| ==> !rows[i].holds
    ensures Holders(rows) != [] ==> LastHolding(rows, Holders(rows)[|Holders(rows)| - 1])
  {
    if rows != [] {
      HoldersEnd(rows[1..]);
      if Holders(rows[1..]) == [] {
        if rows[0].holds { assert Holders(rows) == [rows[0].account]; }
        forall i | 1 <= i < |rows| ensures !rows[i].holds { assert rows[i] == rows[1..][i - 1]; }
      } else {
        var last := Holders(rows[1..])[|Holders(rows[1..])| - 1];
        assert Holders(rows)[|Holders(rows)| - 1] == last;
        var i :| 0 <= i < |rows[1..]| && rows[1..][i].holds && rows[1..][i].account == last
          && forall j :: i < j < |rows[1..]| ==> !rows[1..][j].holds;
        assert rows[i + 1] == rows[1..][i];
        forall j | i + 1 < j < |rows| ensures !rows[j].holds { assert rows[j] == rows[1..][j - 1]; }
      }
    }
  }

  /** Re-deriving a token's owner: none when it is burned or nobody's row holds it; otherwise the incumbent if its own
  row still holds it, else the account of the last row that does. */
  lemma OwnerIsRederived(d: Deeds, t: TokenId)
    requires t in d.custody && DistinctRows(d.custody[t])
    ensures
      var rows, owner := d.custody[t], OwnerOf(RecomputeNftOwner(d, t), t);
      if t in d.burned || forall i :: 0 <= i < |rows| ==> !rows[i].holds then owner.None?
      else if t in d.owner && Holding(rows, d.owner[t]) then owner == Some(d.owner[t])
      else owner.Some? && LastHolding(rows, owner.value)
  {
    var rows := d.custody[t];
    HoldersEnd(rows);
    if t in d.owner { HolderIsFound(rows, d.owner[t]); }
    if |Holders(rows)| == 1 && t in d.owner && d.owner[t] in Holders(rows) { assert d.owner[t] == Holders(rows)[0]; }
  }

  // ---------------------------------------------------------------- Owner bookkeeping

  /** Re-deriving one token's owner settles that token and leaves every other owner alone. */
  lemma RecomputeSettlesOwner(d: Deeds, t: TokenId)
    requires t in d.custody
    ensures
      var r := RecomputeNftOwner(d, t);
      && r == d.(owner := r.owner)
      && OwnerFits(OwnerOf(r, t), t in d.burned, Holders(d.custody[t]))
      && forall u :: u != t ==> OwnerOf(r, u) == OwnerOf(d, u)
  {
    var holders := Holders(d.custody[t]);
    if |holders| == 1 { assert holders[0] in holders; }
    if |holders| > 1 { assert holders[|holders| - 1] in holders; }
  }

  /** What recording an event does: it sets the account's row unless that row is as late, and re-derives
  the owner of that token only. */
  lemma RecordShape(d: Deeds, t: TokenId, row: CustodyRow)
    ensures
      var r := RecordNftCustody(d, t, row);
      var prev := FindRow(RowsOf(d, t), row.account);
      && r == d.(owner := r.owner, custody := r.custody)
      && (forall u :: u != t ==> OwnerOf(r, u) == OwnerOf(d, u))
      && if prev.Some? && prev.value.index >= row.index then r == d
         else
           && r.custody == d.custody[t := SetRow(RowsOf(d, t), row)]
           && OwnerFits(OwnerOf(r, t), t in d.burned, Holders(SetRow(RowsOf(d, t), row)))
  {
    RecomputeSettlesOwner(d.(custody := d.custody[t := SetRow(RowsOf(d, t), row)]), t);
  }

  /** Recording an event keeps every owner fitting its rows; the recorded token's owner needs to have
  fitted before, unless it is repaired afterwards. */
  lemma RecordKeepsOwners(d: Deeds, t: TokenId, row: CustodyRow)
    requires RowsDistinct(d)
    requires forall u :: u != t ==> OwnerOkFor(d, u)
    ensures
      var r := RecordNftCustody(d, t, row);
      && RowsDistinct(r)
      && (forall u :: u != t ==> OwnerOkFor(r, u))
      && (OwnerOkFor(d, t) ==> OwnerOkFor(r, t))
  {
    RecordShape(d, t, row);
    SetRowDistinct(RowsOf(d, t), row);
    var r := RecordNftCustody(d, t, row);
    forall u | u != t ensures OwnerOkFor(r, u) {
      assert OwnerOkFor(d, u) && RowsOf(r, u) == RowsOf(d, u);
    }
  }

  /** The recorded account ends with the later of its two events; no other row of any token moves. */
  lemma RecordFinds(d: Deeds, t: TokenId, row: CustodyRow, u: TokenId, pub: AccountId)
    ensures
      var r := RecordNftCustody(d, t, row);
      var before := FindRow(RowsOf(d, u), pub);
      FindRow(RowsOf(r, u), pub) ==
        if u == t && pub == row.account && (before.None? || before.value.index < row.index) then Some(row) else before
  {
    RecordShape(d, t, row);
    SetRowFinds(RowsOf(d, t), row, pub);
  }

  /** Applying any block keeps every owner among its holders. */
  lemma DeedsKeepOwners(d: Deeds, b: Block)
    requires OwnersOk(d)
    ensures OwnersOk(ApplyDeeds(d, b))
  {
    if EventOf(b).Some? {
      var Event(t, holds) := EventOf(b).value;
      var row := CustodyRow(b.content.accountId, b.content.index, holds);
      if b.content.body.NftBurn? {
        BurnKeepsOwners(d, t, row);
      } else {
        RecordKeepsOwners(d, t, row);
      }
    }
  }

  lemma BurnKeepsOwners(d: Deeds, t: TokenId, row: CustodyRow)
    requires OwnersOk(d)
    ensures
      var d1 := RecordNftCustody(d.(burned := d.burned + {t}), t, row);
      OwnersOk(d1.(owner := d1.owner - {t}))
  {
    var d0 := d.(burned := d.burned + {t});
    forall u | u != t ensures OwnerOkFor(d0, u) {
      assert OwnerOkFor(d, u) && RowsOf(d0, u) == RowsOf(d, u);
    }
    RecordKeepsOwners(d0, t, row);
    RecordShape(d0, t, row);
    var d1 := RecordNftCustody(d0, t, row);
    var r := d1.(owner := d1.owner - {t});
    forall u ensures OwnerOkFor(r, u) {
      assert RowsOf(r, u) == RowsOf(d1, u);
      if u != t { assert OwnerOkFor(d1, u) && OwnerOf(r, u) == OwnerOf(d1, u); }
    }
  }

  /** The row a block leaves for an account: the block's own event when it is that account's and later. */
  lemma DeedsFind(d: Deeds, b: Block, t: TokenId, pub: AccountId)
    ensures
      var before := FindRow(RowsOf(d, t), pub);
      FindRow(RowsOf(ApplyDeeds(d, b), t), pub) ==
        if pub == b.content.accountId && Touches(b, t) && (before.None? || before.value.index < b.content.index)
        then Some(CustodyRow(pub, b.content.index, EventOf(b).value.holds)) else before
  {
    if EventOf(b).Some? {
      var Event(u, holds) := EventOf(b).value;
      var row := CustodyRow(b.content.accountId, b.content.index, holds);
      if b.content.body.NftBurn? {
        var d0 := d.(burned := d.burned + {u});
        RecordFinds(d0, u, row, t, pub);
        assert RowsOf(d0, t) == RowsOf(d, t);
        var d1 := RecordNftCustody(d0, u, row);
        assert RowsOf(ApplyDeeds(d, b), t) == RowsOf(d1, t);
      } else {
        RecordFinds(d, u, row, t, pub);
      }
    }
  }
}
