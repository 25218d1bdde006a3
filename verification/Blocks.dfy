/** Account-chain blocks with ideal hashing and signing.

A content hash is the term `ContentHash(content)`, so it is injective and can be computed only from its
content; an accumulator root is the sequence of the leaves it commits to; a signature is the triple it
signs. Fields shown to the user only (shard, counterparty names) are not carried.
 */
module Blocks {
  import opened Prelude

  type AccountId = string

  /** A token id is the hash of (minter, index, content), or any other string a peer may write. */
  datatype TokenId = MintedToken(minter: AccountId, index: int, contentRef: string) | RawToken(raw: string)

  type Root = seq<Hash>

  datatype Hash = GenesisPrev | ContentHash(content: Content)

  datatype Content = Content(
    accountId: AccountId,
    index: int,
    previousHash: Hash,
    timestamp: int,
    balance: int,
    body: Body)

  /** The block type with the fields that type signs. `None` is a missing or empty field. */
  datatype Body =
    | Open(commitment: string)
    | Send(recipient: Option<AccountId>, amount: Option<int>)
    | Receive(source: Option<Hash>, amount: Option<int>)
    | Update(updates: map<string, string>)
    | NftMint(token: Option<TokenId>, contentRef: string, meta: map<string, string>)
    | NftSend(token: Option<TokenId>, recipient: Option<AccountId>)
    | NftReceive(token: Option<TokenId>, source: Option<Hash>)
    | NftBurn(token: Option<TokenId>)
    | StorageUpkeep(registers: bool)
    | StorageSettle(amount: Option<int>)

  datatype Signature = Signed(signer: AccountId, hash: Hash, root: Root)

  datatype Block = Block(content: Content, root: Root, hash: Hash, signature: Signature) {
    /** `verifyBlock`: the hash is the content's own and the account signed (hash, root). */
    predicate Authentic() {
      hash == ContentHash(content) && signature == Signed(content.accountId, hash, root)
    }
  }

  /** The amount every account opening mints (VERIFICATION_MINT_AMOUNT, in milli-UNIT). */
  const MINT: int := 1_000_000_000

  /** `createBlock`: hash the content, append the hash to the accumulator, sign both. */
  function MakeBlock(content: Content, acc: Root, signer: AccountId): (b: Block)
    ensures b.Authentic() <==> signer == content.accountId
  {
    var hash := ContentHash(content);
    Block(content, acc + [hash], hash, Signed(signer, hash, acc + [hash]))
  }

  datatype Evidence = Evidence(first: Block, second: Block)

  /** `proveDoubleSpend`: two blocks of one account at one height on one parent, with different hashes. */
  predicate DoubleSpend(a: Block, b: Block) {
    && a.content.accountId == b.content.accountId
    && a.hash != b.hash
    && a.content.index == b.content.index
    && a.content.previousHash == b.content.previousHash
  }
}
