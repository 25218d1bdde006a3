/** The state of one node's ledger and what each of its entry points does to it, as functions.

The class `EngineLedger` is proved to compute exactly these functions; every theorem about runs of a
ledger is stated over them.
 */
module Ledgers {
  import opened Prelude
  import opened Blocks

  /** One held account: its chain and the accumulator kept beside it. */
  datatype Held = Held(chain: seq<Block>, acc: Root)

  datatype Transfer = Transfer(fromPub: AccountId, toPub: AccountId, amount: int)
  datatype NftTransfer = NftTransfer(token: TokenId, fromPub: AccountId, toPub: AccountId)
  datatype TokenInfo = TokenInfo(minter: AccountId, contentRef: string, meta: map<string, string>)

  /** Latest own-chain event of `account` for a token. Rows keep the insertion order of the source's Map. */
  datatype CustodyRow = CustodyRow(account: AccountId, index: int, holds: bool)

  /** Payment claims: sends on offer, and the source hashes some receive has claimed. */
  datatype Payments = Payments(unclaimed: map<Hash, Transfer>, claimed: set<Hash>)

  /** Who holds what: the owner of each token, the custody rows it is derived from, and burned tokens. */
  datatype Deeds = Deeds(
    owner: map<TokenId, AccountId>,
    custody: map<TokenId, seq<CustodyRow>>,
    burned: set<TokenId>)

  datatype Tokens = Tokens(
    deeds: Deeds,
    info: map<TokenId, TokenInfo>,
    unclaimed: map<Hash, NftTransfer>,
    claimed: set<Hash>)

  datatype Ledger = Ledger(
    held: map<AccountId, Held>,
    payments: Payments,
    tokens: Tokens,
    equivocated: map<AccountId, Evidence>,
    allBlocks: map<Hash, Block>)

  const EMPTY_LEDGER: Ledger :=
    Ledger(map[], Payments(map[], {}), Tokens(Deeds(map[], map[], {}), map[], map[], {}), map[], map[])

  // ---------------------------------------------------------------- Custody of tokens

  function FindRow(rows: seq<CustodyRow>, account: AccountId): Option<CustodyRow> {
    if rows == [] then None
    else if rows[0].account == account then Some(rows[0])
    else FindRow(rows[1..], account)
  }

  /** `Map.set`: replace the account's row where it stands, or append a new one. */
  function SetRow(rows: seq<CustodyRow>, row: CustodyRow): seq<CustodyRow> {
    if rows == [] then [row]
    else if rows[0].account == row.account then [row] + rows[1..]
    else [rows[0]] + SetRow(rows[1..], row)
  }

  /** The accounts whose latest event leaves them holding the token, in row order. */
  function Holders(rows: seq<CustodyRow>): seq<AccountId> {
    if rows == [] then []
    else if rows[0].holds then [rows[0].account] + Holders(rows[1..])
    else Holders(rows[1..])
  }

  function RowsOf(d: Deeds, token: TokenId): seq<CustodyRow> {
    if token in d.custody then d.custody[token] else []
  }

  function RecomputeNftOwner(d: Deeds, token: TokenId): Deeds {
    if token in d.burned then d.(owner := d.owner - {token})
    else if token !in d.custody then d
    else
      var holders := Holders(d.custody[token]);
      if |holders| == 1 then d.(owner := d.owner[token := holders[0]])
      else if |holders| == 0 then d.(owner := d.owner - {token})
      else if token !in d.owner || d.owner[token] !in holders then d.(owner := d.owner[token := holders[|holders| - 1]])
      else d
  }

  function RecordNftCustody(d: Deeds, token: TokenId, row: CustodyRow): Deeds {
    var prev := FindRow(RowsOf(d, token), row.account);
    if prev.Some? && prev.value.index >= row.index then d
    else RecomputeNftOwner(d.(custody := d.custody[token := SetRow(RowsOf(d, token), row)]), token)
  }

  /** A block's custody event: the token it touches and whether it leaves its account holding it. */
  datatype Event = Event(token: TokenId, holds: bool)

  function EventOf(b: Block): Option<Event> {
    match b.content.body
    case NftMint(token, contentRef, _) => if token.Some? && contentRef != "" then Some(Event(token.value, true))
      else None
    case NftSend(token, recipient) => if token.Some? && recipient.Some? then Some(Event(token.value, false)) else None
    case NftReceive(token, _) => if token.Some? then Some(Event(token.value, true)) else None
    case NftBurn(token) => if token.Some? then Some(Event(token.value, false)) else None
    case _ => None
  }

  function ApplyDeeds(d: Deeds, b: Block): Deeds {
    if EventOf(b).None? then d
    else
      var Event(token, holds) := EventOf(b).value;
      var row := CustodyRow(b.content.accountId, b.content.index, holds);
      if b.content.body.NftBurn? then
        var d1 := RecordNftCustody(d.(burned := d.burned + {token}), token, row);
        d1.(owner := d1.owner - {token})
      else RecordNftCustody(d, token, row)
  }

  /** What a block does to the token state: its record, its offer or claim, and its custody event. */
  function ApplyTokens(t: Tokens, b: Block): Tokens {
    var t1 := t.(deeds := ApplyDeeds(t.deeds, b));
    if EventOf(b).None? then t
    else
      match b.content.body
      case NftMint(token, contentRef, meta) =>
        t1.(info := t.info[token.value := TokenInfo(b.content.accountId, contentRef, meta)])
      case NftSend(token, recipient) =>
        if b.hash in t.claimed then t1
        else t1.(unclaimed := t.unclaimed[b.hash := NftTransfer(token.value, b.content.accountId, recipient.value)])
      case NftReceive(_, source) =>
        if source.None? then t1
        else t1.(claimed := t.claimed + {source.value}, unclaimed := t.unclaimed - {source.value})
      case _ => t1
  }

  /** What a delivered block does to the payment claims: a send is offered unless a receive that came first
  has claimed it; a receive claims its source. */
  function ApplyPayments(p: Payments, b: Block): Payments {
    match b.content.body
    case Send(recipient, amount) =>
      if recipient.Some? && amount.Some? && b.hash !in p.claimed then
        p.(unclaimed := p.unclaimed[b.hash := Transfer(b.content.accountId, recipient.value, amount.value)])
      else p
    case Receive(source, _) =>
      if source.Some? then Payments(p.unclaimed - {source.value}, p.claimed + {source.value}) else p
    case _ => p
  }

  // ---------------------------------------------------------------- Local creation

  /** The account's head, `None` when no chain is held or the held chain is empty. */
  function Head(l: Ledger, pub: AccountId): Option<Block> {
    if pub in l.held && l.held[pub].chain != [] then Some(l.held[pub].chain[|l.held[pub].chain| - 1])
    else None
  }

  function ChainOf(l: Ledger, pub: AccountId): seq<Block> {
    if pub in l.held then l.held[pub].chain else []
  }

  function Retain(l: Ledger, b: Block): Ledger {
    l.(allBlocks := l.allBlocks[b.hash := b])
  }

  /** Store a block at the end of its account's chain and accumulator. */
  function Extend(l: Ledger, b: Block): Ledger {
    var h := if b.content.accountId in l.held then l.held[b.content.accountId] else Held([], []);
    l.(held := l.held[b.content.accountId := Held(h.chain + [b], h.acc + [b.hash])])
  }

  /** The block `createBlock` builds on the account's head. */
  function NextBlock(l: Ledger, pub: AccountId, signer: AccountId, timestamp: int, balance: int, body: Body): Block
    requires Head(l, pub).Some?
  {
    var head := Head(l, pub).value;
    MakeBlock(Content(pub, head.content.index + 1, head.hash, timestamp, balance, body), l.held[pub].acc, signer)
  }

  function OpenBlock(pub: AccountId, signer: AccountId, commitment: string, timestamp: int): Block {
    MakeBlock(Content(pub, 0, GenesisPrev, timestamp, MINT, Open(commitment)), [], signer)
  }

  /** A call into the ledger. `bonded` is what the validator registry reports for the sender, `identityOk`
  the outcome of the identity quorum and registration, `included` the outcome of a packet's inclusion
  proofs, `storageOk` the verdict of the provider rules on a storage block. */
  datatype Step =
    | OpenAccount(pub: AccountId, signer: AccountId, timestamp: int, commitment: string, identityOk: bool)
    | CreateSend(pub: AccountId, signer: AccountId, timestamp: int, recipient: Option<AccountId>, amount: int,
                 bonded: nat)
    | CreateReceive(pub: AccountId, signer: AccountId, timestamp: int, source: Hash)
    | CreateUpdate(pub: AccountId, signer: AccountId, timestamp: int, updates: map<string, string>)
    | CreateMint(pub: AccountId, signer: AccountId, timestamp: int, contentRef: string, meta: map<string, string>)
    | CreateTransfer(pub: AccountId, signer: AccountId, timestamp: int, token: TokenId, recipient: Option<AccountId>)
    | CreateReceiveNft(pub: AccountId, signer: AccountId, timestamp: int, source: Hash)
    | CreateBurn(pub: AccountId, signer: AccountId, timestamp: int, token: TokenId)
    | Deliver(block: Block, storageOk: bool)
    | RegisterSend(block: Block, claimant: AccountId, included: bool)
    | RegisterMint(block: Block, token: TokenId, included: bool)
    | Restore(block: Block)
    | ApplyEvidence(first: Block, second: Block)
  {
    predicate Local() {
      OpenAccount? || CreateSend? || CreateReceive? || CreateUpdate? || CreateMint? || CreateTransfer? ||
      CreateReceiveNft? || CreateBurn?
    }
  }

  /** The block a local creation call appends, `None` when the call is refused. */
  function Created(l: Ledger, s: Step): Option<Block>
    requires s.Local()
  {
    var head := Head(l, s.pub);
    match s
    case OpenAccount(pub, signer, timestamp, commitment, identityOk) =>
      if pub in l.held || !identityOk then None else Some(OpenBlock(pub, signer, commitment, timestamp))
    case CreateSend(pub, signer, timestamp, recipient, amount, bonded) =>
      if recipient.None? || head.None? || amount <= 0 || head.value.content.balance - bonded < amount then None
      else
        var balance := head.value.content.balance - amount;
        Some(NextBlock(l, pub, signer, timestamp, balance, Send(recipient, Some(amount))))
    case CreateReceive(pub, signer, timestamp, source) =>
      if source !in l.payments.unclaimed || l.payments.unclaimed[source].toPub != pub || head.None? then None
      else
        var amount := l.payments.unclaimed[source].amount;
        var balance := head.value.content.balance + amount;
        Some(NextBlock(l, pub, signer, timestamp, balance, Receive(Some(source), Some(amount))))
    case CreateUpdate(pub, signer, timestamp, updates) =>
      if head.None? || pub in l.equivocated || updates == map[] then None
      else Some(NextBlock(l, pub, signer, timestamp, head.value.content.balance, Update(updates)))
    case CreateMint(pub, signer, timestamp, contentRef, meta) =>
      if head.None? || pub in l.equivocated || contentRef == "" then None
      else
        var token := MintedToken(pub, head.value.content.index + 1, contentRef);
        Some(NextBlock(l, pub, signer, timestamp, head.value.content.balance, NftMint(Some(token), contentRef, meta)))
    case CreateTransfer(pub, signer, timestamp, token, recipient) =>
      if recipient.None? || pub in l.equivocated || !Owns(l, pub, token) || head.None? then None
      else Some(NextBlock(l, pub, signer, timestamp, head.value.content.balance, NftSend(Some(token), recipient)))
    case CreateReceiveNft(pub, signer, timestamp, source) =>
      if pub in l.equivocated || source !in l.tokens.unclaimed || l.tokens.unclaimed[source].toPub != pub then None
      else if head.None? then None
      else Some(NextBlock(l, pub, signer, timestamp, head.value.content.balance,
                          NftReceive(Some(l.tokens.unclaimed[source].token), Some(source))))
    case CreateBurn(pub, signer, timestamp, token) =>
      if pub in l.equivocated || !Owns(l, pub, token) || head.None? then None
      else Some(NextBlock(l, pub, signer, timestamp, head.value.content.balance, NftBurn(Some(token))))
  }

  predicate Owns(l: Ledger, pub: AccountId, token: TokenId) {
    token in l.tokens.deeds.owner && l.tokens.deeds.owner[token] == pub
  }

  /** What a local creation call does once its block is built. Unlike a delivery, a created send is put on
  offer without asking whether its hash was claimed. */
  function Seat(l: Ledger, b: Block): Ledger {
    Retain(Extend(l, b).(payments := SeatPayments(l.payments, b), tokens := ApplyTokens(l.tokens, b)), b)
  }

  function SeatPayments(p: Payments, b: Block): Payments {
    match b.content.body
    case Send(recipient, amount) =>
      if recipient.Some? && amount.Some? then
        p.(unclaimed := p.unclaimed[b.hash := Transfer(b.content.accountId, recipient.value, amount.value)])
      else p
    case _ => ApplyPayments(p, b)
  }

  // ---------------------------------------------------------------- Remote blocks

  datatype Refusal =
    | ContentHashMismatch | InvalidSignature | AccountEquivocated | BadGenesis | WrongMint | ConflictingOpen
    | MissingPriorChain | StaleOrConflicting | NonSequential | PreviousHashMismatch
    | AmountNotPositive | BalanceInconsistent | SourceMismatch | FieldMissing | TokenExists | NotTheOwner
    | ProviderRefused | RootMismatch

  /** How `addBlock` ends: appended, already held, refused with a reason, or by a thrown TypeError. */
  datatype Outcome = Appended | AlreadyHeld | Refused(why: Refusal) | Threw {
    predicate Success() { Appended? || AlreadyHeld? }
  }

  datatype Verdict =
    | Append
    | Repeat
    | Fork(rival: Block, why: Refusal)
    | Refuse(reason: Refusal)
    | SeatEmptyChain   // a genesis whose root is wrong: the empty `Held` is stored first
    | Throw            // an empty held chain is dereferenced
  {
    function Outcome(): Outcome {
      match this
      case Append => Appended
      case Repeat => AlreadyHeld
      case Fork(_, why) => Refused(why)
      case Refuse(reason) => Refused(reason)
      case SeatEmptyChain => Refused(RootMismatch)
      case Throw => Threw
    }
  }

  /** The balance and ownership rule of the block's type on top of `head`. */
  function BodyError(l: Ledger, head: Block, b: Block, storageOk: bool): Option<Refusal> {
    var balance, before := b.content.balance, head.content.balance;
    match b.content.body
    case Open(_) => None
    case Update(_) => if balance != before then Some(BalanceInconsistent) else None
    case Send(_, amount) =>
      if amount.None? || amount.value <= 0 then Some(AmountNotPositive)
      else if balance < 0 || balance != before - amount.value then Some(BalanceInconsistent)
      else None
    case Receive(source, amount) =>
      if amount.None? || amount.value <= 0 then Some(AmountNotPositive)
      else if balance != before + amount.value then Some(BalanceInconsistent)
      else if source.Some? && source.value in l.allBlocks
        && !Pays(l.allBlocks[source.value], b.content.accountId, amount)
        then Some(SourceMismatch)
      else None
    case NftMint(token, contentRef, _) =>
      if balance != before then Some(BalanceInconsistent)
      else if token.None? || contentRef == "" then Some(FieldMissing)
      else if token.value in l.tokens.info || token.value in l.tokens.deeds.burned then Some(TokenExists)
      else None
    case NftSend(token, recipient) =>
      if balance != before then Some(BalanceInconsistent)
      else if token.None? || recipient.None? then Some(FieldMissing)
      else if !Owns(l, b.content.accountId, token.value) && b.hash !in l.tokens.claimed then Some(NotTheOwner)
      else None
    case NftReceive(token, source) =>
      if balance != before then Some(BalanceInconsistent)
      else if token.None? || source.None? then Some(FieldMissing)
      else if source.value in l.allBlocks && !Hands(l.allBlocks[source.value], b.content.accountId, token)
        then Some(SourceMismatch)
      else None
    case NftBurn(token) =>
      if balance != before then Some(BalanceInconsistent)
      else if token.None? then Some(FieldMissing)
      else if !Owns(l, b.content.accountId, token.value) then Some(NotTheOwner)
      else None
    case StorageUpkeep(_) =>
      if balance != before then Some(BalanceInconsistent)
      else if !storageOk then Some(ProviderRefused) else None
    case StorageSettle(amount) =>
      if amount.None? || amount.value <= 0 then Some(AmountNotPositive)
      else if balance != before + amount.value then Some(BalanceInconsistent)
      else if !storageOk then Some(ProviderRefused) else None
  }

  /** `src` is a send of exactly this amount to `pub`. */
  predicate Pays(src: Block, pub: AccountId, amount: Option<int>) {
    src.content.body.Send? && src.content.body.recipient == Some(pub) && src.content.body.amount == amount
  }

  /** `src` is a transfer of exactly this token to `pub`. */
  predicate Hands(src: Block, pub: AccountId, token: Option<TokenId>) {
    src.content.body.NftSend? && src.content.body.recipient == Some(pub) && src.content.body.token == token
  }

  function JudgeGenesis(l: Ledger, b: Block): Verdict {
    var pub := b.content.accountId;
    if !b.content.body.Open? || b.content.previousHash != GenesisPrev then Refuse(BadGenesis)
    else if b.content.balance != MINT then Refuse(WrongMint)
    else if pub !in l.held then
      if b.root == [b.hash] then Append else SeatEmptyChain
    else if l.held[pub].chain == [] then Throw
    else if l.held[pub].chain[0].hash == b.hash then Repeat
    else Fork(l.held[pub].chain[0], ConflictingOpen)
  }

  function JudgeNext(l: Ledger, b: Block, storageOk: bool): Verdict {
    var pub, index := b.content.accountId, b.content.index;
    if pub !in l.held then Refuse(MissingPriorChain)
    else if l.held[pub].chain == [] then Throw
    else
      var chain := l.held[pub].chain;
      var head := chain[|chain| - 1];
      if index <= head.content.index then
        if 0 <= index < |chain| then
          if chain[index].hash == b.hash then Repeat else Fork(chain[index], StaleOrConflicting)
        else Refuse(StaleOrConflicting)
      else if index != head.content.index + 1 then Refuse(NonSequential)
      else if b.content.previousHash != head.hash then Refuse(PreviousHashMismatch)
      else
        var err := BodyError(l, head, b, storageOk);
        if err.Some? then Refuse(err.value)
        else if b.root != l.held[pub].acc + [b.hash] then Refuse(RootMismatch)
        else Append
  }

  /** Everything `addBlock` checks, in its order. */
  function Judge(l: Ledger, b: Block, storageOk: bool): Verdict {
    if b.hash != ContentHash(b.content) then Refuse(ContentHashMismatch)
    else if b.signature != Signed(b.content.accountId, b.hash, b.root) then Refuse(InvalidSignature)
    else if b.content.accountId in l.equivocated then Refuse(AccountEquivocated)
    else if b.content.index == 0 then JudgeGenesis(l, b)
    else JudgeNext(l, b, storageOk)
  }

  /** Record the evidence and void whatever the account still has on offer. */
  function Freeze(l: Ledger, ev: Evidence): Ledger {
    var pub := ev.first.content.accountId;
    if pub in l.equivocated then l
    else
      var sends, nfts := l.payments.unclaimed, l.tokens.unclaimed;
      l.(equivocated := l.equivocated[pub := ev],
         payments := l.payments.(unclaimed := map h | h in sends && sends[h].fromPub != pub :: sends[h]),
         tokens := l.tokens.(unclaimed := map h | h in nfts && nfts[h].fromPub != pub :: nfts[h]))
  }

  function Flag(l: Ledger, a: Block, b: Block): Ledger {
    if DoubleSpend(a, b) then Freeze(l, Evidence(a, b)) else l
  }

  /** Append an accepted block and index it. */
  function Applied(l: Ledger, b: Block): Ledger {
    Retain(Extend(l, b).(payments := ApplyPayments(l.payments, b), tokens := ApplyTokens(l.tokens, b)), b)
  }

  /** What a verdict does to the ledger. */
  function Enact(l: Ledger, b: Block, v: Verdict): Ledger {
    match v
    case Append => Applied(l, b)
    case Fork(rival, _) => Retain(Flag(l, rival, b), b)
    case SeatEmptyChain => l.(held := l.held[b.content.accountId := Held([], [])])
    case _ => l
  }

  function AddBlock(l: Ledger, b: Block, storageOk: bool): Ledger {
    Enact(l, b, Judge(l, b, storageOk))
  }

  // ---------------------------------------------------------------- Proof-carried registration

  /** What `verifyPacket` establishes about the send block itself. */
  predicate PacketOk(b: Block, recipient: AccountId, included: bool) {
    && (b.content.body.Send? || b.content.body.NftSend?)
    && b.content.body.recipient == Some(recipient)
    && b.Authentic()
    && included
  }

  function RegisterVerifiedSend(l: Ledger, b: Block, recipient: AccountId, included: bool): Ledger {
    var from := b.content.accountId;
    if from in l.equivocated || !PacketOk(b, recipient, included) then l
    else if b.content.body.NftSend? then
      var token := b.content.body.token;
      if token.None? || b.hash in l.tokens.claimed || token.value in l.tokens.deeds.burned then l
      else if b.hash in l.tokens.unclaimed then Retain(l, b)
      else
        var offers := l.tokens.unclaimed[b.hash := NftTransfer(token.value, from, recipient)];
        Retain(l, b).(tokens := l.tokens.(unclaimed := offers))
    else if b.hash in l.payments.claimed then l
    else if b.hash in l.payments.unclaimed then Retain(l, b)
    else
      var amount := if b.content.body.amount.Some? then b.content.body.amount.value else 0;
      var offers := l.payments.unclaimed[b.hash := Transfer(from, recipient, amount)];
      Retain(l, b).(payments := l.payments.(unclaimed := offers))
  }

  function RegisterVerifiedMint(l: Ledger, b: Block, token: TokenId, included: bool): Ledger {
    if token in l.tokens.info || b.content.accountId in l.equivocated || token in l.tokens.deeds.burned then l
    else if !b.content.body.NftMint? || b.content.body.token != Some(token) || b.content.body.contentRef == ""
            || !b.Authentic() || !included then l
    else
      var record := TokenInfo(b.content.accountId, b.content.body.contentRef, b.content.body.meta);
      Retain(l, b).(tokens := l.tokens.(info := l.tokens.info[token := record]))
  }

  function RestoreVerifiedBlock(l: Ledger, b: Block): Ledger {
    if !b.Authentic() then l
    else match b.content.body
      case NftMint(token, contentRef, meta) =>
        if token.None? || contentRef == "" || token.value in l.tokens.deeds.burned then l
        else if token.value in l.tokens.info then Retain(l, b)
        else
          var record := TokenInfo(b.content.accountId, contentRef, meta);
          Retain(l, b).(tokens := l.tokens.(info := l.tokens.info[token.value := record]))
      case NftSend(token, recipient) =>
        if token.None? || recipient.None? then l else Retain(l, b).(tokens := ApplyTokens(l.tokens, b))
      case Send(recipient, amount) =>
        if recipient.None? || amount.None? then l
        else if b.hash in l.payments.claimed || b.hash in l.payments.unclaimed then Retain(l, b)
        else Retain(l, b).(payments := l.payments.(unclaimed := l.payments.unclaimed[b.hash :=
          Transfer(b.content.accountId, recipient.value, amount.value)]))
      case _ => l
  }

  /** `applyEvidenceFromBlocks`: both blocks must be authentic and in conflict. */
  function EvidenceFromBlocks(l: Ledger, a: Block, b: Block): Ledger {
    if DoubleSpend(a, b) && a.Authentic() && b.Authentic() then Freeze(l, Evidence(a, b)) else l
  }

  // ---------------------------------------------------------------- Runs

  function NextLocal(l: Ledger, s: Step): Ledger
    requires s.Local()
  {
    if Created(l, s).Some? then Seat(l, Created(l, s).value) else l
  }

  function Next(l: Ledger, s: Step): Ledger {
    if s.Local() then NextLocal(l, s)
    else match s
      case Deliver(b, storageOk) => AddBlock(l, b, storageOk)
      case RegisterSend(b, claimant, included) => RegisterVerifiedSend(l, b, claimant, included)
      case RegisterMint(b, token, included) => RegisterVerifiedMint(l, b, token, included)
      case Restore(b) => RestoreVerifiedBlock(l, b)
      case ApplyEvidence(a, b) => EvidenceFromBlocks(l, a, b)
  }

  /** The ledger after a run of steps. */
  function Run(l: Ledger, steps: seq<Step>): Ledger {
    if steps == [] then l else Next(Run(l, steps[..|steps| - 1]), steps[|steps| - 1])
  }
}
