/** Optimistic confirmation and conflict voting.

A block is confirmed when it arrives unless another block already claims the same parent; then all of them go
to a stake-weighted vote. `Ballots` is the whole state of the vote manager; stakes are whole amounts and the
two-thirds ratio is exact.
 */
module Voting {
  import opened Prelude
  import opened FiniteSums

  type BlockHash = string

  datatype Parent = Parent(account: string, previousHash: string)

  datatype Vote = Vote(
    blockHash: BlockHash,
    voter: string,
    approve: bool,
    stake: nat,
    timestamp: int,
    signature: string,
    abstain: bool)

  datatype Tally = Tally(
    approveStake: nat,
    rejectStake: nat,
    abstainStake: nat,
    totalStake: nat,
    voterCount: nat,
    votes: map<string, Vote>,
    createdAt: int)

  /** `groups` and `order` are one insertion-ordered map from a parent to its competing blocks, each group in
  insertion order; `seen` is the insertion-ordered set of vote signatures. */
  datatype Ballots = Ballots(
    confirmed: set<BlockHash>,
    rejected: set<BlockHash>,
    groups: map<Parent, seq<BlockHash>>,
    order: seq<Parent>,
    tallies: map<BlockHash, Tally>,
    seen: seq<string>)

  const RESOLVE_TIMEOUT_MS := 10_000
  const VOTE_MAX_AGE_MS := 60_000
  const MAX_SEEN_SIGS := 50_000

  const NO_BALLOTS: Ballots := Ballots({}, {}, map[], [], map[], [])

  function Members(hs: seq<BlockHash>): set<BlockHash> {
    set h | h in hs
  }

  // ---------------------------------------------------------------- Registering a block

  function Siblings(s: Ballots, p: Parent): seq<BlockHash> {
    if p in s.groups then s.groups[p] else []
  }

  function WithMember<T(==)>(hs: seq<T>, h: T): seq<T> {
    if h in hs then hs else hs + [h]
  }

  function EmptyTally(now: int): Tally {
    Tally(0, 0, 0, 0, 0, map[], now)
  }

  function Opened(tallies: map<BlockHash, Tally>, hs: seq<BlockHash>, now: int): map<BlockHash, Tally> {
    map h | h in tallies.Keys + Members(hs) :: if h in tallies then tallies[h] else EmptyTally(now)
  }

  predicate Known(s: Ballots, h: BlockHash) {
    h in s.confirmed || h in s.rejected
  }

  /** `registerBlock`, the state. */
  function Registered(s: Ballots, h: BlockHash, p: Parent, now: int): Ballots {
    if Known(s, h) then s
    else
      var hs := WithMember(Siblings(s, p), h);
      var t := s.(groups := s.groups[p := hs], order := WithMember(s.order, p));
      if |hs| == 1 then t.(confirmed := t.confirmed + {h})
      else t.(confirmed := t.confirmed - Members(hs), tallies := Opened(t.tallies, hs, now))
  }

  /** `registerBlock`, the answer: does the caller see 'confirmed'? */
  predicate AnswersConfirmed(s: Ballots, h: BlockHash, p: Parent) {
    h in s.confirmed || (h !in s.rejected && |WithMember(Siblings(s, p), h)| == 1)
  }

  // ---------------------------------------------------------------- Voting

  function Remembered(seen: seq<string>, signature: string): seq<string> {
    var all := seen + [signature];
    if |all| > MAX_SEEN_SIGS then all[1..] else all
  }

  function Counted(t: Tally, v: Vote): Tally {
    var u := t.(votes := t.votes[v.voter := v], voterCount := t.voterCount + 1);
    if v.abstain then u.(abstainStake := u.abstainStake + v.stake)
    else if v.approve then u.(approveStake := u.approveStake + v.stake, totalStake := u.totalStake + v.stake)
    else u.(rejectStake := u.rejectStake + v.stake, totalStake := u.totalStake + v.stake)
  }

  predicate Stale(v: Vote, now: int) {
    now - v.timestamp > VOTE_MAX_AGE_MS
  }

  /** `addVote`. A stale vote still uses up its signature. */
  function Voted(s: Ballots, v: Vote, now: int): Ballots {
    if v.blockHash !in s.tallies || v.voter in s.tallies[v.blockHash].votes || v.signature in s.seen then s
    else
      var t := s.(seen := Remembered(s.seen, v.signature));
      if Stale(v, now) then t
      else t.(tallies := s.tallies[v.blockHash := Counted(s.tallies[v.blockHash], v)])
  }

  // ---------------------------------------------------------------- Resolving conflicts

  predicate AllTallied(tallies: map<BlockHash, Tally>, hs: seq<BlockHash>) {
    forall h :: h in hs ==> h in tallies
  }

  /** `hs[i]` is the first block of the group with the most approving stake. */
  predicate Leads(tallies: map<BlockHash, Tally>, hs: seq<BlockHash>, i: int)
    requires AllTallied(tallies, hs)
  {
    && 0 <= i < |hs|
    && (forall j :: 0 <= j < |hs| ==> tallies[hs[j]].approveStake <= tallies[hs[i]].approveStake)
    && (forall j :: 0 <= j < i ==> tallies[hs[j]].approveStake < tallies[hs[i]].approveStake)
  }

  lemma {:induction false} LeaderExists(tallies: map<BlockHash, Tally>, hs: seq<BlockHash>)
    requires hs != [] && AllTallied(tallies, hs)
    ensures exists i :: Leads(tallies, hs, i)
    decreases |hs|
  {
    var n := |hs| - 1;
    if n == 0 {
      assert Leads(tallies, hs, 0);
    } else {
      LeaderExists(tallies, hs[..n]);
      var i :| Leads(tallies, hs[..n], i);
      assert forall j :: 0 <= j < n ==> hs[..n][j] == hs[j];
      assert Leads(tallies, hs, if tallies[hs[n]].approveStake > tallies[hs[i]].approveStake then n else i);
    }
  }

  /** The position of the block a group would confirm. */
  ghost function Leader(tallies: map<BlockHash, Tally>, hs: seq<BlockHash>): (i: nat)
    requires hs != [] && AllTallied(tallies, hs)
    ensures Leads(tallies, hs, i) && hs[i] in hs
  {
    LeaderExists(tallies, hs);
    var i :| Leads(tallies, hs, i);
    i
  }

  lemma LeaderIsUnique(tallies: map<BlockHash, Tally>, hs: seq<BlockHash>, i: nat, j: nat)
    requires AllTallied(tallies, hs) && Leads(tallies, hs, i) && Leads(tallies, hs, j)
    ensures i == j
  {
    var a, b := tallies[hs[i]].approveStake, tallies[hs[j]].approveStake;
    assert a <= b && b <= a;
  }

  /** Some tally of the group was opened more than the timeout ago. */
  predicate TimedOut(tallies: map<BlockHash, Tally>, hs: seq<BlockHash>, now: int)
    requires AllTallied(tallies, hs)
  {
    exists h :: h in hs && now - tallies[h].createdAt > RESOLVE_TIMEOUT_MS
  }

  predicate AllVoted(tallies: map<BlockHash, Tally>, hs: seq<BlockHash>)
    requires AllTallied(tallies, hs)
  {
    forall h :: h in hs ==> tallies[h].totalStake + tallies[h].abstainStake != 0
  }

  predicate ThresholdMet(t: Tally) {
    t.totalStake > 0 && 3 * t.approveStake >= 2 * t.totalStake
  }

  ghost predicate Decided(tallies: map<BlockHash, Tally>, hs: seq<BlockHash>, now: int) {
    && |hs| > 1 && AllTallied(tallies, hs)
    && var best := tallies[hs[Leader(tallies, hs)]];
    && (ThresholdMet(best) || (TimedOut(tallies, hs, now) && (best.approveStake > 0 || AllVoted(tallies, hs))))
  }

  function Settle(s: Ballots, hs: seq<BlockHash>, winner: BlockHash): Ballots {
    s.(confirmed := s.confirmed + {winner},
       rejected := s.rejected + (Members(hs) - {winner}),
       tallies := s.tallies - Members(hs))
  }

  ghost function ResolveGroup(s: Ballots, p: Parent, now: int): Ballots {
    var hs := Siblings(s, p);
    if Decided(s.tallies, hs, now) then Settle(s, hs, hs[Leader(s.tallies, hs)]) else s
  }

  /** `resolveConflicts` over the first `n` groups. */
  ghost function Resolved(s: Ballots, n: nat, now: int): (r: Ballots)
    requires n <= |s.order|
    ensures r.groups == s.groups && r.order == s.order && r.seen == s.seen
  {
    if n == 0 then s else ResolveGroup(Resolved(s, n - 1, now), s.order[n - 1], now)
  }

  // ---------------------------------------------------------------- Steps and runs

  datatype Act =
    | Register(block: BlockHash, at: int)
    | Cast(vote: Vote, at: int)
    | Resolve(at: int)

  /** A block hash fixes the block's account and previous hash: `home`. */
  ghost function Step(home: BlockHash -> Parent, s: Ballots, act: Act): Ballots {
    match act
    case Register(block, at) => Registered(s, block, home(block), at)
    case Cast(vote, at) => Voted(s, vote, at)
    case Resolve(at) => Resolved(s, |s.order|, at)
  }

  ghost function Run(home: BlockHash -> Parent, acts: seq<Act>): Ballots {
    if acts == [] then NO_BALLOTS else Step(home, Run(home, acts[..|acts| - 1]), acts[|acts| - 1])
  }

  // ---------------------------------------------------------------- What every reachable state satisfies

  predicate Alone(s: Ballots, hs: seq<BlockHash>) {
    |hs| == 1 && hs[0] in s.confirmed && hs[0] !in s.rejected && hs[0] !in s.tallies
  }

  predicate Contested(s: Ballots, hs: seq<BlockHash>) {
    |hs| >= 2 && forall h :: h in hs ==> h in s.tallies && h !in s.confirmed
  }

  predicate SettledFor(s: Ballots, hs: seq<BlockHash>, winner: BlockHash) {
    && winner in hs && winner in s.confirmed
    && forall h :: h in hs ==> h !in s.tallies && (h != winner ==> h !in s.confirmed && h in s.rejected)
  }

  predicate Settled(s: Ballots, hs: seq<BlockHash>) {
    |hs| >= 2 && exists w :: w in hs && SettledFor(s, hs, w)
  }

  predicate GroupOk(home: BlockHash -> Parent, s: Ballots, p: Parent) {
    var hs := Siblings(s, p);
    && (forall h :: h in hs ==> home(h) == p)
    && (forall i, j :: 0 <= i < j < |hs| ==> hs[i] != hs[j])
    && (Alone(s, hs) || Contested(s, hs) || Settled(s, hs))
  }

  datatype Side = Approving | Rejecting | Abstaining

  function SideOf(v: Vote): Side {
    if v.abstain then Abstaining else if v.approve then Approving else Rejecting
  }

  /** What each voter adds to one side. */
  function Stakes(votes: map<string, Vote>, side: Side): map<string, int> {
    map p | p in votes :: if SideOf(votes[p]) == side then votes[p].stake else 0
  }

  function StakeOn(t: Tally, side: Side): nat {
    match side case Approving => t.approveStake case Rejecting => t.rejectStake case Abstaining => t.abstainStake
  }

  ghost predicate SideAddsUp(t: Tally, side: Side) {
    StakeOn(t, side) == Sum(Stakes(t.votes, side))
  }

  predicate VotesFiled(t: Tally, h: BlockHash) {
    forall p :: p in t.votes ==> t.votes[p].voter == p && t.votes[p].blockHash == h
  }

  /** The running stakes are the sums over the recorded votes, one per voter. */
  ghost predicate TallyOk(t: Tally, h: BlockHash) {
    && SideAddsUp(t, Approving) && SideAddsUp(t, Rejecting) && SideAddsUp(t, Abstaining)
    && t.totalStake == t.approveStake + t.rejectStake
    && t.voterCount == |t.votes|
    && VotesFiled(t, h)
  }

  predicate Filed(home: BlockHash -> Parent, s: Ballots, h: BlockHash) {
    h in Siblings(s, home(h))
  }

  predicate FirstAt(order: seq<Parent>, j: int) {
    0 <= j < |order| ==> forall i :: 0 <= i < j ==> order[i] != order[j]
  }

  predicate Listed(order: seq<Parent>, p: Parent) {
    p in order
  }

  /** `order` lists every group once. */
  ghost predicate OrderOk(order: seq<Parent>, groups: map<Parent, seq<BlockHash>>) {
    && (forall j {:trigger FirstAt(order, j)} :: FirstAt(order, j))
    && (forall p {:trigger Listed(order, p)} :: Listed(order, p) <==> p in groups)
  }

  ghost predicate GroupsOk(home: BlockHash -> Parent, s: Ballots) {
    forall p {:trigger GroupOk(home, s, p)} :: p in s.groups ==> GroupOk(home, s, p)
  }

  ghost predicate AllFiled(home: BlockHash -> Parent, s: Ballots) {
    forall h {:trigger Filed(home, s, h)} :: h in s.confirmed || h in s.rejected || h in s.tallies ==> Filed(home, s, h)
  }

  ghost predicate TalliesOk(s: Ballots) {
    forall h {:trigger TallyOk(s.tallies[h], h)} :: h in s.tallies ==> TallyOk(s.tallies[h], h)
  }

  ghost predicate Ok(home: BlockHash -> Parent, s: Ballots) {
    OrderOk(s.order, s.groups) && GroupsOk(home, s) && AllFiled(home, s) && TalliesOk(s)
  }

  // ---------------------------------------------------------------- Registering keeps it

  lemma MemberAdded(hs: seq<BlockHash>, h: BlockHash)
    ensures h in WithMember(hs, h)
    ensures forall g :: g in WithMember(hs, h) <==> g == h || g in hs
    ensures (forall i, j :: 0 <= i < j < |hs| ==> hs[i] != hs[j]) ==>
      forall i, j :: 0 <= i < j < |WithMember(hs, h)| ==> WithMember(hs, h)[i] != WithMember(hs, h)[j]
  {}

  /** The group a block joins: alone and confirmed, or everybody in voting. */
  lemma RegisteredGroup(home: BlockHash -> Parent, s: Ballots, h: BlockHash, now: int)
    requires home(h) in s.groups ==> GroupOk(home, s, home(h))
    requires !Known(s, h) && (h in s.tallies ==> Filed(home, s, h))
    ensures GroupOk(home, Registered(s, h, home(h), now), home(h))
  {
    var p := home(h);
    var hs := WithMember(Siblings(s, p), h);
    MemberAdded(Siblings(s, p), h);
    var t := Registered(s, h, p, now);
    assert Siblings(t, p) == hs;
    if |hs| == 1 {
      assert hs[0] == h;
      assert Alone(t, hs);
    } else {
      assert Contested(t, hs);
    }
  }

  /** A group whose members' standing did not change keeps its phase. */
  lemma OtherGroupsKeep(home: BlockHash -> Parent, s: Ballots, t: Ballots, q: Parent)
    requires GroupOk(home, s, q) && Siblings(t, q) == Siblings(s, q)
    requires forall h :: h in Siblings(s, q) ==>
      (h in t.confirmed <==> h in s.confirmed)
        && (h in t.rejected <==> h in s.rejected) && (h in t.tallies <==> h in s.tallies)
    ensures GroupOk(home, t, q)
  {
    var hs := Siblings(s, q);
    if Settled(s, hs) {
      var w :| w in hs && SettledFor(s, hs, w);
      assert SettledFor(t, hs, w);
    }
  }

  lemma RegisterKeepsGroups(home: BlockHash -> Parent, s: Ballots, h: BlockHash, now: int)
    requires GroupsOk(home, s) && AllFiled(home, s) && !Known(s, h)
    ensures GroupsOk(home, Registered(s, h, home(h), now))
  {
    var p := home(h);
    var t := Registered(s, h, p, now);
    forall q | q in t.groups ensures GroupOk(home, t, q) {
      if q == p {
        RegisteredGroup(home, s, h, now);
      } else {
        MemberAdded(Siblings(s, p), h);
        assert GroupOk(home, s, q);
        assert p in s.groups ==> GroupOk(home, s, p);
        OtherGroupsKeep(home, s, t, q);
      }
    }
  }

  lemma RegisterKeepsFiled(home: BlockHash -> Parent, s: Ballots, h: BlockHash, now: int)
    requires GroupsOk(home, s) && AllFiled(home, s) && !Known(s, h)
    ensures AllFiled(home, Registered(s, h, home(h), now))
  {
    var p := home(h);
    var t := Registered(s, h, p, now);
    var hs := WithMember(Siblings(s, p), h);
    MemberAdded(Siblings(s, p), h);
    assert p in s.groups ==> GroupOk(home, s, p);
    forall g | g in t.confirmed || g in t.rejected || g in t.tallies ensures Filed(home, t, g) {
      if g !in hs { assert Filed(home, s, g); } else { assert home(g) == p; }
    }
  }

  lemma EmptyTallyOk(now: int, h: BlockHash)
    ensures TallyOk(EmptyTally(now), h)
  {
    assert Stakes(map[], Approving) == map[];
    assert Stakes(map[], Rejecting) == map[];
    assert Stakes(map[], Abstaining) == map[];
  }

  lemma RegisterKeepsTallies(s: Ballots, h: BlockHash, p: Parent, now: int)
    requires TalliesOk(s)
    ensures TalliesOk(Registered(s, h, p, now))
  {
    var t := Registered(s, h, p, now);
    forall g | g in t.tallies ensures TallyOk(t.tallies[g], g) {
      if g !in s.tallies { EmptyTallyOk(now, g); }
    }
  }

  lemma RegisterKeepsOrder(s: Ballots, h: BlockHash, p: Parent, now: int)
    requires OrderOk(s.order, s.groups) && !Known(s, h)
    ensures var t := Registered(s, h, p, now); OrderOk(t.order, t.groups)
  {
    var t := Registered(s, h, p, now);
    assert Listed(s.order, p) <==> p in s.groups;
    forall q ensures Listed(t.order, q) <==> q in t.groups {
      assert Listed(s.order, q) <==> q in s.groups;
    }
    forall j ensures FirstAt(t.order, j) {
      assert FirstAt(s.order, j);
    }
  }

  lemma RegisterKeepsOk(home: BlockHash -> Parent, s: Ballots, h: BlockHash, now: int)
    requires Ok(home, s)
    ensures Ok(home, Registered(s, h, home(h), now))
  {
    if !Known(s, h) {
      RegisterKeepsGroups(home, s, h, now);
      RegisterKeepsFiled(home, s, h, now);
      RegisterKeepsTallies(s, h, home(h), now);
      RegisterKeepsOrder(s, h, home(h), now);
    }
  }

  // ---------------------------------------------------------------- Voting keeps it

  lemma CountingAddsUp(t: Tally, v: Vote, side: Side)
    requires SideAddsUp(t, side) && v.voter !in t.votes
    ensures SideAddsUp(Counted(t, v), side)
  {
    var mine := if SideOf(v) == side then v.stake else 0;
    assert Stakes(t.votes[v.voter := v], side) == Stakes(t.votes, side)[v.voter := mine];
    SumSet(Stakes(t.votes, side), v.voter, mine);
  }

  lemma VoteKeepsTallies(s: Ballots, v: Vote, now: int)
    requires TalliesOk(s)
    ensures TalliesOk(Voted(s, v, now))
  {
    var t := Voted(s, v, now);
    if t.tallies != s.tallies {
      var earlier := s.tallies[v.blockHash];
      assert TallyOk(earlier, v.blockHash);
      CountingAddsUp(earlier, v, Approving);
      CountingAddsUp(earlier, v, Rejecting);
      CountingAddsUp(earlier, v, Abstaining);
      assert TallyOk(Counted(earlier, v), v.blockHash);
    }
  }

  /** A state that differs only in the contents of tallies. */
  predicate SameStanding(s: Ballots, t: Ballots) {
    && t.groups == s.groups && t.order == s.order && t.confirmed == s.confirmed && t.rejected == s.rejected
    && t.tallies.Keys == s.tallies.Keys
  }

  lemma VoteKeepsStanding(s: Ballots, v: Vote, now: int)
    ensures SameStanding(s, Voted(s, v, now))
  {
    assert Voted(s, v, now).tallies.Keys == s.tallies.Keys;
  }

  lemma SameStandingKeepsGroups(home: BlockHash -> Parent, s: Ballots, t: Ballots)
    requires GroupsOk(home, s) && SameStanding(s, t)
    ensures GroupsOk(home, t)
  {
    forall q | q in t.groups ensures GroupOk(home, t, q) {
      assert GroupOk(home, s, q);
      OtherGroupsKeep(home, s, t, q);
    }
  }

  lemma SameStandingKeepsFiled(home: BlockHash -> Parent, s: Ballots, t: Ballots)
    requires AllFiled(home, s) && SameStanding(s, t)
    ensures AllFiled(home, t)
  {
    forall g | g in t.confirmed || g in t.rejected || g in t.tallies ensures Filed(home, t, g) {
      assert Filed(home, s, g);
    }
  }

  lemma SameStandingKeepsOk(home: BlockHash -> Parent, s: Ballots, t: Ballots)
    requires OrderOk(s.order, s.groups) && GroupsOk(home, s) && AllFiled(home, s) && SameStanding(s, t) && TalliesOk(t)
    ensures Ok(home, t)
  {
    SameStandingKeepsGroups(home, s, t);
    SameStandingKeepsFiled(home, s, t);
    assert OrderOk(t.order, t.groups);
  }

  lemma VoteKeepsOk(home: BlockHash -> Parent, s: Ballots, v: Vote, now: int)
    requires Ok(home, s)
    ensures Ok(home, Voted(s, v, now))
  {
    VoteKeepsTallies(s, v, now);
    VoteKeepsStanding(s, v, now);
    SameStandingKeepsOk(home, s, Voted(s, v, now));
  }

  // ---------------------------------------------------------------- Resolving keeps it

  /** A decided group had all its blocks in voting, and ends with one confirmed and the others rejected. */
  lemma DecisionSettles(home: BlockHash -> Parent, s: Ballots, p: Parent, now: int)
    requires GroupOk(home, s, p) && Decided(s.tallies, Siblings(s, p), now)
    ensures Contested(s, Siblings(s, p)) && GroupOk(home, ResolveGroup(s, p, now), p)
  {
    var t := ResolveGroup(s, p, now);
    var hs := Siblings(s, p);
    var w := hs[Leader(s.tallies, hs)];
    assert w in hs;
    assert Contested(s, hs);
    assert SettledFor(t, hs, w);
    assert Settled(t, hs);
  }

  lemma ResolveGroupKeepsGroups(home: BlockHash -> Parent, s: Ballots, p: Parent, now: int, next: Ballots)
    requires GroupsOk(home, s) && next == ResolveGroup(s, p, now)
    ensures GroupsOk(home, next)
  {
    if Decided(s.tallies, Siblings(s, p), now) {
      assert GroupOk(home, s, p);
      DecisionSettles(home, s, p, now);
      forall q | q in next.groups ensures GroupOk(home, next, q) {
        if q != p {
          assert GroupOk(home, s, q);
          OtherGroupsKeep(home, s, next, q);
        }
      }
    }
  }

  /** Every group holds blocks of its own parent only. */
  predicate Homed(home: BlockHash -> Parent, groups: map<Parent, seq<BlockHash>>) {
    forall p, h :: p in groups && h in groups[p] ==> home(h) == p
  }

  lemma GroupsAreHomed(home: BlockHash -> Parent, s: Ballots)
    requires GroupsOk(home, s)
    ensures Homed(home, s.groups)
  {
    forall p, h | p in s.groups && h in s.groups[p] ensures home(h) == p {
      assert GroupOk(home, s, p);
    }
  }

  lemma ResolveGroupKeepsFiled(home: BlockHash -> Parent, s: Ballots, p: Parent, now: int, next: Ballots)
    requires AllFiled(home, s) && Homed(home, s.groups) && next == ResolveGroup(s, p, now)
    ensures AllFiled(home, next)
  {
    var hs := Siblings(s, p);
    if Decided(s.tallies, hs, now) {
      forall g | g in next.confirmed || g in next.rejected || g in next.tallies ensures Filed(home, next, g) {
        if g !in hs { assert Filed(home, s, g); }
      }
    }
  }

  lemma {:induction false} PassKeepsGroups(home: BlockHash -> Parent, s: Ballots, n: nat, now: int)
    requires GroupsOk(home, s) && n <= |s.order|
    ensures GroupsOk(home, Resolved(s, n, now))
    decreases n
  {
    if n > 0 {
      PassKeepsGroups(home, s, n - 1, now);
      ResolveGroupKeepsGroups(home, Resolved(s, n - 1, now), s.order[n - 1], now, Resolved(s, n, now));
    } else {
      assert Resolved(s, n, now) == s;
    }
  }

  lemma {:induction false} PassKeepsFiled(home: BlockHash -> Parent, s: Ballots, n: nat, now: int)
    requires AllFiled(home, s) && Homed(home, s.groups) && n <= |s.order|
    ensures AllFiled(home, Resolved(s, n, now))
    decreases n
  {
    if n > 0 {
      PassKeepsFiled(home, s, n - 1, now);
      ResolveGroupKeepsFiled(home, Resolved(s, n - 1, now), s.order[n - 1], now, Resolved(s, n, now));
    } else {
      assert Resolved(s, n, now) == s;
    }
  }

  /** A pass withdraws no rejection and opens or changes no tally. */
  lemma {:induction false} PassOnlyRejects(s: Ballots, n: nat, now: int)
    requires n <= |s.order|
    ensures
      var t := Resolved(s, n, now);
      s.rejected <= t.rejected && forall h :: h in t.tallies ==> h in s.tallies && t.tallies[h] == s.tallies[h]
    decreases n
  {
    if n > 0 { PassOnlyRejects(s, n - 1, now); }
  }

  lemma ResolveKeepsOk(home: BlockHash -> Parent, s: Ballots, now: int)
    requires Ok(home, s)
    ensures Ok(home, Resolved(s, |s.order|, now))
  {
    PassKeepsGroups(home, s, |s.order|, now);
    GroupsAreHomed(home, s);
    PassKeepsFiled(home, s, |s.order|, now);
    PassOnlyRejects(s, |s.order|, now);
    var t := Resolved(s, |s.order|, now);
    forall h | h in t.tallies ensures TallyOk(t.tallies[h], h) { assert TallyOk(s.tallies[h], h); }
  }

  lemma StepKeepsOk(home: BlockHash -> Parent, s: Ballots, act: Act)
    requires Ok(home, s)
    ensures Ok(home, Step(home, s, act))
  {
    match act
    case Register(block, at) => RegisterKeepsOk(home, s, block, at);
    case Cast(vote, at) => VoteKeepsOk(home, s, vote, at);
    case Resolve(at) => ResolveKeepsOk(home, s, at);
  }

  /** After any run every sibling group is one confirmed block, a set of blocks all in voting and none
  confirmed, or a resolved set with exactly one confirmed and the others rejected; and every tally adds up. */
  lemma {:induction false} RunIsOk(home: BlockHash -> Parent, acts: seq<Act>)
    ensures Ok(home, Run(home, acts))
    decreases |acts|
  {
    if acts != [] {
      RunIsOk(home, acts[..|acts| - 1]);
      StepKeepsOk(home, Run(home, acts[..|acts| - 1]), acts[|acts| - 1]);
    }
  }

  // ---------------------------------------------------------------- What a resolution decides

  /** Everything the manager knows about one block. */
  datatype Standing = Standing(confirmed: bool, rejected: bool, tally: Option<Tally>)

  function StandingOf(s: Ballots, h: BlockHash): Standing {
    Standing(h in s.confirmed, h in s.rejected, if h in s.tallies then Some(s.tallies[h]) else None)
  }

  /** Two states agree on every block of a group. */
  predicate SameFate(s: Ballots, t: Ballots, p: Parent) {
    && Siblings(s, p) == Siblings(t, p)
    && forall h {:trigger StandingOf(s, h)} {:trigger StandingOf(t, h)} :: h in Siblings(s, p) ==>
          StandingOf(s, h) == StandingOf(t, h)
  }

  lemma GroupLeavesOthers(home: BlockHash -> Parent, s: Ballots, p: Parent, q: Parent, now: int)
    requires Homed(home, s.groups) && p != q
    ensures SameFate(s, ResolveGroup(s, p, now), q)
  {
    var hs, t := Siblings(s, p), ResolveGroup(s, p, now);
    if Decided(s.tallies, hs, now) {
      var winner := hs[Leader(s.tallies, hs)];
      forall h | h in Siblings(s, q) ensures StandingOf(s, h) == StandingOf(t, h) {
        assert home(h) == q;
        assert h !in hs;
      }
    }
  }

  /** Resolving one more group leaves another one as it was. */
  lemma PassStep(home: BlockHash -> Parent, before: Ballots, mid: Ballots, next: Ballots, p: Parent, q: Parent,
                 now: int)
    requires Homed(home, mid.groups) && p != q && next == ResolveGroup(mid, p, now) && SameFate(before, mid, q)
    ensures SameFate(before, next, q)
  {
    GroupLeavesOthers(home, mid, p, q, now);
    FateChains(before, mid, next, q);
  }

  lemma FateChains(s: Ballots, t: Ballots, u: Ballots, q: Parent)
    requires SameFate(s, t, q) && SameFate(t, u, q)
    ensures SameFate(s, u, q)
  {}

  lemma {:induction false} NotYetReached(home: BlockHash -> Parent, s: Ballots, n: nat, i: nat, now: int)
    requires OrderOk(s.order, s.groups) && Homed(home, s.groups) && n <= i < |s.order|
    ensures SameFate(s, Resolved(s, n, now), s.order[i])
    decreases n
  {
    if n > 0 {
      NotYetReached(home, s, n - 1, i, now);
      assert FirstAt(s.order, i);
      PassStep(home, s, Resolved(s, n - 1, now), Resolved(s, n, now), s.order[n - 1], s.order[i], now);
    } else {
      assert Resolved(s, n, now) == s;
    }
  }

  lemma {:induction false} PassReachesGroup(home: BlockHash -> Parent, s: Ballots, n: nat, i: nat, now: int)
    requires OrderOk(s.order, s.groups) && Homed(home, s.groups) && i < n <= |s.order|
    ensures SameFate(ResolveGroup(s, s.order[i], now), Resolved(s, n, now), s.order[i])
    decreases n
  {
    if i == n - 1 {
      NotYetReached(home, s, i, i, now);
      SameInputsSameFate(s, Resolved(s, i, now), s.order[i], now);
    } else {
      PassReachesGroup(home, s, n - 1, i, now);
      assert FirstAt(s.order, n - 1);
      PassStep(home, ResolveGroup(s, s.order[i], now), Resolved(s, n - 1, now), Resolved(s, n, now), s.order[n - 1],
               s.order[i], now);
    }
  }

  lemma SameInputsSameFate(s: Ballots, t: Ballots, p: Parent, now: int)
    requires SameFate(s, t, p)
    ensures SameFate(ResolveGroup(s, p, now), ResolveGroup(t, p, now), p)
  {
    var hs := Siblings(s, p);
    forall h | h in hs ensures StandingOf(s, h).tally == StandingOf(t, h).tally {}
    assert AllTallied(s.tallies, hs) <==> AllTallied(t.tallies, hs);
    if |hs| > 1 && AllTallied(s.tallies, hs) {
      assert forall h :: h in hs ==> StandingOf(s, h).tally == StandingOf(t, h).tally && s.tallies[h] == t.tallies[h];
      assert Leads(t.tallies, hs, Leader(s.tallies, hs));
      LeaderIsUnique(t.tallies, hs, Leader(s.tallies, hs), Leader(t.tallies, hs));
      assert Decided(s.tallies, hs, now) <==> Decided(t.tallies, hs, now);
    }
  }

  /** How one block of a group comes out of a resolution. */
  ghost predicate Verdict(s: Ballots, hs: seq<BlockHash>, h: BlockHash, t: Ballots, now: int) {
    && (h in t.confirmed <==> Decided(s.tallies, hs, now) && h == hs[Leader(s.tallies, hs)])
    && (h in t.tallies <==> !Decided(s.tallies, hs, now))
    && (h in t.confirmed ==> forall g :: g in hs && g != h ==>
          g in s.tallies && s.tallies[g].approveStake <= s.tallies[h].approveStake
            && g in t.rejected && g !in t.confirmed)
  }

  lemma GroupConfirmsTheLeader(home: BlockHash -> Parent, s: Ballots, p: Parent, h: BlockHash, now: int)
    requires GroupOk(home, s, p) && h in Siblings(s, p) && h in s.tallies
    ensures Verdict(s, Siblings(s, p), h, ResolveGroup(s, p, now), now)
  {
    var hs := Siblings(s, p);
    assert Contested(s, hs);
    var best := hs[Leader(s.tallies, hs)];
    assert best in hs;
    forall g | g in hs ensures s.tallies[g].approveStake <= s.tallies[best].approveStake {
      var j :| 0 <= j < |hs| && hs[j] == g;
    }
  }

  /** A periodic pass confirms a block exactly when its group decides now and it is the first with the most
  approving stake; every sibling of it then has no more approval and is rejected. */
  lemma PassConfirmsTheLeader(home: BlockHash -> Parent, s: Ballots, h: BlockHash, now: int)
    requires Ok(home, s) && h in s.tallies
    ensures Verdict(s, Siblings(s, home(h)), h, Resolved(s, |s.order|, now), now)
  {
    var p := home(h);
    assert Filed(home, s, h);
    assert GroupOk(home, s, p);
    assert Listed(s.order, p);
    var i :| 0 <= i < |s.order| && s.order[i] == p;
    GroupsAreHomed(home, s);
    PassReachesGroup(home, s, |s.order|, i, now);
    GroupConfirmsTheLeader(home, s, p, h, now);
    SameFateSameVerdict(s, ResolveGroup(s, p, now), Resolved(s, |s.order|, now), p, h, now);
  }

  lemma SameFateSameVerdict(s: Ballots, t: Ballots, u: Ballots, p: Parent, h: BlockHash, now: int)
    requires t.groups == s.groups && h in Siblings(s, p)
    requires Verdict(s, Siblings(s, p), h, t, now) && SameFate(t, u, p)
    ensures Verdict(s, Siblings(s, p), h, u, now)
  {
    forall g | g in Siblings(t, p) ensures StandingOf(t, g) == StandingOf(u, g) {}
    assert forall g :: g in Siblings(t, p) ==>
      (g in t.confirmed <==> g in u.confirmed)
        && (g in t.rejected <==> g in u.rejected) && (g in t.tallies <==> g in u.tallies);
  }

  // ---------------------------------------------------------------- A late sibling re-opens a settled conflict

  /** Nothing is both confirmed and rejected, and nothing rejected is being voted on. */
  predicate Clean(s: Ballots) {
    forall h :: h in s.rejected ==> h !in s.confirmed && h !in s.tallies
  }

  /** A block never seen before arrives under a parent one of whose blocks was already rejected. */
  predicate Reopens(home: BlockHash -> Parent, s: Ballots, act: Act) {
    act.Register? && !Known(s, act.block) && exists g :: g in Siblings(s, home(act.block)) && g in s.rejected
  }

  lemma ResolveGroupKeepsClean(home: BlockHash -> Parent, s: Ballots, p: Parent, now: int, next: Ballots)
    requires GroupsOk(home, s) && Clean(s) && next == ResolveGroup(s, p, now)
    ensures Clean(next)
  {
    if Decided(s.tallies, Siblings(s, p), now) {
      assert GroupOk(home, s, p);
      DecisionSettles(home, s, p, now);
    }
  }

  lemma {:induction false} ResolveKeepsClean(home: BlockHash -> Parent, s: Ballots, n: nat, now: int)
    requires GroupsOk(home, s) && Clean(s) && n <= |s.order|
    ensures Clean(Resolved(s, n, now))
    decreases n
  {
    if n > 0 {
      PassKeepsGroups(home, s, n - 1, now);
      ResolveKeepsClean(home, s, n - 1, now);
      ResolveGroupKeepsClean(home, Resolved(s, n - 1, now), s.order[n - 1], now, Resolved(s, n, now));
    } else {
      assert Resolved(s, n, now) == s;
    }
  }

  /** A step spoils a clean state exactly when it re-opens a settled conflict. */
  lemma StepStaysCleanIff(home: BlockHash -> Parent, s: Ballots, act: Act)
    requires Ok(home, s) && Clean(s)
    ensures Clean(Step(home, s, act)) <==> !Reopens(home, s, act)
  {
    match act
    case Register(h, at) =>
      if !Known(s, h) { RegisterStaysCleanIff(home, s, h, at); }
    case Cast(vote, at) => VoteKeepsStanding(s, vote, at);
    case Resolve(at) => ResolveKeepsClean(home, s, |s.order|, at);
  }

  lemma RegisterStaysCleanIff(home: BlockHash -> Parent, s: Ballots, h: BlockHash, now: int)
    requires Ok(home, s) && Clean(s) && !Known(s, h)
    ensures Clean(Registered(s, h, home(h), now)) <==> !Reopens(home, s, Register(h, now))
  {
    var p := home(h);
    var hs := WithMember(Siblings(s, p), h);
    var t := Registered(s, h, p, now);
    MemberAdded(Siblings(s, p), h);
    if |hs| > 1 {
      assert t.tallies.Keys == s.tallies.Keys + Members(hs);
      if g :| g in Siblings(s, p) && g in s.rejected { assert g in t.rejected && g in t.tallies.Keys; }
    }
  }

  /** As long as no late sibling re-opens a settled conflict, no block is ever both confirmed and rejected. */
  lemma {:induction false} RunStaysClean(home: BlockHash -> Parent, acts: seq<Act>)
    requires forall i :: 0 <= i < |acts| ==> !Reopens(home, Run(home, acts[..i]), acts[i])
    ensures Clean(Run(home, acts))
    decreases |acts|
  {
    if acts != [] {
      var early := acts[..|acts| - 1];
      forall i | 0 <= i < |early| ensures !Reopens(home, Run(home, early[..i]), early[i]) {
        assert early[..i] == acts[..i];
      }
      RunStaysClean(home, early);
      RunIsOk(home, early);
      StepStaysCleanIff(home, Run(home, early), acts[|acts| - 1]);
    }
  }

  /** Once re-opened, the earlier verdict can flip: one vote with enough stake for the rejected block, and the
  next pass after the timeout leaves it confirmed and rejected at once, with the first winner rejected. */
  lemma RejectedBlockCanWin(home: BlockHash -> Parent, s: Ballots, v: Vote, cast: int, later: int)
    requires Ok(home, s) && v.blockHash in s.rejected && v.blockHash in s.tallies
    requires v.approve && !v.abstain && !Stale(v, cast) && v.signature !in s.seen
    requires v.voter !in s.tallies[v.blockHash].votes && v.stake > 0
    requires forall g :: g in Siblings(s, home(v.blockHash)) && g in s.tallies ==> s.tallies[g].approveStake < v.stake
    requires later - s.tallies[v.blockHash].createdAt > RESOLVE_TIMEOUT_MS
    ensures
      var t := Step(home, Step(home, s, Cast(v, cast)), Resolve(later));
      && v.blockHash in t.confirmed && v.blockHash in t.rejected
      && forall g :: g in Siblings(s, home(v.blockHash)) && g != v.blockHash ==> g in t.rejected && g !in t.confirmed
  {
    var h := v.blockHash;
    var u := Voted(s, v, cast);
    VoteKeepsOk(home, s, v, cast);
    var hs := Siblings(u, home(h));
    assert Filed(home, u, h);
    assert GroupOk(home, u, home(h));
    assert Contested(u, hs);
    assert Decided(u.tallies, hs, later) && h == hs[Leader(u.tallies, hs)] by {
      var j :| 0 <= j < |hs| && hs[j] == h;
      forall g | g in hs && g != h ensures u.tallies[g].approveStake < u.tallies[h].approveStake {
        assert u.tallies[g] == s.tallies[g];
      }
      assert TimedOut(u.tallies, hs, later);
      assert hs[Leader(u.tallies, hs)] in hs;
    }
    PassConfirmsTheLeader(home, u, h, later);
    VoteKeepsStanding(s, v, cast);
    PassOnlyRejects(u, |u.order|, later);
  }

  lemma MembersStep(hs: seq<BlockHash>, i: nat)
    requires i < |hs|
    ensures Members(hs[..i + 1]) == Members(hs[..i]) + {hs[i]}
  {
    assert hs[..i + 1] == hs[..i] + [hs[i]];
  }

  lemma TwoSiblings(home: BlockHash -> Parent, a: BlockHash, b: BlockHash)
    requires a != b && home(a) == home(b)
    ensures
      var s := Step(home, Step(home, NO_BALLOTS, Register(a, 0)), Register(b, 0));
      Siblings(s, home(a)) == [a, b] && s.seen == [] && s.tallies == map[a := EmptyTally(0), b := EmptyTally(0)]
  {
    var s1 := Step(home, NO_BALLOTS, Register(a, 0));
    assert Siblings(s1, home(a)) == [a];
    assert Members([a, b]) == {a, b};
  }

  /** Two siblings and one vote for the first. */
  lemma TwoSiblingsOneVote(home: BlockHash -> Parent, a: BlockHash, b: BlockHash, v: Vote)
    requires a != b && home(a) == home(b) && v == Vote(a, "v", true, 1, 0, "s1", false)
    ensures
      var s := Step(home, Step(home, Step(home, NO_BALLOTS, Register(a, 0)), Register(b, 0)), Cast(v, 0));
      && Siblings(s, home(a)) == [a, b] && s.seen == ["s1"]
      && s.tallies.Keys == {a, b} && s.tallies[a].approveStake == 1 == s.tallies[a].totalStake
      && s.tallies[b] == EmptyTally(0)
  {
    TwoSiblings(home, a, b);
    FirstVote(Step(home, Step(home, NO_BALLOTS, Register(a, 0)), Register(b, 0)), a, b, v);
  }

  lemma FirstVote(s: Ballots, a: BlockHash, b: BlockHash, v: Vote)
    requires a != b && s.seen == [] && s.tallies == map[a := EmptyTally(0), b := EmptyTally(0)]
    requires v == Vote(a, "v", true, 1, 0, "s1", false)
    ensures
      var t := Voted(s, v, 0);
      && t.groups == s.groups && t.seen == ["s1"]
      && t.tallies.Keys == {a, b} && t.tallies[a].approveStake == 1 == t.tallies[a].totalStake
      && t.tallies[b] == EmptyTally(0)
  {}

  /** The pass after the timeout confirms the one with the vote and rejects the other. */
  lemma FirstVerdict(home: BlockHash -> Parent, s: Ballots, a: BlockHash, b: BlockHash)
    requires Ok(home, s) && a != b && home(a) == home(b) && Siblings(s, home(a)) == [a, b]
    requires s.tallies.Keys == {a, b} && s.tallies[a].approveStake == 1 == s.tallies[a].totalStake
    requires s.tallies[b] == EmptyTally(0)
    ensures
      var t := Resolved(s, |s.order|, 20_000);
      t.groups == s.groups && t.seen == s.seen && b in t.rejected && t.tallies.Keys == {}
  {
    var hs := [a, b];
    assert Leads(s.tallies, hs, 0);
    LeaderIsUnique(s.tallies, hs, 0, Leader(s.tallies, hs));
    PassConfirmsTheLeader(home, s, a, 20_000);
    PassConfirmsTheLeader(home, s, b, 20_000);
    PassOnlyRejects(s, |s.order|, 20_000);
  }

  lemma ThirdSibling(home: BlockHash -> Parent, s: Ballots, a: BlockHash, b: BlockHash, c: BlockHash)
    requires Ok(home, s) && a != c && b != c && home(a) == home(b) == home(c) && Siblings(s, home(a)) == [a, b]
    requires b in s.rejected && s.tallies.Keys == {}
    ensures
      var t := Step(home, s, Register(c, 20_000));
      && Siblings(t, home(a)) == [a, b, c] && t.seen == s.seen && b in t.rejected
      && t.tallies.Keys == {a, b, c} && t.tallies[a] == t.tallies[b] == t.tallies[c] == EmptyTally(20_000)
  {
    assert !Filed(home, s, c);
    assert Members([a, b, c]) == {a, b, c};
  }

  ghost predicate Reachable(home: BlockHash -> Parent, s: Ballots) {
    exists acts :: Run(home, acts) == s
  }

  lemma ReachableStep(home: BlockHash -> Parent, s: Ballots, act: Act)
    requires Reachable(home, s)
    ensures Reachable(home, Step(home, s, act)) && Ok(home, s)
  {
    var acts :| Run(home, acts) == s;
    RunIsOk(home, acts);
    assert (acts + [act])[..|acts|] == acts;
    assert Run(home, acts + [act]) == Step(home, s, act);
  }

  /** Such a run exists: two siblings, a vote, a pass, a third sibling, a vote, a pass. */
  lemma ReopeningHappens(home: BlockHash -> Parent, a: BlockHash, b: BlockHash, c: BlockHash)
    requires a != b && a != c && b != c && home(a) == home(b) == home(c)
    ensures exists s :: Reachable(home, s) && b in s.confirmed && b in s.rejected
  {
    var forA, forB := Vote(a, "v", true, 1, 0, "s1", false), Vote(b, "v", true, 1, 20_000, "s2", false);
    assert Run(home, []) == NO_BALLOTS;
    ReachableStep(home, NO_BALLOTS, Register(a, 0));
    var s1 := Step(home, NO_BALLOTS, Register(a, 0));
    ReachableStep(home, s1, Register(b, 0));
    var s2 := Step(home, s1, Register(b, 0));
    ReachableStep(home, s2, Cast(forA, 0));
    var s3 := Step(home, s2, Cast(forA, 0));
    TwoSiblingsOneVote(home, a, b, forA);
    LastFourSteps(home, s3, a, b, c, forB);
  }

  lemma LastFourSteps(home: BlockHash -> Parent, s: Ballots, a: BlockHash, b: BlockHash, c: BlockHash, forB: Vote)
    requires a != b && a != c && b != c && home(a) == home(b) == home(c) && Reachable(home, s)
    requires Siblings(s, home(a)) == [a, b] && s.seen == ["s1"]
    requires s.tallies.Keys == {a, b} && s.tallies[a].approveStake == 1 == s.tallies[a].totalStake
    requires s.tallies[b] == EmptyTally(0)
    requires forB == Vote(b, "v", true, 1, 20_000, "s2", false)
    ensures exists t :: Reachable(home, t) && b in t.confirmed && b in t.rejected
  {
    ReachableStep(home, s, Resolve(20_000));
    FirstVerdict(home, s, a, b);
    var s4 := Step(home, s, Resolve(20_000));
    ReachableStep(home, s4, Register(c, 20_000));
    ThirdSibling(home, s4, a, b, c);
    var s5 := Step(home, s4, Register(c, 20_000));
    ReachableStep(home, s5, Cast(forB, 20_000));
    var s6 := Step(home, s5, Cast(forB, 20_000));
    ReachableStep(home, s6, Resolve(40_000));
    RejectedBlockCanWin(home, s5, forB, 20_000, 40_000);
  }

  // ---------------------------------------------------------------- What a pass reports

  ghost function Winners(s: Ballots, n: nat, now: int): seq<BlockHash>
    requires n <= |s.order|
  {
    if n == 0 then []
    else
      var mid := Resolved(s, n - 1, now);
      var hs := Siblings(s, s.order[n - 1]);
      Winners(s, n - 1, now) + if Decided(mid.tallies, hs, now) then [hs[Leader(mid.tallies, hs)]] else []
  }

  function Without(hs: seq<BlockHash>, winner: BlockHash): seq<BlockHash> {
    if hs == [] then []
    else Without(hs[..|hs| - 1], winner) + if hs[|hs| - 1] == winner then [] else [hs[|hs| - 1]]
  }

  lemma MembersOfSum(a: seq<BlockHash>, b: seq<BlockHash>)
    ensures Members(a + b) == Members(a) + Members(b)
  {}

  lemma {:induction false} WithoutLosesOne(hs: seq<BlockHash>, winner: BlockHash)
    ensures Members(Without(hs, winner)) == Members(hs) - {winner}
    decreases |hs|
  {
    if hs != [] {
      var n := |hs| - 1;
      WithoutLosesOne(hs[..n], winner);
      MembersStep(hs, n);
      assert hs[..n + 1] == hs;
      var last := if hs[n] == winner then [] else [hs[n]];
      MembersOfSum(Without(hs[..n], winner), last);
      assert Members(last) == {hs[n]} - {winner};
    }
  }

  ghost function Losers(s: Ballots, n: nat, now: int): seq<BlockHash>
    requires n <= |s.order|
  {
    if n == 0 then []
    else
      var mid := Resolved(s, n - 1, now);
      var hs := Siblings(s, s.order[n - 1]);
      Losers(s, n - 1, now) + if Decided(mid.tallies, hs, now) then Without(hs, hs[Leader(mid.tallies, hs)]) else []
  }

  lemma ReportStep(s: Ballots, p: Parent, now: int, next: Ballots, start: Ballots, winners: seq<BlockHash>,
                   losers: seq<BlockHash>)
    requires next == ResolveGroup(s, p, now)
    requires s.confirmed == start.confirmed + Members(winners) && s.rejected == start.rejected + Members(losers)
    ensures
      var hs := Siblings(s, p);
      if Decided(s.tallies, hs, now)
      then
        && next.confirmed == start.confirmed + Members(winners + [hs[Leader(s.tallies, hs)]])
        && next.rejected == start.rejected + Members(losers + Without(hs, hs[Leader(s.tallies, hs)]))
      else next == s
  {
    var hs := Siblings(s, p);
    if Decided(s.tallies, hs, now) {
      var winner := hs[Leader(s.tallies, hs)];
      assert Members([winner]) == {winner};
      WithoutLosesOne(hs, winner);
      MembersOfSum(winners, [winner]);
      MembersOfSum(losers, Without(hs, winner));
    }
  }

  /** The reported blocks are exactly the ones the pass confirms and rejects. */
  lemma {:induction false} ReportIsExact(s: Ballots, n: nat, now: int)
    requires n <= |s.order|
    ensures Resolved(s, n, now).confirmed == s.confirmed + Members(Winners(s, n, now))
    ensures Resolved(s, n, now).rejected == s.rejected + Members(Losers(s, n, now))
    decreases n
  {
    if n > 0 {
      ReportIsExact(s, n - 1, now);
      ReportStep(Resolved(s, n - 1, now), s.order[n - 1], now, Resolved(s, n, now), s,
                 Winners(s, n - 1, now), Losers(s, n - 1, now));
      if !Decided(Resolved(s, n - 1, now).tallies, Siblings(s, s.order[n - 1]), now) {
        assert Winners(s, n, now) == Winners(s, n - 1, now) && Losers(s, n, now) == Losers(s, n - 1, now);
      }
    } else {
      assert Resolved(s, n, now) == s;
    }
  }
}
