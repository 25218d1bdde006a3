/** The vote manager as it runs: sets and maps rewritten in place by loops over sibling groups. */
module VoteManagers {
  import opened Voting

  class VoteManager {
    var confirmedBlocks: set<BlockHash>
    var rejectedBlocks: set<BlockHash>
    var parentToBlocks: map<Parent, seq<BlockHash>>
    var parents: seq<Parent>
    var tallies: map<BlockHash, Tally>
    var seenSignatures: seq<string>

    constructor ()
      ensures View() == NO_BALLOTS
    {
      confirmedBlocks, rejectedBlocks, parentToBlocks, parents, tallies, seenSignatures := {}, {}, map[], [], map[], [];
    }

    function View(): Ballots
      reads this
    {
      Ballots(confirmedBlocks, rejectedBlocks, parentToBlocks, parents, tallies, seenSignatures)
    }

    /** Registers a block; true when it is confirmed, false when it is in conflict. */
    method RegisterBlock(block: BlockHash, parent: Parent, now: int) returns (confirmed: bool)
      modifies this
      ensures View() == Registered(old(View()), block, parent, now)
      ensures confirmed == AnswersConfirmed(old(View()), block, parent)
    {
      if block in confirmedBlocks { return true; }
      if block in rejectedBlocks { return false; }
      if parent !in parentToBlocks { parentToBlocks := parentToBlocks[parent := []]; }
      if parent !in parents { parents := parents + [parent]; }
      var siblings := parentToBlocks[parent];
      if block !in siblings {
        siblings := siblings + [block];
        parentToBlocks := parentToBlocks[parent := siblings];
      }
      if |siblings| == 1 {
        confirmedBlocks := confirmedBlocks + {block};
        return true;
      }
      StartVoting(siblings, now);
      confirmed := false;
    }

    /** Revoke the optimistic confirmations of a group and open the missing tallies. */
    method StartVoting(siblings: seq<BlockHash>, now: int)
      modifies this`confirmedBlocks, this`tallies
      ensures confirmedBlocks == old(confirmedBlocks) - Members(siblings)
      ensures tallies == Opened(old(tallies), siblings, now)
    {
      for i := 0 to |siblings|
        invariant confirmedBlocks == old(confirmedBlocks) - Members(siblings[..i])
        invariant tallies == Opened(old(tallies), siblings[..i], now)
      {
        MembersStep(siblings, i);
        var hash := siblings[i];
        confirmedBlocks := confirmedBlocks - {hash};
        if hash !in tallies { tallies := tallies[hash := EmptyTally(now)]; }
      }
      assert siblings[..|siblings|] == siblings;
    }

    method AddVote(vote: Vote, now: int)
      modifies this
      ensures View() == Voted(old(View()), vote, now)
    {
      if vote.blockHash !in tallies { return; }
      var tally := tallies[vote.blockHash];
      if vote.voter in tally.votes { return; }
      if vote.signature in seenSignatures { return; }
      seenSignatures := seenSignatures + [vote.signature];
      if |seenSignatures| > MAX_SEEN_SIGS { seenSignatures := seenSignatures[1..]; }
      if now - vote.timestamp > VOTE_MAX_AGE_MS { return; }
      tally := tally.(votes := tally.votes[vote.voter := vote], voterCount := tally.voterCount + 1);
      if vote.abstain {
        tally := tally.(abstainStake := tally.abstainStake + vote.stake);
      } else if vote.approve {
        tally := tally.(approveStake := tally.approveStake + vote.stake, totalStake := tally.totalStake + vote.stake);
      } else {
        tally := tally.(rejectStake := tally.rejectStake + vote.stake, totalStake := tally.totalStake + vote.stake);
      }
      tallies := tallies[vote.blockHash := tally];
    }

    /** Scan a group for its leader, its oldest tally, and whether every block has been voted on. */
    method Scan(hashes: seq<BlockHash>, now: int) returns (best: BlockHash, decided: bool)
      requires |hashes| > 1 && AllTallied(tallies, hashes)
      ensures best == hashes[Leader(tallies, hashes)]
      ensures decided == Decided(tallies, hashes, now)
    {
      var bestAt, allVoted, oldest := 0, true, tallies[hashes[0]].createdAt;
      var bestStake: int := -1;
      for i := 0 to |hashes|
        invariant i > 0 ==> 0 <= bestAt < i && bestStake == tallies[hashes[bestAt]].approveStake
        invariant i == 0 ==> bestStake == -1
        invariant forall j :: 0 <= j < i ==> tallies[hashes[j]].approveStake <= bestStake
        invariant forall j :: 0 <= j < bestAt && i > 0 ==> tallies[hashes[j]].approveStake < bestStake
        invariant allVoted <==> forall j :: 0 <= j < i ==>
          tallies[hashes[j]].totalStake + tallies[hashes[j]].abstainStake != 0
        invariant exists j :: 0 <= j < |hashes| && tallies[hashes[j]].createdAt == oldest
        invariant forall j :: 0 <= j < i ==> oldest <= tallies[hashes[j]].createdAt
      {
        var tally := tallies[hashes[i]];
        if tally.createdAt < oldest { oldest := tally.createdAt; }
        if tally.totalStake + tally.abstainStake == 0 { allVoted := false; }
        if tally.approveStake > bestStake { bestStake, bestAt := tally.approveStake, i; }
      }
      best := hashes[bestAt];
      LeaderIsUnique(tallies, hashes, bestAt, Leader(tallies, hashes));
      var thresholdMet := ThresholdMet(tallies[best]);
      var timedOut := now - oldest > RESOLVE_TIMEOUT_MS;
      assert timedOut == TimedOut(tallies, hashes, now) by {
        var j :| 0 <= j < |hashes| && tallies[hashes[j]].createdAt == oldest;
        assert hashes[j] in hashes;
      }
      assert allVoted == AllVoted(tallies, hashes);
      decided := thresholdMet || (timedOut && bestStake > 0) || (timedOut && allVoted);
    }

    /** Confirm the winner and reject the losers. */
    method Conclude(hashes: seq<BlockHash>, best: BlockHash) returns (losers: seq<BlockHash>)
      requires best in hashes
      modifies this
      ensures View() == Settle(old(View()), hashes, best)
      ensures losers == Without(hashes, best)
    {
      confirmedBlocks := confirmedBlocks + {best};
      tallies := tallies - {best};
      losers := RejectLosers(hashes, best);
      assert tallies == old(tallies) - Members(hashes);
    }

    method RejectLosers(hashes: seq<BlockHash>, best: BlockHash) returns (losers: seq<BlockHash>)
      modifies this`rejectedBlocks, this`tallies
      ensures losers == Without(hashes, best)
      ensures rejectedBlocks == old(rejectedBlocks) + (Members(hashes) - {best})
      ensures tallies == old(tallies) - (Members(hashes) - {best})
    {
      losers := [];
      for i := 0 to |hashes|
        invariant losers == Without(hashes[..i], best)
        invariant rejectedBlocks == old(rejectedBlocks) + Members(losers)
        invariant tallies == old(tallies) - Members(losers)
      {
        var hash := hashes[i];
        assert hashes[..i + 1] == hashes[..i] + [hash];
        assert hashes[..i + 1][..i] == hashes[..i];
        if hash != best {
          MembersOfSum(losers, [hash]);
          assert Members([hash]) == {hash};
          rejectedBlocks := rejectedBlocks + {hash};
          tallies := tallies - {hash};
          losers := losers + [hash];
        }
      }
      assert hashes[..|hashes|] == hashes;
      WithoutLosesOne(hashes, best);
    }

    method ResolveConflicts(now: int) returns (confirmed: seq<BlockHash>, rejected: seq<BlockHash>)
      modifies this
      ensures View() == Resolved(old(View()), |old(parents)|, now)
      ensures confirmed == Winners(old(View()), |old(parents)|, now)
      ensures rejected == Losers(old(View()), |old(parents)|, now)
    {
      confirmed, rejected := [], [];
      for k := 0 to |parents|
        invariant parents == old(parents)
        invariant View() == Resolved(old(View()), k, now)
        invariant confirmed == Winners(old(View()), k, now)
        invariant rejected == Losers(old(View()), k, now)
      {
        var hashes := if parents[k] in parentToBlocks then parentToBlocks[parents[k]] else [];
        if |hashes| > 1 && forall h :: h in hashes ==> h in tallies {
          var best, decided := Scan(hashes, now);
          if decided {
            var losers := Conclude(hashes, best);
            confirmed := confirmed + [best];
            rejected := rejected + losers;
          }
        }
      }
    }
  }
}
