/** What voting decides, stated over stakes, ages and signatures: when a pass settles a group, which votes count, and
what a newly registered block's caller is told. */
module VoteRules {
  import Prelude
  import opened Voting

  // ---------------------------------------------------------------- Settling

  /** Two thirds of the stake that took a side approve, and some does. */
  predicate TwoThirdsApprove(t: Tally) {
    t.approveStake > 0 && 3 * t.approveStake >= 2 * (t.approveStake + t.rejectStake)
  }

  /** No sibling has more approving stake, and no earlier one as much. */
  predicate IsFrontrunner(s: Ballots, hs: seq<BlockHash>, h: BlockHash)
    requires forall g :: g in hs ==> g in s.tallies
  {
    exists i :: 0 <= i < |hs| && hs[i] == h
      && forall j :: 0 <= j < |hs| ==>
           if j < i then s.tallies[hs[j]].approveStake < s.tallies[h].approveStake
           else s.tallies[hs[j]].approveStake <= s.tallies[h].approveStake
  }

  /** Ten seconds after the first of its tallies was opened, a group waits no longer for two thirds: some approval
  is enough, or that every block has a vote. */
  predicate OverdueFor(s: Ballots, hs: seq<BlockHash>, h: BlockHash, now: int)
    requires h in s.tallies && forall g :: g in hs ==> g in s.tallies
  {
    && (exists g :: g in hs && now - s.tallies[g].createdAt > 10_000)
    && (s.tallies[h].approveStake > 0
        || forall g :: g in hs ==> VotedOn(s.tallies[g]))
  }

  predicate VotedOn(t: Tally) {
    t.approveStake + t.rejectStake + t.abstainStake > 0
  }

  lemma ContestedGroup(home: BlockHash -> Parent, s: Ballots, h: BlockHash)
    requires Ok(home, s) && h in s.tallies
    ensures
      var hs := Siblings(s, home(h));
      h in hs && |hs| >= 2 && forall g :: g in hs ==> g in s.tallies && g !in s.confirmed && TallyOk(s.tallies[g], g)
  {
    assert Filed(home, s, h);
    assert GroupOk(home, s, home(h));
    assert Contested(s, Siblings(s, home(h)));
  }

  lemma FrontrunnerLeads(s: Ballots, hs: seq<BlockHash>, h: BlockHash)
    requires hs != [] && AllTallied(s.tallies, hs)
    requires forall i, j :: 0 <= i < j < |hs| ==> hs[i] != hs[j]
    ensures IsFrontrunner(s, hs, h) <==> h == hs[Leader(s.tallies, hs)]
  {
    var best := Leader(s.tallies, hs);
    if IsFrontrunner(s, hs, h) {
      var i :| 0 <= i < |hs| && hs[i] == h
        && forall j :: 0 <= j < |hs| ==>
             if j < i then s.tallies[hs[j]].approveStake < s.tallies[h].approveStake
             else s.tallies[hs[j]].approveStake <= s.tallies[h].approveStake;
      assert Leads(s.tallies, hs, i);
      LeaderIsUnique(s.tallies, hs, i, best);
    }
  }

  /** The group's frontrunner has what it takes to be confirmed now. */
  predicate Wins(s: Ballots, hs: seq<BlockHash>, h: BlockHash, now: int)
    requires h in s.tallies && forall g :: g in hs ==> g in s.tallies
  {
    IsFrontrunner(s, hs, h) && (TwoThirdsApprove(s.tallies[h]) || OverdueFor(s, hs, h, now))
  }

  /** A pass settles a group being voted on exactly when its frontrunner has two thirds or the group is overdue for it;
  then the frontrunner is confirmed and every sibling rejected, otherwise nobody in the group is and the vote goes
  on. */
  lemma PassSettlesIff(home: BlockHash -> Parent, s: Ballots, h: BlockHash, now: int)
    requires Ok(home, s) && h in s.tallies
    ensures
      var hs, t := Siblings(s, home(h)), Step(home, s, Resolve(now));
      && (forall g :: g in hs ==> g in s.tallies)
      && (h in t.confirmed <==> Wins(s, hs, h, now))
      && (h !in t.tallies <==> exists w :: w in hs && Wins(s, hs, w, now))
      && (h !in t.tallies && h !in t.confirmed ==> h in t.rejected)
      && (h in t.tallies ==> t.tallies[h] == s.tallies[h] && (h in t.rejected <==> h in s.rejected))
  {
    var hs, t := Siblings(s, home(h)), Step(home, s, Resolve(now));
    ContestedGroup(home, s, h);
    PassConfirmsTheLeader(home, s, h, now);
    PassOnlyRejects(s, |s.order|, now);
    var w := OnlyLeaderWins(home, s, h, now);
    if h != w && h !in t.tallies { PassConfirmsTheLeader(home, s, w, now); }
    if h in t.tallies { UnsettledStays(home, s, h, now); }
  }

  /** The one block of the group that can win, and when it does. */
  lemma OnlyLeaderWins(home: BlockHash -> Parent, s: Ballots, h: BlockHash, now: int) returns (w: BlockHash)
    requires Ok(home, s) && h in s.tallies
    ensures
      var hs := Siblings(s, home(h));
      && AllTallied(s.tallies, hs) && hs != [] && w in hs && w == hs[Leader(s.tallies, hs)] && home(w) == home(h)
      && (Wins(s, hs, w, now) <==> Decided(s.tallies, hs, now))
      && forall g :: g in hs && Wins(s, hs, g, now) ==> g == w
  {
    var hs := Siblings(s, home(h));
    ContestedGroup(home, s, h);
    assert Filed(home, s, h);
    assert GroupOk(home, s, home(h));
    w := hs[Leader(s.tallies, hs)];
    FrontrunnerLeads(s, hs, w);
    DecidedMeans(home, s, h, w, now);
    forall g | g in hs && IsFrontrunner(s, hs, g) ensures g == w { FrontrunnerLeads(s, hs, g); }
  }

  lemma ThresholdMeans(t: Tally)
    requires t.totalStake == t.approveStake + t.rejectStake
    ensures ThresholdMet(t) <==> TwoThirdsApprove(t)
    ensures t.totalStake + t.abstainStake != 0 <==> VotedOn(t)
  {}

  lemma OverdueMeans(s: Ballots, hs: seq<BlockHash>, w: BlockHash, now: int)
    requires AllTallied(s.tallies, hs) && w in s.tallies
    requires forall g :: g in hs ==> s.tallies[g].totalStake == s.tallies[g].approveStake + s.tallies[g].rejectStake
    ensures OverdueFor(s, hs, w, now) <==>
      TimedOut(s.tallies, hs, now) && (s.tallies[w].approveStake > 0 || AllVoted(s.tallies, hs))
  {
    forall g | g in hs ensures s.tallies[g].totalStake + s.tallies[g].abstainStake != 0 <==> VotedOn(s.tallies[g]) {
      ThresholdMeans(s.tallies[g]);
    }
  }

  lemma DecidedMeans(home: BlockHash -> Parent, s: Ballots, h: BlockHash, w: BlockHash, now: int)
    requires Ok(home, s) && h in s.tallies
    requires var hs := Siblings(s, home(h)); hs != [] && AllTallied(s.tallies, hs) && w == hs[Leader(s.tallies, hs)]
    ensures
      var hs := Siblings(s, home(h));
      && w in s.tallies && (forall g :: g in hs ==> g in s.tallies)
      && (Decided(s.tallies, hs, now) <==> TwoThirdsApprove(s.tallies[w]) || OverdueFor(s, hs, w, now))
  {
    ContestedGroup(home, s, h);
    var hs := Siblings(s, home(h));
    forall g | g in hs ensures s.tallies[g].totalStake == s.tallies[g].approveStake + s.tallies[g].rejectStake {
      assert TallyOk(s.tallies[g], g);
    }
    ThresholdMeans(s.tallies[w]);
    OverdueMeans(s, hs, w, now);
  }

  /** A block still being voted on after a pass has the verdicts it had. */
  lemma UnsettledStays(home: BlockHash -> Parent, s: Ballots, h: BlockHash, now: int)
    requires Ok(home, s) && h in s.tallies && h in Step(home, s, Resolve(now)).tallies
    ensures h in Step(home, s, Resolve(now)).rejected <==> h in s.rejected
  {
    var p := home(h);
    assert Filed(home, s, h);
    assert Listed(s.order, p);
    var i :| 0 <= i < |s.order| && s.order[i] == p;
    GroupsAreHomed(home, s);
    PassReachesGroup(home, s, |s.order|, i, now);
    PassConfirmsTheLeader(home, s, h, now);
    var t := Step(home, s, Resolve(now));
    assert StandingOf(ResolveGroup(s, p, now), h) == StandingOf(t, h);
  }

  /** So before its timeout no block with less than two thirds of the stake that took a side is confirmed. */
  lemma NoHasteWithoutTwoThirds(home: BlockHash -> Parent, s: Ballots, h: BlockHash, now: int)
    requires Ok(home, s) && h in s.tallies
    requires 3 * s.tallies[h].approveStake < 2 * (s.tallies[h].approveStake + s.tallies[h].rejectStake)
    requires forall g :: g in Siblings(s, home(h)) && g in s.tallies ==> now - s.tallies[g].createdAt <= 10_000
    ensures h !in Step(home, s, Resolve(now)).confirmed
  {
    PassSettlesIff(home, s, h, now);
  }

  // ---------------------------------------------------------------- Which votes count

  /** On a block being voted on, by somebody who has not voted on it, under a signature not remembered, and cast within
  the last minute. */
  predicate Counts(s: Ballots, v: Vote, now: int) {
    && v.blockHash in s.tallies && v.voter !in s.tallies[v.blockHash].votes
    && v.signature !in s.seen && now - v.timestamp <= 60_000
  }

  /** A vote that counts adds its stake to its own side of its own block and to nothing else; one that does not leaves
  every tally. */
  lemma VoteCountsIff(home: BlockHash -> Parent, s: Ballots, v: Vote, now: int)
    ensures
      var t := Step(home, s, Cast(v, now));
      && t == s.(tallies := t.tallies, seen := t.seen)
      && if !Counts(s, v, now) then t.tallies == s.tallies
         else
           && t.tallies.Keys == s.tallies.Keys
           && (forall h :: h in s.tallies && h != v.blockHash ==> t.tallies[h] == s.tallies[h])
           && var before, after := s.tallies[v.blockHash], t.tallies[v.blockHash];
              && after.votes == before.votes[v.voter := v] && after.createdAt == before.createdAt
              && after.approveStake == before.approveStake + (if v.approve && !v.abstain then v.stake else 0)
              && after.rejectStake == before.rejectStake + (if !v.approve && !v.abstain then v.stake else 0)
              && after.abstainStake == before.abstainStake + (if v.abstain then v.stake else 0)
  {}

  /** Casting remembers at most the vote's own signature, last, and forgets at most the oldest, when there are more than
  fifty thousand. A stale vote uses up its signature too. */
  lemma SignaturesAreRemembered(home: BlockHash -> Parent, s: Ballots, v: Vote, now: int)
    requires |s.seen| <= 50_000
    ensures
      var t := Step(home, s, Cast(v, now));
      && |t.seen| <= 50_000
      && if v.blockHash !in s.tallies || v.voter in s.tallies[v.blockHash].votes || v.signature in s.seen
         then t.seen == s.seen
         else t.seen == (if |s.seen| == 50_000 then s.seen[1..] else s.seen) + [v.signature]
  {
    if |s.seen| == 50_000 { assert (s.seen + [v.signature])[1..] == s.seen[1..] + [v.signature]; }
  }

  /** Some step of the run cast this very vote within a minute of its timestamp. */
  ghost predicate CastInTime(acts: seq<Act>, v: Vote) {
    exists i :: 0 <= i < |acts| && acts[i].Cast? && acts[i].vote == v && acts[i].at - v.timestamp <= 60_000
  }

  /** Every recorded vote was cast, in time. */
  ghost predicate VotesWereCast(s: Ballots, acts: seq<Act>) {
    forall h, p :: h in s.tallies && p in s.tallies[h].votes ==> CastInTime(acts, s.tallies[h].votes[p])
  }

  /** Signatures of recorded votes are remembered, and no two recorded votes share one. */
  ghost predicate SignaturesDiffer(s: Ballots) {
    && (forall h, p :: h in s.tallies && p in s.tallies[h].votes ==> s.tallies[h].votes[p].signature in s.seen)
    && forall g, h, p, q :: Recorded(s, g, p) && Recorded(s, h, q) && SameSignature(s, g, p, h, q) ==> g == h && p == q
  }

  predicate Recorded(s: Ballots, h: BlockHash, p: string) {
    h in s.tallies && p in s.tallies[h].votes
  }

  predicate SameSignature(s: Ballots, g: BlockHash, p: string, h: BlockHash, q: string)
    requires Recorded(s, g, p) && Recorded(s, h, q)
  {
    s.tallies[g].votes[p].signature == s.tallies[h].votes[q].signature
  }

  /** What a step does to the recorded votes: it opens empty tallies, drops some, or records one vote that counts. */
  lemma StepRecords(home: BlockHash -> Parent, s: Ballots, act: Act, h: BlockHash, p: string)
    ensures
      var t := Step(home, s, act);
      h in t.tallies && p in t.tallies[h].votes ==>
        || (h in s.tallies && p in s.tallies[h].votes && t.tallies[h].votes[p] == s.tallies[h].votes[p])
        || (act.Cast? && Counts(s, act.vote, act.at) && h == act.vote.blockHash && p == act.vote.voter
            && t.tallies[h].votes[p] == act.vote)
  {
    match act
    case Cast(v, at) => VoteCountsIff(home, s, v, at);
    case Resolve(at) => PassOnlyRejects(s, |s.order|, at);
    case Register(block, at) =>
  }

  /** In every run a recorded vote was cast within a minute of its timestamp. */
  lemma {:induction false} RecordedVotesWereFresh(home: BlockHash -> Parent, acts: seq<Act>)
    ensures VotesWereCast(Run(home, acts), acts)
    decreases |acts|
  {
    if acts != [] {
      var n := |acts| - 1;
      var early, s := acts[..n], Run(home, acts[..n]);
      RecordedVotesWereFresh(home, early);
      var t := Run(home, acts);
      forall h, p | h in t.tallies && p in t.tallies[h].votes ensures CastInTime(acts, t.tallies[h].votes[p]) {
        StepRecords(home, s, acts[n], h, p);
        if h in s.tallies && p in s.tallies[h].votes && t.tallies[h].votes[p] == s.tallies[h].votes[p] {
          assert CastInTime(early, s.tallies[h].votes[p]);
        }
      }
    }
  }

  function Casts(acts: seq<Act>): nat {
    if acts == [] then 0 else Casts(acts[..|acts| - 1]) + if acts[|acts| - 1].Cast? then 1 else 0
  }

  lemma SeenGrowsSlowly(home: BlockHash -> Parent, s: Ballots, act: Act)
    requires |s.seen| < 50_000 || !act.Cast?
    ensures
      var t := Step(home, s, act);
      && |t.seen| <= |s.seen| + (if act.Cast? then 1 else 0) && (forall x :: x in s.seen ==> x in t.seen)
      && (act.Cast? && Counts(s, act.vote, act.at) ==> act.vote.signature in t.seen)
  {
    if act.Cast? { SignaturesAreRemembered(home, s, act.vote, act.at); }
  }

  /** As long as no more than fifty thousand votes were cast, no signature is counted twice, on one block or on two. */
  lemma {:induction false} NoSignatureCountsTwice(home: BlockHash -> Parent, acts: seq<Act>)
    requires Casts(acts) <= 50_000
    ensures SignaturesDiffer(Run(home, acts)) && |Run(home, acts).seen| <= Casts(acts)
    decreases |acts|
  {
    if acts != [] {
      var n := |acts| - 1;
      NoSignatureCountsTwice(home, acts[..n]);
      StepKeepsSignatures(home, Run(home, acts[..n]), acts[n], Run(home, acts));
    }
  }

  lemma StepKeepsSignatures(home: BlockHash -> Parent, s: Ballots, act: Act, t: Ballots)
    requires SignaturesDiffer(s) && t == Step(home, s, act) && (|s.seen| < 50_000 || !act.Cast?)
    ensures SignaturesDiffer(t) && |t.seen| <= |s.seen| + if act.Cast? then 1 else 0
  {
    SeenGrowsSlowly(home, s, act);
    forall h, p | h in t.tallies && p in t.tallies[h].votes ensures t.tallies[h].votes[p].signature in t.seen {
      StepRecords(home, s, act, h, p);
    }
    forall g, h, p, q | Recorded(t, g, p) && Recorded(t, h, q) && SameSignature(t, g, p, h, q)
      ensures g == h && p == q
    {
      StepRecords(home, s, act, g, p);
      StepRecords(home, s, act, h, q);
      assert Recorded(s, g, p) && Recorded(s, h, q) && SameSignature(s, g, p, h, q) ==> g == h && p == q;
    }
  }

  // ---------------------------------------------------------------- Registering

  /** The caller is told 'confirmed' exactly when the block is confirmed afterwards. */
  lemma AnswerIsTheState(s: Ballots, h: BlockHash, p: Parent, now: int)
    ensures AnswersConfirmed(s, h, p) <==> h in Registered(s, h, p, now).confirmed
  {
    MemberAdded(Siblings(s, p), h);
  }

  /** A block that settled nothing yet joins its parent's group once. Alone it is confirmed and nobody else moves; among
  siblings none stays confirmed and each is voted on, on a tally opened now unless it has one. */
  lemma RegistrationContests(s: Ballots, h: BlockHash, p: Parent, now: int)
    requires h !in s.confirmed && h !in s.rejected
    ensures
      var t, hs := Registered(s, h, p, now), Siblings(Registered(s, h, p, now), p);
      && t.rejected == s.rejected && t.seen == s.seen
      && t.order == (if p in s.order then s.order else s.order + [p])
      && (forall q :: q != p ==> Siblings(t, q) == Siblings(s, q))
      && hs == (if h in Siblings(s, p) then Siblings(s, p) else Siblings(s, p) + [h])
      && if |hs| == 1 then t.confirmed == s.confirmed + {h} && t.tallies == s.tallies
         else
           && (forall g :: g in t.confirmed <==> g in s.confirmed && g !in hs)
           && (forall g :: g in t.tallies <==> g in s.tallies || g in hs)
           && forall g :: g in t.tallies ==>
                t.tallies[g] == if g in s.tallies then s.tallies[g] else Tally(0, 0, 0, 0, 0, map[], now)
  {}

  // ---------------------------------------------------------------- Reporting

  predicate NoRepeats(hs: seq<BlockHash>) {
    forall i, j :: 0 <= i < j < |hs| ==> hs[i] != hs[j]
  }

  predicate FromGroups(home: BlockHash -> Parent, hs: seq<BlockHash>, groups: seq<Parent>) {
    forall i :: 0 <= i < |hs| ==> home(hs[i]) in groups
  }

  lemma NextGroupIsNew(home: BlockHash -> Parent, order: seq<Parent>, n: nat, early: seq<BlockHash>,
                       late: seq<BlockHash>)
    requires 0 < n <= |order| && FirstAt(order, n - 1) && NoRepeats(early) && NoRepeats(late)
    requires FromGroups(home, early, order[..n - 1]) && FromGroups(home, late, [order[n - 1]])
    ensures NoRepeats(early + late) && FromGroups(home, early + late, order[..n])
  {
    forall i, j | 0 <= i < |early| && 0 <= j < |late| ensures early[i] != late[j] {
      assert home(early[i]) in order[..n - 1] && home(late[j]) == order[n - 1];
    }
    forall i | 0 <= i < |early + late| ensures home((early + late)[i]) in order[..n] {
      if i < |early| {
        assert home(early[i]) in order[..n - 1];
      } else {
        assert home(late[i - |early|]) == order[n - 1] && order[..n][n - 1] == order[n - 1];
      }
    }
  }

  lemma NoRepeatsSnoc(hs: seq<BlockHash>, h: BlockHash)
    requires NoRepeats(hs) && h !in hs
    ensures NoRepeats(hs + [h])
  {}

  lemma WithoutIsInside(hs: seq<BlockHash>, winner: BlockHash, h: BlockHash)
    ensures h in Without(hs, winner) <==> h in hs && h != winner
  {
    WithoutLosesOne(hs, winner);
    assert h in Without(hs, winner) <==> h in Members(Without(hs, winner));
  }

  lemma {:induction false} WithoutNoRepeats(hs: seq<BlockHash>, winner: BlockHash)
    requires NoRepeats(hs)
    ensures NoRepeats(Without(hs, winner))
    decreases |hs|
  {
    if hs != [] {
      var n := |hs| - 1;
      WithoutNoRepeats(hs[..n], winner);
      WithoutIsInside(hs[..n], winner, hs[n]);
      assert hs[n] !in hs[..n];
      if hs[n] != winner {
        NoRepeatsSnoc(Without(hs[..n], winner), hs[n]);
      } else {
        assert Without(hs, winner) == Without(hs[..n], winner);
      }
    }
  }

  lemma GroupReports(home: BlockHash -> Parent, hs: seq<BlockHash>, w: BlockHash, p: Parent)
    requires NoRepeats(hs) && w in hs && forall h :: h in hs ==> home(h) == p
    ensures NoRepeats([w]) && NoRepeats(Without(hs, w))
    ensures FromGroups(home, [w], [p]) && FromGroups(home, Without(hs, w), [p])
  {
    WithoutNoRepeats(hs, w);
    forall i | 0 <= i < |Without(hs, w)| ensures home(Without(hs, w)[i]) in [p] {
      WithoutIsInside(hs, w, Without(hs, w)[i]);
    }
  }

  ghost predicate ReportedOnce(home: BlockHash -> Parent, hs: seq<BlockHash>, groups: seq<Parent>) {
    NoRepeats(hs) && FromGroups(home, hs, groups)
  }

  /** A pass reports no block twice, neither as confirmed nor as rejected, and only blocks of the groups it reached. */
  lemma {:induction false} NothingIsReportedTwice(home: BlockHash -> Parent, s: Ballots, n: nat, now: int)
    requires OrderOk(s.order, s.groups) && GroupsOk(home, s) && n <= |s.order|
    ensures ReportedOnce(home, Winners(s, n, now), s.order[..n]) && ReportedOnce(home, Losers(s, n, now), s.order[..n])
    decreases n
  {
    if n > 0 {
      NothingIsReportedTwice(home, s, n - 1, now);
      ReportExtends(s, n, now);
      var w := GroupWinner(s, n, now);
      GroupIsOk(home, s, n);
      NextReport(home, s, n, w, Winners(s, n - 1, now), Losers(s, n - 1, now));
    }
  }

  lemma GroupIsOk(home: BlockHash -> Parent, s: Ballots, n: nat)
    requires OrderOk(s.order, s.groups) && GroupsOk(home, s) && 0 < n <= |s.order|
    ensures FirstAt(s.order, n - 1) && GroupOk(home, s, s.order[n - 1])
  {
    assert FirstAt(s.order, n - 1);
    assert Listed(s.order, s.order[n - 1]);
  }

  /** The winner the pass finds in its n-th group, if that group is decided. */
  ghost function GroupWinner(s: Ballots, n: nat, now: int): (w: Prelude.Option<BlockHash>)
    requires 0 < n <= |s.order|
    ensures w.Some? ==> w.value in Siblings(s, s.order[n - 1])
  {
    var mid, hs := Resolved(s, n - 1, now), Siblings(s, s.order[n - 1]);
    if Decided(mid.tallies, hs, now) then Prelude.Some(hs[Leader(mid.tallies, hs)]) else Prelude.None
  }

  lemma ReportExtends(s: Ballots, n: nat, now: int)
    requires 0 < n <= |s.order|
    ensures
      var hs, w := Siblings(s, s.order[n - 1]), GroupWinner(s, n, now);
      && Winners(s, n, now) == Winners(s, n - 1, now) + (if w.Some? then [w.value] else [])
      && Losers(s, n, now) == Losers(s, n - 1, now) + if w.Some? then Without(hs, w.value) else []
  {}

  lemma NextReport(home: BlockHash -> Parent, s: Ballots, n: nat, w: Prelude.Option<BlockHash>, winners: seq<BlockHash>,
                   losers: seq<BlockHash>)
    requires 0 < n <= |s.order| && FirstAt(s.order, n - 1) && GroupOk(home, s, s.order[n - 1])
    requires w.Some? ==> w.value in Siblings(s, s.order[n - 1])
    requires ReportedOnce(home, winners, s.order[..n - 1]) && ReportedOnce(home, losers, s.order[..n - 1])
    ensures
      var hs := Siblings(s, s.order[n - 1]);
      && ReportedOnce(home, winners + (if w.Some? then [w.value] else []), s.order[..n])
      && ReportedOnce(home, losers + (if w.Some? then Without(hs, w.value) else []), s.order[..n])
  {
    var hs := Siblings(s, s.order[n - 1]);
    if w.Some? {
      GroupReports(home, hs, w.value, s.order[n - 1]);
      NextGroupIsNew(home, s.order, n, winners, [w.value]);
      NextGroupIsNew(home, s.order, n, losers, Without(hs, w.value));
    } else {
      NextGroupIsNew(home, s.order, n, winners, []);
      NextGroupIsNew(home, s.order, n, losers, []);
    }
  }
}
