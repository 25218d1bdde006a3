/** Per-shard committee sortition: the validators with the lowest tickets.

A validator's ticket is a hash of (seed, epoch, shard, id); here it is any function of the id, for one fixed
(seed, epoch, shard). Weights are real numbers.
 */
module Committee {
  import opened Prelude

  type Id = string

  /** The registry's list, its weights, and the tickets of this (seed, epoch, shard). */
  datatype Registry = Registry(validators: seq<Id>, weightOf: Id -> real, ticket: Id -> int)

  datatype Options = Options(committeeSize: nat, minCommitteeSize: nat, minAggregateWeight: Option<real>)

  datatype Reason =
    | TooFewValidators(eligible: nat, minimum: nat)
    | SmallerThanMinimum
    | InsufficientSeniority(total: real, floor: real)

  datatype Selection = Selection(members: seq<Id>, totalWeight: real, weights: seq<real>, reason: Option<Reason>) {
    predicate Safe() { reason.None? }
  }

  // ---------------------------------------------------------------- Selecting

  /** Stable insertion: after everything with a ticket no higher. */
  function Inserted(ranked: seq<Id>, id: Id, ticket: Id -> int): seq<Id> {
    if ranked == [] || ticket(ranked[|ranked| - 1]) <= ticket(id) then ranked + [id]
    else Inserted(ranked[..|ranked| - 1], id, ticket) + [ranked[|ranked| - 1]]
  }

  /** The stable sort by ticket. */
  function Ranked(ids: seq<Id>, ticket: Id -> int): seq<Id> {
    if ids == [] then [] else Inserted(Ranked(ids[..|ids| - 1], ticket), ids[|ids| - 1], ticket)
  }

  function Taken<T>(s: seq<T>, n: nat): seq<T> {
    if n <= |s| then s[..n] else s
  }

  function WeightsOf(ids: seq<Id>, weightOf: Id -> real): seq<real> {
    seq(|ids|, i requires 0 <= i < |ids| => weightOf(ids[i]))
  }

  function Total(weights: seq<real>): real {
    if weights == [] then 0.0 else Total(weights[..|weights| - 1]) + weights[|weights| - 1]
  }

  /** `selectCommittee`. */
  function SelectCommittee(registry: Registry, opts: Options): Selection {
    var eligible := registry.validators;
    if |eligible| < opts.minCommitteeSize then
      Selection([], 0.0, [], Some(TooFewValidators(|eligible|, opts.minCommitteeSize)))
    else
      var members := Taken(Ranked(eligible, registry.ticket), opts.committeeSize);
      var weights := WeightsOf(members, registry.weightOf);
      var total := Total(weights);
      var reason :=
        if |members| < opts.minCommitteeSize then Some(SmallerThanMinimum)
        else if opts.minAggregateWeight.Some? && total < opts.minAggregateWeight.value then
          Some(InsufficientSeniority(total, opts.minAggregateWeight.value))
        else None;
      Selection(members, total, weights, reason)
  }

  lemma {:induction false} TotalAdds(left: seq<real>, right: seq<real>)
    ensures Total(left + right) == Total(left) + Total(right)
    decreases |right|
  {
    if right == [] {
      assert left + right == left;
    } else {
      var n := |right| - 1;
      assert (left + right)[..|left| + n] == left + right[..n];
      TotalAdds(left, right[..n]);
    }
  }

  /** A total is a sum: of no weights nothing, of one the weight, of two lists together what each has. */
  lemma TotalIsSum(left: seq<real>, right: seq<real>, weight: real)
    ensures Total([]) == 0.0 && Total([weight]) == weight && Total(left + right) == Total(left) + Total(right)
  {
    TotalAdds(left, right);
    assert [weight][..0] == [];
  }

  /** A selection reports each member's own weight and their total, and a reason with the numbers it compared. */
  lemma SelectionReports(registry: Registry, opts: Options)
    ensures
      var s := SelectCommittee(registry, opts);
      && |s.weights| == |s.members|
      && (forall i :: 0 <= i < |s.members| ==> s.weights[i] == registry.weightOf(s.members[i]))
      && s.totalWeight == Total(s.weights)
      && (match s.reason
          case Some(TooFewValidators(eligible, minimum)) =>
            eligible == |registry.validators| && minimum == opts.minCommitteeSize && eligible < minimum
          case Some(SmallerThanMinimum) => |s.members| < opts.minCommitteeSize <= |registry.validators|
          case Some(InsufficientSeniority(total, floor)) =>
            total == s.totalWeight < floor && opts.minAggregateWeight == Some(floor)
          case None => true)
  {}

  // ---------------------------------------------------------------- What a ranking is

  predicate Distinct(ids: seq<Id>, ticket: Id -> int) {
    forall i, j :: 0 <= i < j < |ids| ==> ids[i] != ids[j] && ticket(ids[i]) != ticket(ids[j])
  }

  predicate Ascending(ids: seq<Id>, ticket: Id -> int) {
    forall i, j :: 0 <= i < j < |ids| ==> ticket(ids[i]) < ticket(ids[j])
  }

  function Members(ids: seq<Id>): set<Id> {
    set id | id in ids
  }

  /** The validators that beat a ticket. */
  function Below(pool: set<Id>, bound: int, ticket: Id -> int): set<Id> {
    set id | id in pool && ticket(id) < bound
  }

  /** How many validators of the pool hold a lower ticket. */
  function Rank(pool: set<Id>, id: Id, ticket: Id -> int): nat {
    |Below(pool, ticket(id), ticket)|
  }

  lemma {:induction false} InsertedAdds(ranked: seq<Id>, id: Id, ticket: Id -> int)
    ensures multiset(Inserted(ranked, id, ticket)) == multiset(ranked) + multiset{id}
    decreases |ranked|
  {
    if ranked != [] && ticket(ranked[|ranked| - 1]) > ticket(id) {
      var n := |ranked| - 1;
      InsertedAdds(ranked[..n], id, ticket);
      assert ranked == ranked[..n] + [ranked[n]];
    }
  }

  lemma {:induction false} InsertedIsAscending(ranked: seq<Id>, id: Id, ticket: Id -> int)
    requires Ascending(ranked, ticket) && forall i :: 0 <= i < |ranked| ==> ticket(ranked[i]) != ticket(id)
    ensures Ascending(Inserted(ranked, id, ticket), ticket)
    decreases |ranked|
  {
    if ranked != [] && ticket(ranked[|ranked| - 1]) > ticket(id) {
      var n := |ranked| - 1;
      InsertedIsAscending(ranked[..n], id, ticket);
      var shorter := Inserted(ranked[..n], id, ticket);
      forall i | 0 <= i < |shorter| ensures ticket(shorter[i]) < ticket(ranked[n]) {
        OldOrInserted(ranked[..n], id, ticket, shorter[i]);
        if shorter[i] != id {
          var j :| 0 <= j < n && ranked[..n][j] == shorter[i];
          assert ranked[j] == shorter[i];
        }
      }
      AscendingSnoc(shorter, ranked[n], ticket);
    } else {
      AscendingSnoc(ranked, id, ticket);
    }
  }

  lemma OldOrInserted(ranked: seq<Id>, id: Id, ticket: Id -> int, x: Id)
    requires x in Inserted(ranked, id, ticket)
    ensures x == id || x in ranked
  {
    InsertedAdds(ranked, id, ticket);
    assert x in multiset(Inserted(ranked, id, ticket));
  }

  lemma AscendingSnoc(ids: seq<Id>, last: Id, ticket: Id -> int)
    requires Ascending(ids, ticket) && (ids != [] ==> ticket(ids[|ids| - 1]) < ticket(last))
    ensures Ascending(ids + [last], ticket)
  {
    forall i | 0 <= i < |ids| ensures ticket(ids[i]) < ticket(last) {
      if i < |ids| - 1 { assert ticket(ids[i]) < ticket(ids[|ids| - 1]); }
    }
  }

  /** Ranking sorts: the same validators, in strictly ascending ticket order. */
  lemma {:induction false} RankedSorts(ids: seq<Id>, ticket: Id -> int)
    requires Distinct(ids, ticket)
    ensures Ascending(Ranked(ids, ticket), ticket)
    ensures multiset(Ranked(ids, ticket)) == multiset(ids)
    decreases |ids|
  {
    if ids != [] {
      var n := |ids| - 1;
      RankedSorts(ids[..n], ticket);
      var ranked := Ranked(ids[..n], ticket);
      assert ids == ids[..n] + [ids[n]];
      forall i | 0 <= i < |ranked| ensures ticket(ranked[i]) != ticket(ids[n]) {
        assert ranked[i] in multiset(ids[..n]);
        var j :| 0 <= j < n && ids[j] == ranked[i];
      }
      InsertedIsAscending(ranked, ids[n], ticket);
      InsertedAdds(ranked, ids[n], ticket);
    }
  }

  lemma {:induction false} MembersCount(ids: seq<Id>, ticket: Id -> int)
    requires Ascending(ids, ticket)
    ensures |Members(ids)| == |ids|
    decreases |ids|
  {
    if ids != [] {
      var n := |ids| - 1;
      MembersCount(ids[..n], ticket);
      assert Members(ids) == Members(ids[..n]) + {ids[n]};
    }
  }

  /** In an ascending arrangement of the pool, position is rank. */
  lemma PositionIsRank(pool: set<Id>, ids: seq<Id>, i: nat, ticket: Id -> int)
    requires Ascending(ids, ticket) && Members(ids) == pool && i < |ids|
    ensures Rank(pool, ids[i], ticket) == i
  {
    assert Below(pool, ticket(ids[i]), ticket) == Members(ids[..i]) by {
      forall id ensures id in Below(pool, ticket(ids[i]), ticket) <==> id in Members(ids[..i]) {
        if id in Below(pool, ticket(ids[i]), ticket) {
          var j :| 0 <= j < |ids| && ids[j] == id;
          assert j < i;
        }
        if id in Members(ids[..i]) {
          var j :| 0 <= j < i && ids[..i][j] == id;
          assert ids[j] == id && id in ids;
        }
      }
    }
    MembersCount(ids[..i], ticket);
  }

  // ---------------------------------------------------------------- The committee

  /** The committee is ordered by rank and holds exactly the validators ranked below its size. */
  ghost predicate LowestTickets(pool: set<Id>, members: seq<Id>, size: nat, ticket: Id -> int) {
    && |members| == (if size <= |pool| then size else |pool|)
    && (forall i :: 0 <= i < |members| ==> members[i] in pool && Rank(pool, members[i], ticket) == i)
    && (forall id :: id in pool && Rank(pool, id, ticket) < size ==> id in members)
  }

  /** A ranking of the pool puts every validator at its rank. */
  lemma RankedByRank(ids: seq<Id>, ticket: Id -> int)
    requires Distinct(ids, ticket)
    ensures
      var pool, ranked := Members(ids), Ranked(ids, ticket);
      && |ranked| == |ids| == |pool| && Members(ranked) == pool
      && forall i :: 0 <= i < |ranked| ==> Rank(pool, ranked[i], ticket) == i
  {
    var pool, ranked := Members(ids), Ranked(ids, ticket);
    RankedSorts(ids, ticket);
    assert Members(ranked) == pool by {
      forall id ensures id in ranked <==> id in ids { assert id in multiset(ranked) <==> id in multiset(ids); }
    }
    assert |ranked| == |multiset(ranked)| == |multiset(ids)| == |ids|;
    MembersCount(ranked, ticket);
    forall i | 0 <= i < |ranked| ensures Rank(pool, ranked[i], ticket) == i {
      PositionIsRank(pool, ranked, i, ticket);
    }
  }

  /** The head of a ranking is the committee of that size. */
  lemma HeadOfRanking(pool: set<Id>, ranked: seq<Id>, size: nat, ticket: Id -> int)
    requires |ranked| == |pool| && Members(ranked) == pool
    requires forall i :: 0 <= i < |ranked| ==> Rank(pool, ranked[i], ticket) == i
    ensures LowestTickets(pool, Taken(ranked, size), size, ticket)
  {
    var members := Taken(ranked, size);
    forall i | 0 <= i < |members| ensures members[i] in pool && Rank(pool, members[i], ticket) == i {
      assert members[i] == ranked[i] && ranked[i] in ranked;
    }
    forall id | id in pool && Rank(pool, id, ticket) < size ensures id in members {
      assert id in ranked;
      var j :| 0 <= j < |ranked| && ranked[j] == id;
      assert members[j] == id;
    }
  }

  lemma SelectsLowestTickets(registry: Registry, opts: Options)
    requires Distinct(registry.validators, registry.ticket) && |registry.validators| >= opts.minCommitteeSize
    ensures LowestTickets(Members(registry.validators),
      SelectCommittee(registry, opts).members, opts.committeeSize, registry.ticket)
    ensures |Members(registry.validators)| == |registry.validators|
  {
    RankedByRank(registry.validators, registry.ticket);
    HeadOfRanking(Members(registry.validators), Ranked(registry.validators, registry.ticket), opts.committeeSize,
                  registry.ticket);
  }

  /** Different validators of a pool with distinct tickets have different ranks. */
  lemma RanksDiffer(pool: set<Id>, a: Id, b: Id, ticket: Id -> int)
    requires a in pool && b in pool && ticket(a) < ticket(b)
    ensures Rank(pool, a, ticket) < Rank(pool, b, ticket)
  {
    var low, high := Below(pool, ticket(a), ticket), Below(pool, ticket(b), ticket);
    assert low + {a} <= high && a !in low;
    Larger(low + {a}, high);
  }

  lemma Larger(a: set<Id>, b: set<Id>)
    requires a <= b
    ensures |a| <= |b|
  {
    assert b == a + (b - a);
  }

  /** A pool has one committee of each size. */
  lemma LowestTicketsUnique(pool: set<Id>, a: seq<Id>, b: seq<Id>, size: nat, ticket: Id -> int)
    requires LowestTickets(pool, a, size, ticket) && LowestTickets(pool, b, size, ticket)
    requires forall x, y :: x in pool && y in pool && x != y ==> ticket(x) != ticket(y)
    ensures a == b
  {
    forall i | 0 <= i < |a| ensures a[i] == b[i] {
      if ticket(a[i]) < ticket(b[i]) { RanksDiffer(pool, a[i], b[i], ticket); }
      if ticket(b[i]) < ticket(a[i]) { RanksDiffer(pool, b[i], a[i], ticket); }
    }
  }

  lemma PoolTicketsDiffer(ids: seq<Id>, ticket: Id -> int)
    requires Distinct(ids, ticket)
    ensures forall x, y :: x in Members(ids) && y in Members(ids) && x != y ==> ticket(x) != ticket(y)
  {}

  /** The committee, its weights and its safety do not depend on the order in which the registry lists the
  validators. */
  lemma OrderIsIrrelevant(a: Registry, b: Registry, opts: Options)
    requires Distinct(a.validators, a.ticket) && Distinct(b.validators, b.ticket)
    requires Members(a.validators) == Members(b.validators) && a.ticket == b.ticket && a.weightOf == b.weightOf
    ensures SelectCommittee(a, opts) == SelectCommittee(b, opts)
  {
    var any := opts.(minCommitteeSize := 0);
    SelectsLowestTickets(a, any);
    SelectsLowestTickets(b, any);
    if |a.validators| >= opts.minCommitteeSize {
      SelectsLowestTickets(a, opts);
      SelectsLowestTickets(b, opts);
      PoolTicketsDiffer(a.validators, a.ticket);
      LowestTicketsUnique(Members(a.validators), SelectCommittee(a, opts).members, SelectCommittee(b, opts).members,
                          opts.committeeSize, a.ticket);
    }
  }

  /** A smaller committee is the head of a larger one. */
  lemma SmallerIsPrefix(registry: Registry, small: Options, large: Options)
    requires small.committeeSize <= large.committeeSize
    requires |registry.validators| >= small.minCommitteeSize && |registry.validators| >= large.minCommitteeSize
    ensures SelectCommittee(registry, small).members <= SelectCommittee(registry, large).members
  {}

  /** A newcomer raises by one the rank of exactly the validators whose ticket is above its own. */
  lemma RankAfterJoining(pool: set<Id>, newcomer: Id, id: Id, ticket: Id -> int)
    requires newcomer !in pool && id in pool && ticket(id) != ticket(newcomer)
    ensures Rank(pool + {newcomer}, id, ticket) ==
      Rank(pool, id, ticket) + if ticket(newcomer) < ticket(id) then 1 else 0
  {
    var before, after := Below(pool, ticket(id), ticket), Below(pool + {newcomer}, ticket(id), ticket);
    if ticket(newcomer) < ticket(id) { assert after == before + {newcomer}; } else { assert after == before; }
  }

  /** Membership is a matter of rank. */
  lemma InCommittee(pool: set<Id>, members: seq<Id>, size: nat, ticket: Id -> int, id: Id)
    requires LowestTickets(pool, members, size, ticket) && id in pool
    ensures id in members <==> Rank(pool, id, ticket) < size
  {
    if id in members {
      var i :| 0 <= i < |members| && members[i] == id;
    }
  }

  /** A member that no longer ranks inside the committee held its last seat, and the newcomer got in. */
  lemma EvictedHeldLastSeat(pool: set<Id>, newcomer: Id, members: seq<Id>, size: nat, ticket: Id -> int, id: Id)
    requires LowestTickets(pool, members, size, ticket) && newcomer !in pool
    requires forall x :: x in pool ==> ticket(x) != ticket(newcomer)
    requires id in members && Rank(pool + {newcomer}, id, ticket) >= size
    ensures id in pool && Rank(pool + {newcomer}, newcomer, ticket) < size
    ensures |members| == size && id == members[size - 1]
  {
    var i :| 0 <= i < |members| && members[i] == id;
    RankAfterJoining(pool, newcomer, id, ticket);
    assert Rank(pool, id, ticket) == size - 1;
    RanksDiffer(pool + {newcomer}, newcomer, id, ticket);
  }

  /** When the newcomer gets into a full committee, the last seat falls outside. */
  lemma LastSeatIsLost(pool: set<Id>, newcomer: Id, members: seq<Id>, size: nat, ticket: Id -> int)
    requires LowestTickets(pool, members, size, ticket) && newcomer !in pool
    requires forall x :: x in pool ==> ticket(x) != ticket(newcomer)
    requires |members| == size > 0 && Rank(pool + {newcomer}, newcomer, ticket) < size
    ensures Rank(pool + {newcomer}, members[size - 1], ticket) >= size
  {
    var last := members[size - 1];
    RankAfterJoining(pool, newcomer, last, ticket);
    assert Rank(pool, last, ticket) == size - 1;
    if ticket(last) < ticket(newcomer) { RanksDiffer(pool + {newcomer}, last, newcomer, ticket); }
  }

  /** When one validator joins, nobody else is admitted, and only the holder of the last seat can lose it, which
  happens exactly when the newcomer gets in and the committee was full. */
  lemma ChurnIsBounded(before: Registry, after: Registry, newcomer: Id, opts: Options)
    requires Distinct(after.validators, after.ticket) && Distinct(before.validators, before.ticket)
    requires newcomer !in before.validators && Members(after.validators) == Members(before.validators) + {newcomer}
    requires before.ticket == after.ticket && |before.validators| >= opts.minCommitteeSize
    ensures
      var old', new' := SelectCommittee(before, opts).members, SelectCommittee(after, opts).members;
      && (forall id :: id in new' ==> id in old' || id == newcomer)
      && (forall id :: id in old' && id !in new' ==>
            newcomer in new' && |old'| == opts.committeeSize && id == old'[|old'| - 1])
      && (newcomer in new' && |old'| == opts.committeeSize ==> old'[|old'| - 1] !in new')
  {
    var ticket, k := before.ticket, opts.committeeSize;
    var pool := Members(before.validators);
    var grown := pool + {newcomer};
    SelectsLowestTickets(before, opts);
    SelectsLowestTickets(after, opts.(minCommitteeSize := 0));
    assert |grown| == |pool| + 1;
    var old', new' := SelectCommittee(before, opts).members, SelectCommittee(after, opts).members;
    assert LowestTickets(grown, new', k, ticket);
    PoolTicketsDiffer(after.validators, ticket);
    assert forall x :: x in pool ==> x in Members(after.validators) && newcomer in Members(after.validators);
    assert newcomer in grown;
    InCommittee(grown, new', k, ticket, newcomer);
    forall id | id in new' ensures id in old' || id == newcomer {
      if id != newcomer { NobodyElseAdmitted(pool, newcomer, old', new', k, ticket, id); }
    }
    forall id | id in old' && id !in new' ensures newcomer in new' && |old'| == k && id == old'[|old'| - 1] {
      InCommittee(grown, new', k, ticket, id);
      EvictedHeldLastSeat(pool, newcomer, old', k, ticket, id);
    }
    if newcomer in new' && |old'| == k {
      LastSeatIsLost(pool, newcomer, old', k, ticket);
      InCommittee(grown, new', k, ticket, old'[k - 1]);
    }
  }

  lemma NobodyElseAdmitted(pool: set<Id>, newcomer: Id, old': seq<Id>, new': seq<Id>, size: nat,
                           ticket: Id -> int, id: Id)
    requires LowestTickets(pool, old', size, ticket) && LowestTickets(pool + {newcomer}, new', size, ticket)
    requires newcomer !in pool && forall x :: x in pool ==> ticket(x) != ticket(newcomer)
    requires id in new' && id != newcomer
    ensures id in old'
  {
    assert id in pool + {newcomer};
    InCommittee(pool + {newcomer}, new', size, ticket, id);
    RankAfterJoining(pool, newcomer, id, ticket);
    InCommittee(pool, old', size, ticket, id);
  }

  /** Ranking drops nobody, whatever the tickets. */
  lemma {:induction false} RankedLength(ids: seq<Id>, ticket: Id -> int)
    ensures multiset(Ranked(ids, ticket)) == multiset(ids)
    decreases |ids|
  {
    if ids != [] {
      var n := |ids| - 1;
      RankedLength(ids[..n], ticket);
      InsertedAdds(Ranked(ids[..n], ticket), ids[n], ticket);
      assert ids == ids[..n] + [ids[n]];
    }
  }

  /** A committee is safe exactly when the pool and the target size reach the minimum and, if a floor is set, the
  members' summed weight reaches it; an unsafe one for lack of validators has no members. */
  lemma SafeIff(registry: Registry, opts: Options)
    ensures
      var s := SelectCommittee(registry, opts);
      && (s.Safe() <==>
            && |registry.validators| >= opts.minCommitteeSize && opts.committeeSize >= opts.minCommitteeSize
            && (opts.minAggregateWeight.Some? ==>
                  Total(WeightsOf(s.members, registry.weightOf)) >= opts.minAggregateWeight.value))
      && (|registry.validators| < opts.minCommitteeSize ==> s.members == [])
  {
    RankedLength(registry.validators, registry.ticket);
    assert |Ranked(registry.validators, registry.ticket)| == |multiset(registry.validators)| == |registry.validators|;
  }
}
