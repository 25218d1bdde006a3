/** Relays following each other's reset generation.

A follower polls its configured peers; an answer carries the peer's generation when it was given and may arrive
any time later, after the asker moved on, or never. An arriving higher generation is adopted with a full wipe.
 */
module Generation {
  import opened Prelude
  import opened FiniteSums
  import ForkIndex
  import ReleaseGate

  type Peers = map<string, set<string>>

  datatype Report = Report(asker: string, generation: nat)

  datatype Network = Network(generations: map<string, nat>, reports: set<Report>)

  datatype Act =
    | Answer(peer: string, asker: string)
    | Arrive(report: Report)
    | Lose(report: Report)

  predicate PeersOk(peers: Peers, n: Network) {
    && peers.Keys == n.generations.Keys
    && forall r, p :: r in peers && p in peers[r] ==> p in n.generations
  }

  predicate Enabled(peers: Peers, n: Network, act: Act) {
    match act
    case Answer(peer, asker) => asker in peers && peer in peers[asker] && peer in n.generations
    case Arrive(report) => report in n.reports && report.asker in n.generations
    case Lose(report) => report in n.reports
  }

  /** The arriving report is ahead of its asker. */
  predicate Adopts(n: Network, act: Act) {
    act.Arrive? && act.report.asker in n.generations && act.report.generation > n.generations[act.report.asker]
  }

  function Step(peers: Peers, n: Network, act: Act): Network
    requires Enabled(peers, n, act)
  {
    match act
    case Answer(peer, asker) => n.(reports := n.reports + {Report(asker, n.generations[peer])})
    case Arrive(report) =>
      // The same number may have been answered twice, so a delivered report can stay in flight.
      if Adopts(n, act) then n.(generations := n.generations[report.asker := report.generation]) else n
    case Lose(report) => n.(reports := n.reports - {report})
  }

  ghost predicate IsRun(peers: Peers, states: seq<Network>, acts: seq<Act>) {
    && |states| == |acts| + 1
    && forall i :: 0 <= i < |acts| ==>
          Enabled(peers, states[i], acts[i]) && states[i + 1] == Step(peers, states[i], acts[i])
  }

  // ---------------------------------------------------------------- Safety

  /** No relay and no report is ahead of `top`. */
  predicate Bounded(n: Network, top: nat) {
    && (forall r :: r in n.generations ==> n.generations[r] <= top)
    && (forall m :: m in n.reports ==> m.generation <= top)
  }

  predicate NoneLower(n: Network, m: Network) {
    m.generations.Keys == n.generations.Keys && forall r :: r in n.generations ==> n.generations[r] <= m.generations[r]
  }

  lemma StepIsSafe(peers: Peers, n: Network, act: Act, top: nat)
    requires Bounded(n, top) && Enabled(peers, n, act)
    ensures Bounded(Step(peers, n, act), top) && NoneLower(n, Step(peers, n, act))
  {}

  /** Without a new operator reset, no relay's generation ever goes down or past the initial maximum, so a relay
  that stands at the maximum stays there. */
  lemma {:induction false} RunIsSafe(peers: Peers, states: seq<Network>, acts: seq<Act>, top: nat)
    requires IsRun(peers, states, acts) && Bounded(states[0], top)
    ensures Bounded(states[|acts|], top) && NoneLower(states[0], states[|acts|])
    decreases |acts|
  {
    if acts != [] {
      var k := |acts| - 1;
      PrefixIsRun(peers, states, acts);
      RunIsSafe(peers, states[..k + 1], acts[..k], top);
      StepIsSafe(peers, states[k], acts[k], top);
    }
  }

  lemma PrefixIsRun(peers: Peers, states: seq<Network>, acts: seq<Act>)
    requires IsRun(peers, states, acts) && acts != []
    ensures IsRun(peers, states[..|acts|], acts[..|acts| - 1])
  {}

  /** A lost report no longer arrives, until its peer answers with that generation again; losing changes nothing
  else. */
  lemma LostReportsDoNotArrive(peers: Peers, n: Network, report: Report, act: Act)
    requires Enabled(peers, n, Lose(report)) && Enabled(peers, Step(peers, n, Lose(report)), act)
    ensures
      var lost := Step(peers, n, Lose(report));
      && lost.generations == n.generations && !Enabled(peers, lost, Arrive(report))
      && (report in Step(peers, lost, act).reports ==>
            act.Answer? && act.asker == report.asker && n.generations[act.peer] == report.generation)
  {}

  // ---------------------------------------------------------------- Progress

  function Gaps(n: Network, top: nat): map<string, int> {
    map r | r in n.generations :: top - n.generations[r]
  }

  /** How far the relays are, together, from the maximum. */
  ghost function Distance(n: Network, top: nat): int {
    Sum(Gaps(n, top))
  }

  /** Adopting brings the network strictly closer, by exactly the jump; every other step leaves the distance. */
  lemma AdoptingCloses(peers: Peers, n: Network, act: Act, top: nat)
    requires Enabled(peers, n, act)
    ensures
      var d := if Adopts(n, act) then act.report.generation - n.generations[act.report.asker] else 0;
      Distance(Step(peers, n, act), top) == Distance(n, top) - d && d >= 0 && (Adopts(n, act) <==> d > 0)
  {
    if Adopts(n, act) {
      var r := act.report.asker;
      assert Gaps(Step(peers, n, act), top) == Gaps(n, top)[r := top - act.report.generation];
      SumSet(Gaps(n, top), r, top - act.report.generation);
    } else {
      assert Gaps(Step(peers, n, act), top) == Gaps(n, top);
    }
  }

  function Adoptions(states: seq<Network>, acts: seq<Act>): nat
    requires |states| >= |acts|
  {
    if acts == [] then 0
    else Adoptions(states, acts[..|acts| - 1]) + if Adopts(states[|acts| - 1], acts[|acts| - 1]) then 1 else 0
  }

  lemma {:induction false} AdoptionsSpend(peers: Peers, states: seq<Network>, acts: seq<Act>, top: nat)
    requires IsRun(peers, states, acts)
    ensures Adoptions(states, acts) <= Distance(states[0], top) - Distance(states[|acts|], top)
    decreases |acts|
  {
    if acts != [] {
      var k := |acts| - 1;
      PrefixIsRun(peers, states, acts);
      AdoptionsSpend(peers, states[..k + 1], acts[..k], top);
      SameAdoptions(states, states[..k + 1], acts[..k]);
      AdoptingCloses(peers, states[k], acts[k], top);
    }
  }

  lemma {:induction false} SameAdoptions(states: seq<Network>, fewer: seq<Network>, acts: seq<Act>)
    requires |states| >= |acts| && |fewer| >= |acts| && forall i :: 0 <= i < |acts| ==> states[i] == fewer[i]
    ensures Adoptions(states, acts) == Adoptions(fewer, acts)
    decreases |acts|
  {
    if acts != [] { SameAdoptions(states, fewer, acts[..|acts| - 1]); }
  }

  /** However reports are delayed, lost or duplicated, a run wipes relays at most as often as the initial
  distance allows. */
  lemma WipesAreBounded(peers: Peers, states: seq<Network>, acts: seq<Act>, top: nat)
    requires IsRun(peers, states, acts) && Bounded(states[0], top)
    ensures Adoptions(states, acts) <= Distance(states[0], top)
  {
    AdoptionsSpend(peers, states, acts, top);
    RunIsSafe(peers, states, acts, top);
    SumNonNegative(Gaps(states[|acts|], top));
  }

  // ---------------------------------------------------------------- Convergence

  /** No answer a relay could get now would make it move. */
  predicate Settled(peers: Peers, n: Network) {
    forall r, p :: r in peers && p in peers[r] && r in n.generations && p in n.generations ==>
      n.generations[p] <= n.generations[r]
  }

  /** A way from one relay to another along configured peers. */
  predicate IsPath(peers: Peers, path: seq<string>) {
    path != [] && forall i :: 0 <= i < |path| - 1 ==> path[i] in peers && path[i + 1] in peers[path[i]]
  }

  ghost predicate Reaches(peers: Peers, n: Network, r: string, top: nat) {
    exists path ::
      IsPath(peers, path) && path[0] == r && path[|path| - 1] in n.generations && n.generations[path[|path| - 1]] == top
  }

  lemma {:induction false} SettledAlongPath(peers: Peers, n: Network, path: seq<string>)
    requires PeersOk(peers, n) && Settled(peers, n) && IsPath(peers, path)
    requires path[0] in n.generations && path[|path| - 1] in n.generations
    ensures n.generations[path[|path| - 1]] <= n.generations[path[0]]
    decreases |path|
  {
    if |path| > 1 {
      assert path[1] in peers[path[0]];
      SettledAlongPath(peers, n, path[1..]);
    }
  }

  lemma SettledReachesTop(peers: Peers, start: Network, n: Network, r: string, top: nat)
    requires PeersOk(peers, start) && NoneLower(start, n) && Bounded(n, top) && Settled(peers, n)
    requires r in n.generations && Reaches(peers, start, r, top)
    ensures n.generations[r] == top
  {
    var path :| IsPath(peers, path) && path[0] == r && path[|path| - 1] in start.generations
      && start.generations[path[|path| - 1]] == top;
    assert PeersOk(peers, n);
    SettledAlongPath(peers, n, path);
  }

  /** In any later state of a network where every relay could reach one at the initial maximum: the relays have
  all converged to that maximum exactly when no answer would move any of them. */
  lemma ConvergedIffSettled(peers: Peers, states: seq<Network>, acts: seq<Act>, top: nat)
    requires IsRun(peers, states, acts) && Bounded(states[0], top) && PeersOk(peers, states[0])
    requires forall r :: r in states[0].generations ==> Reaches(peers, states[0], r, top)
    ensures
      var n := states[|acts|];
      Settled(peers, n) <==> forall r :: r in n.generations ==> n.generations[r] == top
  {
    RunIsSafe(peers, states, acts, top);
    var start, n := states[0], states[|acts|];
    if Settled(peers, n) {
      forall r | r in n.generations ensures n.generations[r] == top {
        SettledReachesTop(peers, start, n, r, top);
      }
    }
  }

  /** So while some relay lags, a poll that is answered and arrives makes some relay adopt. */
  lemma LaggardCanAdopt(peers: Peers, n: Network) returns (asker: string, peer: string)
    requires PeersOk(peers, n) && !Settled(peers, n)
    ensures Enabled(peers, n, Answer(peer, asker))
    ensures
      var asked := Step(peers, n, Answer(peer, asker));
      var arrival := Arrive(Report(asker, n.generations[peer]));
      Enabled(peers, asked, arrival) && Adopts(asked, arrival)
  {
    asker, peer :| asker in peers && peer in peers[asker] && asker in n.generations && peer in n.generations
      && n.generations[peer] > n.generations[asker];
  }

  // ---------------------------------------------------------------- One relay

  /** What one tick adopts: the first answer ahead of the relay. None stands for an unreachable peer. */
  function FirstAhead(current: nat, answers: seq<Option<nat>>): Option<nat> {
    if answers == [] then None
    else if answers[0].Some? && answers[0].value > current then answers[0]
    else FirstAhead(current, answers[1..])
  }

  predicate Behind(current: nat, answer: Option<nat>) {
    answer.Some? ==> answer.value <= current
  }

  /** The first answer that is ahead decides, and nothing is adopted when none is. */
  lemma {:induction false} FirstAheadIs(current: nat, answers: seq<Option<nat>>, i: nat)
    requires i <= |answers| && forall j :: 0 <= j < i ==> Behind(current, answers[j])
    ensures i == |answers| ==> FirstAhead(current, answers) == None
    ensures i < |answers| && !Behind(current, answers[i]) ==> FirstAhead(current, answers) == answers[i]
    decreases i
  {
    if i > 0 { FirstAheadIs(current, answers[1..], i - 1); }
  }

  /** An enrolled face: the nullifier stays with the human, the slot count belongs to the generation. */
  datatype Face = Face(nid: string, network: string, slots: nat)

  /** Everything else a wipe empties, by key: key-blobs, names, directory entries, files, provisional holds. */
  datatype Stores = Stores(
    keyBlobs: map<string, string>,
    usernames: map<string, string>,
    accounts: map<string, string>,
    files: map<string, string>,
    pendingFaces: map<string, string>,
    operators: seq<string>)

  const NO_STORES: Stores := Stores(map[], map[], map[], map[], map[], [])

  /** The same humans under the same nullifiers, every slot free again. */
  predicate SlotsFreed(faces: seq<Face>, before: seq<Face>) {
    && |faces| == |before|
    && forall i :: 0 <= i < |faces| ==>
      faces[i].nid == before[i].nid && faces[i].network == before[i].network && faces[i].slots == 0
  }

  class Relay {
    const archive: ForkIndex.EngineArchive
    const shares: ReleaseGate.RecoveryShareStore
    var faces: seq<Face>
    var stores: Stores
    var currentGeneration: nat

    constructor (archive: ForkIndex.EngineArchive, shares: ReleaseGate.RecoveryShareStore, faces: seq<Face>,
                 stores: Stores, generation: nat)
      ensures this.archive == archive && this.shares == shares
      ensures this.faces == faces && this.stores == stores && currentGeneration == generation
    {
      this.archive, this.shares, this.faces, this.stores, currentGeneration :=
        archive, shares, faces, stores, generation;
    }

    /** `performNetworkWipe`: everything derived from accounts goes, the humans keep their nullifiers. */
    method PerformNetworkWipe(generation: nat)
      modifies this, archive, shares
      ensures currentGeneration == generation && stores == NO_STORES && SlotsFreed(faces, old(faces))
      ensures archive.View() == ForkIndex.Step(old(archive.View()), ForkIndex.Wipe)
      ensures shares.records == map[]
    {
      archive.WipeArchive();
      shares.WipeShares();
      stores := NO_STORES;
      for i := 0 to |faces|
        invariant |faces| == |old(faces)|
        invariant SlotsFreed(faces[..i], old(faces)[..i]) && faces[i..] == old(faces)[i..]
        invariant archive.View() == ForkIndex.Step(old(archive.View()), ForkIndex.Wipe)
        invariant shares.records == map[] && stores == NO_STORES
      {
        faces := faces[i := faces[i].(slots := 0)];
      }
      currentGeneration := generation;
    }

    /** One tick of the follower: at most one wipe, at the first peer found ahead. */
    method FollowerTick(answers: seq<Option<nat>>) returns (wiped: bool)
      modifies this, archive, shares
      ensures wiped == FirstAhead(old(currentGeneration), answers).Some?
      ensures wiped ==>
        && currentGeneration == FirstAhead(old(currentGeneration), answers).value
        && stores == NO_STORES && SlotsFreed(faces, old(faces))
        && archive.View() == ForkIndex.Step(old(archive.View()), ForkIndex.Wipe) && shares.records == map[]
      ensures !wiped ==>
        && currentGeneration == old(currentGeneration) && stores == old(stores) && faces == old(faces)
        && archive.View() == old(archive.View()) && shares.records == old(shares.records)
    {
      wiped := false;
      for i := 0 to |answers|
        invariant !wiped && currentGeneration == old(currentGeneration)
        invariant stores == old(stores) && faces == old(faces)
        invariant archive.View() == old(archive.View()) && shares.records == old(shares.records)
        invariant forall j :: 0 <= j < i ==> Behind(currentGeneration, answers[j])
      {
        FirstAheadIs(currentGeneration, answers, i);
        if answers[i].None? { continue; }
        if answers[i].value > currentGeneration {
          PerformNetworkWipe(answers[i].value);
          wiped := true;
          return;
        }
      }
      FirstAheadIs(currentGeneration, answers, |answers|);
    }
  }
}
