/** The relay's block archive and its height index.

Two different stored blocks of one account at one height are a double spend; the index notices the second one
and publishes the pair, once per height. Decoding and signature checks are the caller's verdict `valid`.
 */
module ForkIndex {
  import opened Prelude

  datatype Row = Row(hash: string, accountId: string, index: int, shard: int, network: string, blockHex: string)

  datatype HeightKey = HeightKey(network: string, accountId: string, index: int)

  function KeyOf(row: Row): HeightKey {
    HeightKey(row.network, row.accountId, row.index)
  }

  /** What goes out on the shard's conflict topic. */
  datatype Evidence = Evidence(network: string, shard: int, first: Row, second: Row)

  /** `armed` once the publisher exists; `published` is the evidence sent by this process since the last wipe;
  `quiet` are the heights announced before it was armed. */
  datatype Archive = Archive(
    store: map<string, Row>,
    heights: map<HeightKey, string>,
    announced: set<HeightKey>,
    armed: bool,
    published: seq<Evidence>,
    quiet: set<HeightKey>)

  const EMPTY: Archive := Archive(map[], map[], {}, false, [], {})

  /** `indexEngineRow`. */
  function Indexed(a: Archive, row: Row): Archive {
    var k := KeyOf(row);
    if k in a.heights && a.heights[k] != row.hash then
      if k in a.announced then a
      else
        var b := a.(announced := a.announced + {k});
        if !a.armed then b.(quiet := a.quiet + {k})
        else if a.heights[k] in a.store then
          b.(published := a.published + [Evidence(row.network, row.shard, a.store[a.heights[k]], row)])
        else b
    else a.(heights := a.heights[k := row.hash])
  }

  function Stored(a: Archive, row: Row): Archive {
    Indexed(a.(store := a.store[row.hash := row]), row)
  }

  datatype Act =
    | Load(row: Row)
    | Arm
    | Keep(row: Row, valid: bool)
    | Wipe

  /** Loading a saved row, arming the publisher, `archiveEngineBlock`, and the wipe's part of the archive. */
  function Step(a: Archive, act: Act): Archive {
    match act
    case Load(row) => Stored(a, row)
    case Arm => a.(armed := true)
    case Keep(row, valid) => if !valid || row.hash in a.store then a else Stored(a, row)
    case Wipe => EMPTY.(armed := a.armed)
  }

  function Run(acts: seq<Act>): Archive {
    if acts == [] then EMPTY else Step(Run(acts[..|acts| - 1]), acts[|acts| - 1])
  }

  // ---------------------------------------------------------------- Agreement of index and archive

  /** Two different stored blocks share the height. */
  ghost predicate Conflicted(store: map<string, Row>, k: HeightKey) {
    exists g, h :: g in store && h in store && g != h && KeyOf(store[g]) == k && KeyOf(store[h]) == k
  }

  predicate Proves(store: map<string, Row>, e: Evidence) {
    && e.first.hash in store && store[e.first.hash] == e.first
    && e.second.hash in store && store[e.second.hash] == e.second
    && e.first.hash != e.second.hash && KeyOf(e.first) == KeyOf(e.second)
    && e.network == e.second.network && e.shard == e.second.shard
  }

  ghost predicate RowsIndexed(a: Archive) {
    forall h :: h in a.store ==> a.store[h].hash == h && KeyOf(a.store[h]) in a.heights
  }

  ghost predicate HeightsStored(a: Archive) {
    forall k :: k in a.heights ==> a.heights[k] in a.store && KeyOf(a.store[a.heights[k]]) == k
  }

  ghost predicate HeightsAgree(a: Archive) {
    RowsIndexed(a) && HeightsStored(a)
  }

  ghost predicate AnnouncedAgrees(a: Archive) {
    forall k {:trigger k in a.announced} {:trigger Conflicted(a.store, k)} ::
      k in a.announced <==> Conflicted(a.store, k)
  }

  function HeightOf(e: Evidence): HeightKey {
    KeyOf(e.second)
  }

  ghost predicate ProofsHold(a: Archive) {
    forall i :: 0 <= i < |a.published| ==> Proves(a.store, a.published[i])
  }

  ghost predicate OncePerHeight(a: Archive) {
    forall i, j :: 0 <= i < j < |a.published| ==> HeightOf(a.published[i]) != HeightOf(a.published[j])
  }

  ghost predicate PublishedAt(a: Archive, k: HeightKey) {
    exists i :: 0 <= i < |a.published| && HeightOf(a.published[i]) == k
  }

  ghost predicate PublishedUnlessQuiet(a: Archive) {
    && a.quiet <= a.announced
    && forall k {:trigger PublishedAt(a, k)} :: PublishedAt(a, k) <==> k in a.announced && k !in a.quiet
  }

  ghost predicate Agrees(a: Archive) {
    HeightsAgree(a) && AnnouncedAgrees(a) && ProofsHold(a) && OncePerHeight(a) && PublishedUnlessQuiet(a)
  }

  /** A new row at a height makes it conflicted exactly when some row already stood there. */
  lemma NewRowConflicts(store: map<string, Row>, row: Row, k: HeightKey)
    requires row.hash !in store
    ensures Conflicted(store[row.hash := row], k) <==>
      Conflicted(store, k) || (k == KeyOf(row) && exists h :: h in store && KeyOf(store[h]) == k)
  {
    var after := store[row.hash := row];
    if Conflicted(store, k) {
      var g, h :| g in store && h in store && g != h && KeyOf(store[g]) == k && KeyOf(store[h]) == k;
      assert after[g] == store[g] && after[h] == store[h];
    }
    if k == KeyOf(row) && exists h :: h in store && KeyOf(store[h]) == k {
      var h :| h in store && KeyOf(store[h]) == k;
      assert after[h] == store[h] && after[row.hash] == row;
    }
  }

  lemma StoringKeepsHeights(a: Archive, row: Row)
    requires HeightsAgree(a) && row.hash !in a.store
    ensures HeightsAgree(Stored(a, row))
  {
    StoringKeepsRowsIndexed(a, row, Stored(a, row));
    StoringKeepsHeightsStored(a, row, Stored(a, row));
  }

  lemma StoringKeepsRowsIndexed(a: Archive, row: Row, t: Archive)
    requires RowsIndexed(a) && row.hash !in a.store && t == Stored(a, row)
    ensures RowsIndexed(t)
  {
    forall h | h in t.store ensures t.store[h].hash == h && KeyOf(t.store[h]) in t.heights {
      if h != row.hash { assert t.store[h] == a.store[h]; }
    }
  }

  lemma StoringKeepsHeightsStored(a: Archive, row: Row, t: Archive)
    requires HeightsStored(a) && row.hash !in a.store && t == Stored(a, row)
    ensures HeightsStored(t)
  {
    forall k | k in t.heights ensures t.heights[k] in t.store && KeyOf(t.store[t.heights[k]]) == k {
      if k != KeyOf(row) { assert t.heights[k] == a.heights[k]; }
    }
  }

  lemma StoringKeepsAnnounced(a: Archive, row: Row)
    requires HeightsAgree(a) && AnnouncedAgrees(a) && row.hash !in a.store
    ensures AnnouncedAgrees(Stored(a, row))
  {
    var t := Stored(a, row);
    forall k ensures k in t.announced <==> Conflicted(t.store, k) {
      NewRowConflicts(a.store, row, k);
    }
  }

  lemma StoringKeepsProofs(a: Archive, row: Row)
    requires HeightsAgree(a) && ProofsHold(a) && row.hash !in a.store
    ensures ProofsHold(Stored(a, row))
  {
    var t := Stored(a, row);
    forall i | 0 <= i < |t.published| ensures Proves(t.store, t.published[i]) {
      if i < |a.published| { assert Proves(a.store, a.published[i]); }
    }
  }

  /** What storing a row publishes: at most one piece of evidence, about its own height. */
  lemma StoringPublishes(a: Archive, row: Row, t: Archive)
    requires HeightsAgree(a) && row.hash !in a.store && t == Stored(a, row)
    ensures t.published ==
      a.published || (|t.published| == |a.published| + 1 && t.published[..|a.published|] == a.published)
    ensures forall k {:trigger PublishedAt(t, k)} :: PublishedAt(t, k) <==>
      PublishedAt(a, k) || (k == KeyOf(row) && k in t.announced && k !in a.announced && a.armed)
  {
    var n := |a.published|;
    if t.published != a.published { assert HeightOf(t.published[n]) == KeyOf(row); }
    forall k ensures PublishedAt(t, k) <==>
      PublishedAt(a, k) || (k == KeyOf(row) && k in t.announced && k !in a.announced && a.armed)
    {
      if PublishedAt(a, k) {
        var i :| 0 <= i < n && HeightOf(a.published[i]) == k;
        assert t.published[i] == a.published[i];
      }
    }
  }

  lemma StoringKeepsPublished(a: Archive, row: Row)
    requires HeightsAgree(a) && OncePerHeight(a) && PublishedUnlessQuiet(a) && row.hash !in a.store
    ensures OncePerHeight(Stored(a, row)) && PublishedUnlessQuiet(Stored(a, row))
  {
    var t := Stored(a, row);
    StoringPublishes(a, row, t);
    if t.published != a.published {
      assert PublishedAt(a, KeyOf(row)) <==> KeyOf(row) in a.announced && KeyOf(row) !in a.quiet;
      forall i | 0 <= i < |a.published| ensures HeightOf(a.published[i]) != KeyOf(row) {}
    }
    forall k ensures PublishedAt(t, k) <==> k in t.announced && k !in t.quiet {
      assert PublishedAt(a, k) <==> k in a.announced && k !in a.quiet;
    }
  }

  lemma RestAgrees(a: Archive, act: Act)
    requires Agrees(a) && (act.Arm? || act.Wipe? || Step(a, act) == a)
    ensures Agrees(Step(a, act))
  {
    var t := Step(a, act);
    forall k ensures PublishedAt(t, k) <==> k in t.announced && k !in t.quiet {
      assert PublishedAt(a, k) <==> k in a.announced && k !in a.quiet;
    }
  }

  lemma StepAgrees(a: Archive, act: Act)
    requires Agrees(a) && (act.Load? ==> act.row.hash !in a.store)
    ensures Agrees(Step(a, act))
  {
    if act.Load? || (act.Keep? && act.valid && act.row.hash !in a.store) {
      StoringKeepsHeights(a, act.row);
      StoringKeepsAnnounced(a, act.row);
      StoringKeepsProofs(a, act.row);
      StoringKeepsPublished(a, act.row);
    } else {
      RestAgrees(a, act);
    }
  }

  /** The saved archive has one row per hash, so no load overwrites a row. */
  ghost predicate LoadsAreDistinct(acts: seq<Act>) {
    forall i :: 0 <= i < |acts| && acts[i].Load? ==> acts[i].row.hash !in Run(acts[..i]).store
  }

  /** In every run: a height is announced exactly when two different stored blocks share it; each piece of
  evidence names such a pair; no height is published twice; and the heights never published are exactly the
  quiet ones. */
  lemma {:induction false} RunAgrees(acts: seq<Act>)
    requires LoadsAreDistinct(acts)
    ensures Agrees(Run(acts))
    decreases |acts|
  {
    if acts != [] {
      var early := acts[..|acts| - 1];
      assert forall i :: 0 <= i < |early| ==> early[..i] == acts[..i];
      RunAgrees(early);
      StepAgrees(Run(early), acts[|acts| - 1]);
    }
  }

  /** Some step of the run brought this row, from the saved archive or as a verified block. */
  ghost predicate Brought(acts: seq<Act>, row: Row) {
    exists i :: 0 <= i < |acts| && (acts[i] == Load(row) || acts[i] == Keep(row, true))
  }

  /** In every run the store keeps only rows that were saved or verified, under their own hash; and a verified row stays
  from its arrival to the next wipe. */
  lemma {:induction false} StoredRowsWereBrought(acts: seq<Act>)
    ensures forall h :: h in Run(acts).store ==> Run(acts).store[h].hash == h && Brought(acts, Run(acts).store[h])
    decreases |acts|
  {
    if acts != [] {
      var n := |acts| - 1;
      var a, t := Run(acts[..n]), Run(acts);
      StoredRowsWereBrought(acts[..n]);
      forall h | h in t.store ensures t.store[h].hash == h && Brought(acts, t.store[h]) {
        if h in a.store && t.store[h] == a.store[h] { assert Brought(acts[..n], a.store[h]); }
      }
    }
  }

  lemma {:induction false} VerifiedRowsStay(acts: seq<Act>, row: Row, more: seq<Act>)
    requires forall i :: 0 <= i < |more| ==> !more[i].Wipe?
    ensures row.hash in Run(acts + [Keep(row, true)] + more).store
    decreases |more|
  {
    var all := acts + [Keep(row, true)] + more;
    if more == [] {
      assert all[..|all| - 1] == acts;
    } else {
      var early := more[..|more| - 1];
      assert all[..|all| - 1] == acts + [Keep(row, true)] + early;
      VerifiedRowsStay(acts, row, early);
    }
  }

  /** Only a wipe ends a height's quiet. */
  lemma QuietLasts(a: Archive, act: Act, t: Archive, k: HeightKey)
    requires t == Step(a, act) && k in a.quiet && !act.Wipe?
    ensures k in t.quiet
  {}

  lemma {:induction false} StaysQuiet(acts: seq<Act>, more: seq<Act>, k: HeightKey)
    requires k in Run(acts).quiet && forall i :: 0 <= i < |more| ==> !more[i].Wipe?
    ensures k in Run(acts + more).quiet
    decreases |more|
  {
    if more == [] {
      assert acts + more == acts;
    } else {
      var early := more[..|more| - 1];
      assert (acts + more)[..|acts + more| - 1] == acts + early;
      StaysQuiet(acts, early, k);
      QuietLasts(Run(acts + early), more[|more| - 1], Run(acts + more), k);
    }
  }

  /** A fork found while the saved archive loads stays quiet: its evidence is never published, whatever
  arrives later, until a wipe. */
  lemma QuietStaysUnpublished(acts: seq<Act>, more: seq<Act>, k: HeightKey)
    requires LoadsAreDistinct(acts + more) && k in Run(acts).quiet
    requires forall i :: 0 <= i < |more| ==> !more[i].Wipe?
    ensures k in Run(acts + more).quiet && !PublishedAt(Run(acts + more), k)
  {
    StaysQuiet(acts, more, k);
    RunAgrees(acts + more);
    assert PublishedAt(Run(acts + more), k) ==> k !in Run(acts + more).quiet;
  }

  lemma QuietGrowth(a: Archive, act: Act, t: Archive)
    requires t == Step(a, act) && a.quiet <= a.announced
    ensures forall k :: k in t.quiet && k !in a.quiet <==> !a.armed && k in t.announced && k !in a.announced
  {}

  /** A height becomes quiet exactly when a step taken before the publisher is armed makes it conflicted. */
  lemma QuietOnlyBeforeArming(a: Archive, act: Act, k: HeightKey)
    requires Agrees(a) && (act.Load? ==> act.row.hash !in a.store)
    ensures
      var t := Step(a, act);
      k in t.quiet && k !in a.quiet <==> !a.armed && Conflicted(t.store, k) && !Conflicted(a.store, k)
  {
    StepAgrees(a, act);
    QuietGrowth(a, act, Step(a, act));
    assert k in Step(a, act).announced <==> Conflicted(Step(a, act).store, k);
    assert k in a.announced <==> Conflicted(a.store, k);
  }

  /** The publisher is armed from the first arming on, wipes included. */
  lemma {:induction false} ArmedForGood(acts: seq<Act>)
    ensures Run(acts).armed <==> exists i :: 0 <= i < |acts| && acts[i].Arm?
    decreases |acts|
  {
    if acts != [] {
      var n := |acts| - 1;
      ArmedForGood(acts[..n]);
      if i :| 0 <= i < n && acts[i].Arm? { assert acts[..n][i].Arm?; }
    }
  }

  /** So once the publisher was armed, a step that makes a height conflicted publishes evidence of it at once, two
  different stored blocks of that height on the second one's shard. */
  lemma ArmedConflictsArePublished(acts: seq<Act>, act: Act, k: HeightKey)
    requires LoadsAreDistinct(acts + [act]) && exists i :: 0 <= i < |acts| && acts[i].Arm?
    requires !Conflicted(Run(acts).store, k) && Conflicted(Run(acts + [act]).store, k)
    ensures
      var a, t := Run(acts), Run(acts + [act]);
      && |t.published| == |a.published| + 1 && HeightOf(t.published[|a.published|]) == k
      && Proves(t.store, t.published[|a.published|])
  {
    var a, t := Run(acts), Run(acts + [act]);
    assert (acts + [act])[..|acts|] == acts;
    forall i | 0 <= i < |acts| && acts[i].Load? ensures acts[i].row.hash !in Run(acts[..i]).store {
      assert (acts + [act])[..i] == acts[..i];
    }
    ArmedForGood(acts);
    RunAgrees(acts);
    RunAgrees(acts + [act]);
    assert k in t.announced && k !in a.announced;
    assert act.Load? ==> (acts + [act])[|acts|].row.hash !in a.store;
    StoringPublishes(a, act.row, t);
    assert PublishedAt(t, k);
  }

  // ---------------------------------------------------------------- Serving a whole chain

  predicate Mine(row: Row, network: string, accountId: string) {
    row.network == network && row.accountId == accountId
  }

  /** The account's rows in some order with non-decreasing heights. */
  ghost predicate Arranged(a: Archive, network: string, accountId: string, rows: seq<Row>) {
    && (forall i :: 0 <= i < |rows| ==>
          rows[i].hash in a.store && a.store[rows[i].hash] == rows[i] && Mine(rows[i], network, accountId))
    && (forall h :: h in a.store && Mine(a.store[h], network, accountId) ==> a.store[h] in rows)
    && (forall i, j :: 0 <= i < j < |rows| ==> rows[i].hash != rows[j].hash && rows[i].index <= rows[j].index)
  }

  /** The rule of `/head-proof`. */
  predicate Contiguous(rows: seq<Row>) {
    |rows| > 0 && forall i :: 0 <= i < |rows| ==> rows[i].index == i
  }

  /** The rows whose proof is served: opening, head and the asked-for send. */
  ghost function HeadProof(rows: seq<Row>, send: string): Option<(Row, Row, Row)> {
    if Contiguous(rows) && exists i :: 0 <= i < |rows| && rows[i].hash == send
    then
      var i :| 0 <= i < |rows| && rows[i].hash == send;
      Some((rows[0], rows[|rows| - 1], rows[i]))
    else None
  }

  ghost predicate Holds(a: Archive, network: string, accountId: string, height: int) {
    exists h :: h in a.store && KeyOf(a.store[h]) == HeightKey(network, accountId, height)
  }

  /** Every stored height of the account has all heights from zero stored below it. */
  ghost predicate Gapless(a: Archive, network: string, accountId: string) {
    forall h :: h in a.store && Mine(a.store[h], network, accountId) ==>
      a.store[h].index >= 0 && forall j :: 0 <= j <= a.store[h].index ==> Holds(a, network, accountId, j)
  }

  ghost predicate Unforked(a: Archive, network: string, accountId: string) {
    forall j :: !Conflicted(a.store, HeightKey(network, accountId, j))
  }

  lemma RowAtHeight(a: Archive, network: string, accountId: string, rows: seq<Row>, height: int) returns (i: nat)
    requires HeightsAgree(a) && Arranged(a, network, accountId, rows) && Holds(a, network, accountId, height)
    ensures i < |rows| && rows[i].index == height
  {
    var h :| h in a.store && KeyOf(a.store[h]) == HeightKey(network, accountId, height);
    assert a.store[h] in rows;
    i :| 0 <= i < |rows| && rows[i] == a.store[h];
  }

  /** In an unforked account the arranged heights strictly increase. */
  lemma UnforkedIncreases(a: Archive, network: string, accountId: string, rows: seq<Row>, i: nat, j: nat)
    requires Arranged(a, network, accountId, rows) && Unforked(a, network, accountId) && i < j < |rows|
    ensures rows[i].index < rows[j].index
  {
    var k := KeyOf(rows[i]);
    assert k == HeightKey(network, accountId, rows[i].index);
    assert !Conflicted(a.store, k);
    assert a.store[rows[i].hash] == rows[i] && a.store[rows[j].hash] == rows[j];
    assert KeyOf(rows[j]) != k;
  }

  lemma {:induction false} WholeChainLinesUp(a: Archive, network: string, accountId: string, rows: seq<Row>, i: nat)
    requires HeightsAgree(a) && Arranged(a, network, accountId, rows)
    requires Unforked(a, network, accountId) && Gapless(a, network, accountId) && i < |rows|
    ensures rows[i].index == i
    decreases i
  {
    assert a.store[rows[i].hash] == rows[i];
    if i > 0 {
      WholeChainLinesUp(a, network, accountId, rows, i - 1);
      UnforkedIncreases(a, network, accountId, rows, i - 1, i);
    }
    assert rows[i].index >= i;
    assert Holds(a, network, accountId, i);
    var m := RowAtHeight(a, network, accountId, rows, i);
    if m < i {
      WholeChainLinesUp(a, network, accountId, rows, m);
    }
  }

  /** A served chain has no fork and no gap, and a stored chain without either is served. */
  lemma ServesExactlyWholeChains(a: Archive, network: string, accountId: string, rows: seq<Row>)
    requires Agrees(a) && Arranged(a, network, accountId, rows)
    ensures Contiguous(rows) <==> rows != [] && Unforked(a, network, accountId) && Gapless(a, network, accountId)
    ensures Contiguous(rows) ==> forall j :: HeightKey(network, accountId, j) !in a.announced
  {
    if Contiguous(rows) {
      ServedIsWhole(a, network, accountId, rows);
      forall j ensures HeightKey(network, accountId, j) !in a.announced {
        assert !Conflicted(a.store, HeightKey(network, accountId, j));
      }
    } else if rows != [] && Unforked(a, network, accountId) && Gapless(a, network, accountId) {
      forall i | 0 <= i < |rows| ensures rows[i].index == i { WholeChainLinesUp(a, network, accountId, rows, i); }
    }
  }

  lemma ServedIsWhole(a: Archive, network: string, accountId: string, rows: seq<Row>)
    requires HeightsAgree(a) && Arranged(a, network, accountId, rows) && Contiguous(rows)
    ensures Unforked(a, network, accountId) && Gapless(a, network, accountId)
  {
    forall j ensures !Conflicted(a.store, HeightKey(network, accountId, j)) {
      var k := HeightKey(network, accountId, j);
      forall g, h | g in a.store && h in a.store && KeyOf(a.store[g]) == k == KeyOf(a.store[h]) ensures g == h {
        assert a.store[g] in rows && a.store[h] in rows;
        assert a.store[g] == rows[j] == a.store[h];
      }
    }
    forall h | h in a.store && Mine(a.store[h], network, accountId)
      ensures a.store[h].index >= 0 && forall j :: 0 <= j <= a.store[h].index ==> Holds(a, network, accountId, j)
    {
      assert a.store[h] in rows;
      forall j | 0 <= j <= a.store[h].index ensures Holds(a, network, accountId, j) {
        assert KeyOf(a.store[rows[j].hash]) == HeightKey(network, accountId, j);
      }
    }
  }

  /** A proof is served exactly for a send on a whole chain; its parts are the opening at height 0, the head above
  which nothing of the account is stored, and the send, whose height is its leaf position. */
  lemma HeadProofIsRight(a: Archive, network: string, accountId: string, rows: seq<Row>, send: string)
    requires Agrees(a) && Arranged(a, network, accountId, rows)
    ensures
      var r := HeadProof(rows, send);
      && (r.Some? <==> Unforked(a, network, accountId) && Gapless(a, network, accountId)
                       && send in a.store && Mine(a.store[send], network, accountId))
      && (r.Some? ==>
            && r.value.0.index == 0 && r.value.2 == a.store[send]
            && 0 <= r.value.2.index < |rows| && rows[r.value.2.index] == r.value.2
            && forall h :: h in a.store && Mine(a.store[h], network, accountId) ==> a.store[h].index <= r.value.1.index)
  {
    ServesExactlyWholeChains(a, network, accountId, rows);
    if send in a.store && Mine(a.store[send], network, accountId) {
      assert a.store[send] in rows;
      var i :| 0 <= i < |rows| && rows[i] == a.store[send];
      assert rows[i].hash == send;
    }
    if HeadProof(rows, send).Some? {
      forall h | h in a.store && Mine(a.store[h], network, accountId)
        ensures a.store[h].index <= HeadProof(rows, send).value.1.index
      {
        assert a.store[h] in rows;
      }
    }
  }

  // ---------------------------------------------------------------- The archive as it runs

  class EngineArchive {
    var blockStore: map<string, Row>
    var heightIndex: map<HeightKey, string>
    var conflictAnnounced: set<HeightKey>
    var armed: bool
    var published: seq<Evidence>
    ghost var quiet: set<HeightKey>

    constructor ()
      ensures View() == EMPTY
    {
      blockStore, heightIndex, conflictAnnounced, armed, published, quiet := map[], map[], {}, false, [], {};
    }

    ghost function View(): Archive
      reads this
    {
      Archive(blockStore, heightIndex, conflictAnnounced, armed, published, quiet)
    }

    method IndexEngineRow(row: Row)
      modifies this
      ensures View() == Indexed(old(View()), row)
    {
      var key := KeyOf(row);
      if key in heightIndex && heightIndex[key] != row.hash {
        if key in conflictAnnounced { return; }
        conflictAnnounced := conflictAnnounced + {key};
        var prior := heightIndex[key];
        if !armed {
          quiet := quiet + {key};
        } else if prior in blockStore {
          published := published + [Evidence(row.network, row.shard, blockStore[prior], row)];
        }
        return;
      }
      heightIndex := heightIndex[key := row.hash];
    }

    method ArchiveEngineBlock(row: Row, valid: bool)
      modifies this
      ensures View() == Step(old(View()), Keep(row, valid))
    {
      if !valid || row.hash in blockStore { return; }
      blockStore := blockStore[row.hash := row];
      IndexEngineRow(row);
    }

    /** `loadEngineBlocks` over the saved rows, dropping those that no longer verify. */
    method LoadEngineBlocks(rows: seq<Row>, valid: seq<bool>)
      requires |rows| == |valid|
      modifies this
      ensures View() == Loaded(old(View()), rows, valid)
    {
      for i := 0 to |rows|
        invariant View() == Loaded(old(View()), rows[..i], valid[..i])
      {
        assert rows[..i + 1][..i] == rows[..i] && valid[..i + 1][..i] == valid[..i];
        if valid[i] {
          blockStore := blockStore[rows[i].hash := rows[i]];
          IndexEngineRow(rows[i]);
        }
      }
      assert rows[..|rows|] == rows && valid[..|rows|] == valid;
    }

    method ArmPublisher()
      modifies this
      ensures View() == Step(old(View()), Arm)
    {
      armed := true;
    }

    /** The archive's part of `performNetworkWipe`. */
    method WipeArchive()
      modifies this
      ensures View() == Step(old(View()), Wipe)
    {
      blockStore, heightIndex, conflictAnnounced, published, quiet := map[], map[], {}, [], {};
    }
  }

  function Loaded(a: Archive, rows: seq<Row>, valid: seq<bool>): Archive
    requires |rows| == |valid|
  {
    if rows == [] then a
    else
      var n := |rows| - 1;
      var before := Loaded(a, rows[..n], valid[..n]);
      if valid[n] then Step(before, Load(rows[n])) else before
  }

  /** One of the saved rows that still verify. */
  ghost predicate Verifying(rows: seq<Row>, valid: seq<bool>, row: Row)
    requires |rows| == |valid|
  {
    exists i :: 0 <= i < |rows| && valid[i] && rows[i] == row
  }

  lemma VerifyingMore(rows: seq<Row>, valid: seq<bool>, row: Row)
    requires |rows| == |valid| && rows != []
    ensures
      var n := |rows| - 1;
      Verifying(rows, valid, row) <==> Verifying(rows[..n], valid[..n], row) || (valid[n] && rows[n] == row)
  {
    var n := |rows| - 1;
    if i :| 0 <= i < |rows| && valid[i] && rows[i] == row {
      assert i < n ==> rows[..n][i] == rows[i] && valid[..n][i] == valid[i];
    }
    if i :| 0 <= i < n && valid[..n][i] && rows[..n][i] == row { assert valid[i] && rows[i] == row; }
  }

  /** Loading brings back exactly the saved rows that still verify, each under its hash, and keeps what is stored; of
  several rows with one hash the last stays. */
  lemma {:induction false} LoadsWhatVerifies(a: Archive, rows: seq<Row>, valid: seq<bool>)
    requires |rows| == |valid|
    ensures
      var t := Loaded(a, rows, valid);
      && (forall row :: Verifying(rows, valid, row) ==> row.hash in t.store)
      && (forall h :: h in a.store ==> h in t.store)
      && (forall h :: h in t.store ==>
            || (h in a.store && t.store[h] == a.store[h])
            || (t.store[h].hash == h && Verifying(rows, valid, t.store[h])))
    decreases |rows|
  {
    if rows != [] {
      var n := |rows| - 1;
      LoadsWhatVerifies(a, rows[..n], valid[..n]);
      forall row ensures
        Verifying(rows, valid, row) <==> Verifying(rows[..n], valid[..n], row) || (valid[n] && rows[n] == row)
      {
        VerifyingMore(rows, valid, row);
      }
      LoadedNext(Loaded(a, rows[..n], valid[..n]), rows[n]);
    }
  }

  lemma LoadedNext(a: Archive, row: Row)
    ensures Step(a, Load(row)).store == a.store[row.hash := row]
  {}
}
