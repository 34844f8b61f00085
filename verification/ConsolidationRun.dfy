/** A consolidation run over all users: pages of candidates are read, scored and written
    while other writers go on changing the graph. */
module ConsolidationRun {
  import opened Options
  import opened ConsolidationBatch

  /** What other writers may do between two calls of the run: add memories and change them,
      but neither remove an eligible memory nor make it ineligible. */
  ghost predicate Evolves(s: Nodes, t: Nodes) {
    forall id :: id in s ==> id in t && t[id].user == s[id].user && t[id].created == s[id].created && t[id].last == s[id].last
                             && (t[id].status.Other? ==> s[id].status.Other?)
  }

  datatype Counts = Counts(scanned: nat, updated: nat, conflicts: int, invalid: nat, missing: nat, batches: nat)

  const ZERO := Counts(0, 0, 0, 0, 0, 0)

  /** Everything scanned is accounted for; `rejected` is what the write refused, which the
      run's metrics do not show. */
  predicate Balanced(c: Counts, rejected: nat) {
    0 <= c.conflicts && c.scanned == c.updated + c.conflicts + c.invalid + c.missing + rejected
  }

  datatype RunStatus = Success | Failure | Skipped

  /** Every memory keeps its user, and other users' eligible memories stay eligible. */
  ghost predicate UsersKept(s: Nodes, t: Nodes, user: nat, time: int) {
    && (forall id :: id in s ==> id in t && t[id].user == s[id].user)
    && (forall id, v: nat :: v != user && Candidate(s, v, time, None, id) ==> Candidate(t, v, time, None, id))
  }

  // ----- one page -----

  lemma EvolvedCandidate(s: Nodes, t: Nodes, user: nat, time: int, cursor: Option<nat>, id: nat)
    requires Evolves(s, t) && Candidate(s, user, time, cursor, id)
    ensures Candidate(t, user, time, cursor, id)
  {
  }

  lemma {:induction false} ValidFrom(ws: seq<Write>, n: nat, k: nat) returns (i: nat)
    requires n <= |ws| && k < |ValidRows(ws, n)|
    ensures i < n && ValidRows(ws, n)[k] == ws[i]
  {
    if k < |ValidRows(ws, n - 1)| {
      i := ValidFrom(ws, n - 1, k);
    } else {
      i := n - 1;
    }
  }

  predicate WritesWithin(ws: seq<Write>, last: nat) { forall k :: 0 <= k < |ws| ==> ws[k].id <= last }

  /** The writes of a page concern memories up to its last one only. */
  lemma PageWritesWithin(rows: seq<Row>, c: Settings, last: nat)
    requires forall i :: 0 <= i < |rows| ==> rows[i].id <= last
    ensures var ws := ScoredWrites(rows, c, |rows|); WritesWithin(ValidRows(ws, |ws|), last)
  {
    var ws := ScoredWrites(rows, c, |rows|);
    forall k | 0 <= k < |ValidRows(ws, |ws|)| ensures ValidRows(ws, |ws|)[k].id <= last {
      var i := ValidFrom(ws, |ws|, k);
      var j := ScoredFrom(rows, c, |rows|, i);
    }
  }

  lemma WriteLeavesRest(s: Nodes, user: nat, time: int, ws: seq<Write>, last: nat, id: nat)
    requires WritesWithin(ws, last) && Candidate(s, user, time, Some(last), id)
    ensures Candidate(WrittenUpTo(s, user, time, ws, |ws|), user, time, Some(last), id)
  {
    Untouched(s, user, time, ws, |ws|, id);
  }

  lemma WriteEvolves(s: Nodes, user: nat, time: int, ws: seq<Write>)
    ensures WrittenUpTo(s, user, time, ws, |ws|).Keys == s.Keys
    ensures AllVersioned(s) ==> AllVersioned(WrittenUpTo(s, user, time, ws, |ws|))
  {
    WriteKeepsIds(s, user, time, ws, |ws|);
    forall id | id in s ensures WrittenUpTo(s, user, time, ws, |ws|)[id].version == s[id].version {
      WriteTouches(s, user, time, ws, |ws|, id);
    }
  }

  predicate AllVersioned(s: Nodes) { forall id :: id in s ==> s[id].version.Some? ==> 1 <= s[id].version.value }

  /** With validated settings, versions from 1 and no empty id, nothing a page scores is
      refused by the write. */
  lemma PageIsAdmissible(rows: seq<Row>, c: Settings)
    requires ValidSettings(c) && Increasing(Ids(rows))
    requires forall i :: 0 <= i < |rows| ==> rows[i].id != 0 && (rows[i].node.version.Some? ==> 1 <= rows[i].node.version.value)
    ensures var ws := ScoredWrites(rows, c, |rows|); ValidRows(ws, |ws|) == ws
  {
    var ws := ScoredWrites(rows, c, |rows|);
    forall k | 0 <= k < |ws| ensures Admissible(ws[k]) {
      var i := ScoredFrom(rows, c, |rows|, k);
      ImportanceInRange(rows[i].node, c);
    }
    ScoredIncrease(rows, c, |rows|);
    NothingRejected(ws, |ws|);
    assert ws[..|ws|] == ws;
  }

  lemma {:induction false} ScoredIncrease(rows: seq<Row>, c: Settings, n: nat)
    requires n <= |rows| && Increasing(Ids(rows))
    ensures forall j, k :: 0 <= j < k < |ScoredWrites(rows, c, n)| ==> ScoredWrites(rows, c, n)[j].id < ScoredWrites(rows, c, n)[k].id
  {
    if n > 0 {
      ScoredIncrease(rows, c, n - 1);
      var before := ScoredWrites(rows, c, n - 1);
      forall k | 0 <= k < |before| ensures before[k].id < rows[n - 1].id {
        var i := ScoredFrom(rows, c, n - 1, k);
        assert Ids(rows)[i] < Ids(rows)[n - 1];
      }
    }
  }

  /** A candidate is on the page, or remains one after the page's last memory. */
  ghost predicate PageCovers(s: Nodes, t: Nodes, user: nat, time: int, cursor: Option<nat>, limit: nat, rows: seq<Row>) {
    forall id :: Candidate(s, user, time, cursor, id) ==>
      id in Ids(rows) || (|rows| == limit && 0 < limit && Candidate(t, user, time, Some(rows[|rows| - 1].id), id))
  }

  lemma PageCoversCandidates(s: Nodes, read: Nodes, wrote: Nodes, user: nat, time: int, cursor: Option<nat>, c: Settings, rows: seq<Row>)
    requires 0 < c.batchSize && Evolves(s, read) && IsPage(read, user, time, cursor, c.batchSize, rows)
    requires var ws := ScoredWrites(rows, c, |rows|);
             var valid := ValidRows(ws, |ws|);
             (valid == [] && wrote == read) || exists t :: Evolves(read, t) && wrote == WrittenUpTo(t, user, time, valid, |valid|)
    ensures PageCovers(s, wrote, user, time, cursor, c.batchSize, rows)
  {
    var ws := ScoredWrites(rows, c, |rows|);
    var valid := ValidRows(ws, |ws|);
    forall id | Candidate(s, user, time, cursor, id) && id !in Ids(rows)
      ensures |rows| == c.batchSize && Candidate(wrote, user, time, Some(rows[|rows| - 1].id), id)
    {
      EvolvedCandidate(s, read, user, time, cursor, id);
      var last := rows[|rows| - 1].id;
      RowsUpToLast(rows);
      PageWritesWithin(rows, c, last);
      if valid != [] || wrote != read {
        var t :| Evolves(read, t) && wrote == WrittenUpTo(t, user, time, valid, |valid|);
        EvolvedCandidate(read, t, user, time, Some(last), id);
        WriteLeavesRest(t, user, time, valid, last, id);
      }
    }
  }

  lemma RowsUpToLast(rows: seq<Row>)
    requires Increasing(Ids(rows)) && rows != []
    ensures forall i :: 0 <= i < |rows| ==> rows[i].id <= rows[|rows| - 1].id
  {
    forall i | 0 <= i < |rows| ensures rows[i].id <= rows[|rows| - 1].id {
      assert i < |rows| - 1 ==> Ids(rows)[i] < Ids(rows)[|rows| - 1];
    }
  }

  // ----- what the run makes of a memory -----

  /** The row of a page that rescores a memory: it is scorable, and when it is written the
      memory has the version that was read. */
  ghost predicate Rescores(r: Row, t: Nodes, user: nat, id: nat) {
    r.id == id && Scorable(r.node) && id in t && t[id].user == user && t[id].version == r.node.version
  }

  /** The node with its new importance, computed from what was read, and the time of the run. */
  ghost predicate IsRescored(read: Node, before: Node, after: Node, c: Settings, time: int) {
    IsNewImportance(read, c, after.importance) && after == before.(importance := after.importance, last := Some(time))
  }

  /** A page rescores the memories of its rows that are still as read, and nothing else. */
  ghost predicate PageWritten(t: Nodes, after: Nodes, user: nat, time: int, c: Settings, rows: seq<Row>) {
    && after.Keys == t.Keys
    && (forall i, id :: 0 <= i < |rows| && Rescores(rows[i], t, user, id) ==> id in after && IsRescored(rows[i].node, t[id], after[id], c, time))
    && (forall id :: id in t && (forall i :: 0 <= i < |rows| ==> !Rescores(rows[i], t, user, id)) ==> id in after && after[id] == t[id])
  }

  lemma WriteRescores(t: Nodes, user: nat, time: int, c: Settings, ws: seq<Write>, k: nat, r: Row, id: nat)
    requires DistinctIds(ws) && k < |ws| && IsWriteOf(r, c, ws[k]) && Rescores(r, t, user, id)
    ensures var after := WrittenUpTo(t, user, time, ws, |ws|);
            id in after && IsRescored(r.node, t[id], after[id], c, time)
  {
    WriteApplies(t, user, time, ws, |ws|, k);
  }

  lemma RowIsWritten(t: Nodes, user: nat, time: int, c: Settings, rows: seq<Row>, i: nat, id: nat)
    requires ValidSettings(c) && Increasing(Ids(rows)) && i < |rows| && Rescores(rows[i], t, user, id)
    ensures var ws := ScoredWrites(rows, c, |rows|);
            var after := WrittenUpTo(t, user, time, ws, |ws|);
            id in after && IsRescored(rows[i].node, t[id], after[id], c, time)
  {
    var ws := ScoredWrites(rows, c, |rows|);
    ScoredIncrease(rows, c, |rows|);
    var k := WriteOfRow(rows, c, |rows|, i);
    WriteRescores(t, user, time, c, ws, k, rows[i], id);
  }

  lemma OthersAreKept(t: Nodes, user: nat, time: int, c: Settings, rows: seq<Row>, id: nat)
    requires ValidSettings(c) && id in t && forall i :: 0 <= i < |rows| ==> !Rescores(rows[i], t, user, id)
    ensures var ws := ScoredWrites(rows, c, |rows|);
            var after := WrittenUpTo(t, user, time, ws, |ws|);
            id in after && after[id] == t[id]
  {
    var ws := ScoredWrites(rows, c, |rows|);
    WriteTouches(t, user, time, ws, |ws|, id);
    forall k | 0 <= k < |ws| ensures !(ws[k].id == id && Matches(t, user, ws[k])) {
      var i := ScoredFrom(rows, c, |rows|, k);
      assert !Rescores(rows[i], t, user, id);
    }
  }

  lemma PageWrites(t: Nodes, user: nat, time: int, c: Settings, rows: seq<Row>)
    requires ValidSettings(c) && Increasing(Ids(rows))
    ensures var ws := ScoredWrites(rows, c, |rows|);
            PageWritten(t, WrittenUpTo(t, user, time, ws, |ws|), user, time, c, rows)
  {
    var ws := ScoredWrites(rows, c, |rows|);
    var after := WrittenUpTo(t, user, time, ws, |ws|);
    WriteKeepsIds(t, user, time, ws, |ws|);
    forall i, id | 0 <= i < |rows| && Rescores(rows[i], t, user, id) ensures id in after && IsRescored(rows[i].node, t[id], after[id], c, time) {
      RowIsWritten(t, user, time, c, rows, i, id);
    }
    forall id | id in t && (forall i :: 0 <= i < |rows| ==> !Rescores(rows[i], t, user, id)) ensures after[id] == t[id] {
      OthersAreKept(t, user, time, c, rows, id);
    }
  }

  /** Without scored rows nothing is written and nothing was to be. */
  lemma NothingToWrite(t: Nodes, user: nat, time: int, c: Settings, rows: seq<Row>)
    requires ValidSettings(c) && ScoredWrites(rows, c, |rows|) == []
    ensures PageWritten(t, t, user, time, c, rows)
  {
    forall i | 0 <= i < |rows| ensures !Scorable(rows[i].node) {
      if Scorable(rows[i].node) {
        var k := WriteOfRow(rows, c, |rows|, i);
        assert false;
      }
    }
  }

  lemma PageIsWritten(read: Nodes, t: Nodes, wrote: Nodes, user: nat, time: int, c: Settings, rows: seq<Row>)
    requires ValidSettings(c) && Increasing(Ids(rows))
    requires var ws := ScoredWrites(rows, c, |rows|);
             wrote == if ws == [] then read else WrittenUpTo(t, user, time, ws, |ws|)
    ensures PageWritten(read, wrote, user, time, c, rows) || PageWritten(t, wrote, user, time, c, rows)
  {
    if ScoredWrites(rows, c, |rows|) == [] {
      NothingToWrite(read, user, time, c, rows);
    } else {
      PageWrites(t, user, time, c, rows);
    }
  }

  /** If nobody else writes: the memories of the list that can be scored have been, from what
      they were, and no other memory has changed. */
  ghost predicate AllRescored(s: Nodes, t: Nodes, ids: seq<nat>, c: Settings, time: int) {
    && t.Keys == s.Keys
    && forall id :: id in s ==>
         if id in ids && Scorable(s[id]) then IsRescored(s[id], s[id], t[id], c, time) else t[id] == s[id]
  }

  lemma PageRescores(s: Nodes, after: Nodes, user: nat, time: int, cursor: Option<nat>, limit: nat, c: Settings, rows: seq<Row>)
    requires IsPage(s, user, time, cursor, limit, rows) && PageWritten(s, after, user, time, c, rows)
    ensures AllRescored(s, after, Ids(rows), c, time)
  {
    forall id | id in s
      ensures if id in Ids(rows) && Scorable(s[id]) then IsRescored(s[id], s[id], after[id], c, time) else after[id] == s[id]
    {
      if id in Ids(rows) && Scorable(s[id]) {
        var i :| 0 <= i < |rows| && Ids(rows)[i] == id;
        assert Candidate(s, user, time, cursor, rows[i].id) && Rescores(rows[i], s, user, id);
      } else {
        forall i | 0 <= i < |rows| ensures !Rescores(rows[i], s, user, id) {
          assert Ids(rows)[i] == rows[i].id;
        }
      }
    }
  }

  lemma RescoredOn(s: Nodes, t: Nodes, u: Nodes, a: seq<nat>, b: seq<nat>, c: Settings, time: int)
    requires AllRescored(s, t, a, c, time) && AllRescored(t, u, b, c, time)
    requires forall id :: id in a ==> id !in b
    ensures AllRescored(s, u, a + b, c, time)
  {
    assert forall id :: id in a + b <==> id in a || id in b;
  }

  predicate FullPages(scanned: nat, pages: nat, size: nat) { scanned == pages * size }

  /** As many pages as it takes: all but the last are full, and the last is not. */
  predicate PagesFor(scanned: nat, pages: nat, size: nat) { 0 < pages && (pages - 1) * size <= scanned < pages * size }
  lemma OneMorePage(scanned: nat, pages: nat, size: nat, more: nat)
    requires FullPages(scanned, pages, size) && more <= size && 0 < size
    ensures more < size ==> PagesFor(scanned + more, pages + 1, size)
    ensures more == size ==> FullPages(scanned + more, pages + 1, size)
  {
  }

  // ----- what a run counts when nobody else writes -----

  /** Ill formed, or with evidence but no version. */
  predicate IsInvalid(n: Node) { !n.mappable || !n.validInput || (0 < n.archives && n.version.None?) }

  predicate LacksEvidence(n: Node) { n.mappable && n.validInput && n.archives == 0 }

  /** How many of the listed memories are invalid, and how many lack evidence. */
  function Invalids(s: Nodes, ids: seq<nat>): nat
    requires forall id :: id in ids ==> id in s
  {
    if ids == [] then 0
    else Invalids(s, ids[..|ids| - 1]) + if IsInvalid(s[ids[|ids| - 1]]) then 1 else 0
  }

  function Lacking(s: Nodes, ids: seq<nat>): nat
    requires forall id :: id in ids ==> id in s
  {
    if ids == [] then 0
    else Lacking(s, ids[..|ids| - 1]) + if LacksEvidence(s[ids[|ids| - 1]]) then 1 else 0
  }

  lemma {:induction false} CountsConcat(s: Nodes, a: seq<nat>, b: seq<nat>)
    requires forall id :: id in a + b ==> id in s
    ensures (forall id :: id in a ==> id in s) && (forall id :: id in b ==> id in s)
    ensures Invalids(s, a + b) == Invalids(s, a) + Invalids(s, b)
    ensures Lacking(s, a + b) == Lacking(s, a) + Lacking(s, b)
    decreases |b|
  {
    assert forall id :: id in a || id in b ==> id in a + b;
    if b == [] {
      assert a + b == a;
    } else {
      var n := |b| - 1;
      assert (a + b)[..|a + b| - 1] == a + b[..n];
      CountsConcat(s, a, b[..n]);
    }
  }

  lemma {:induction false} PageCounts(rows: seq<Row>, c: Settings, s: Nodes, n: nat)
    requires n <= |rows| && forall i :: 0 <= i < |rows| ==> rows[i].id in s && rows[i].node == s[rows[i].id]
    ensures forall id :: id in Ids(rows)[..n] ==> id in s
    ensures CountOf(rows, c, n, InvalidState) == Invalids(s, Ids(rows)[..n])
    ensures CountOf(rows, c, n, MissingEvidence) == Lacking(s, Ids(rows)[..n])
  {
    if n > 0 {
      PageCounts(rows, c, s, n - 1);
      assert Ids(rows)[..n][..n - 1] == Ids(rows)[..n - 1];
    }
  }

  /** Every matching row of a distinct batch counts as updated. */
  lemma {:induction false} AllUpdated(s: Nodes, user: nat, time: int, ws: seq<Write>, n: nat)
    requires n <= |ws| && DistinctIds(ws) && forall k :: 0 <= k < |ws| ==> Matches(s, user, ws[k])
    ensures UpdatedUpTo(s, user, time, ws, n) == n
  {
    if n > 0 {
      AllUpdated(s, user, time, ws, n - 1);
      Untouched(s, user, time, ws, n - 1, ws[n - 1].id);
    }
  }

  /** What is written for a page matches the graph it was read from. */
  lemma PageMatches(s: Nodes, user: nat, time: int, cursor: Option<nat>, limit: nat, c: Settings, rows: seq<Row>)
    requires IsPage(s, user, time, cursor, limit, rows)
    ensures var ws := ScoredWrites(rows, c, |rows|);
            DistinctIds(ws) && UpdatedUpTo(s, user, time, ws, |ws|) == |ws|
  {
    var ws := ScoredWrites(rows, c, |rows|);
    ScoredIncrease(rows, c, |rows|);
    forall k | 0 <= k < |ws| ensures Matches(s, user, ws[k]) {
      var i := ScoredFrom(rows, c, |rows|, k);
      assert Candidate(s, user, time, cursor, rows[i].id);
    }
    AllUpdated(s, user, time, ws, |ws|);
  }

  /** The counts of a run or a page: no conflicts, and who is invalid or lacks evidence. */
  ghost predicate CountsAre(s: Nodes, ids: seq<nat>, c: Counts) {
    && (forall id :: id in ids ==> id in s)
    && c.conflicts == 0 && c.invalid == Invalids(s, ids) && c.missing == Lacking(s, ids)
  }

  lemma CountsAdd(s: Nodes, a: seq<nat>, b: seq<nat>, c: Counts, d: Counts)
    requires CountsAre(s, a, c) && CountsAre(s, b, d)
    ensures CountsAre(s, a + b, Plus(c, d))
  {
    assert forall id :: id in a + b ==> id in a || id in b;
    CountsConcat(s, a, b);
  }

  lemma PageCountsAre(s: Nodes, user: nat, time: int, cursor: Option<nat>, c: Settings, rows: seq<Row>, page: Counts)
    requires IsPage(s, user, time, cursor, c.batchSize, rows) && Balanced(page, 0) && page.scanned == |rows|
    requires page.invalid == CountOf(rows, c, |rows|, InvalidState) && page.missing == CountOf(rows, c, |rows|, MissingEvidence)
    requires var ws := ScoredWrites(rows, c, |rows|); page.updated == if ws == [] then 0 else UpdatedUpTo(s, user, time, ws, |ws|)
    ensures CountsAre(s, Ids(rows), page)
  {
    forall i | 0 <= i < |rows| ensures rows[i].id in s && rows[i].node == s[rows[i].id] {
      assert Candidate(s, user, time, cursor, rows[i].id);
    }
    PageCounts(rows, c, s, |rows|);
    assert Ids(rows)[..|rows|] == Ids(rows);
    PageMatches(s, user, time, cursor, c.batchSize, c, rows);
    RowsAddUp(rows, c, |rows|);
  }

  lemma {:induction false} RowsAddUp(rows: seq<Row>, c: Settings, n: nat)
    requires n <= |rows|
    ensures n == |ScoredWrites(rows, c, n)| + CountOf(rows, c, n, InvalidState) + CountOf(rows, c, n, MissingEvidence)
  {
    if n > 0 {
      RowsAddUp(rows, c, n - 1);
    }
  }

  /** The counts do not change for memories that have not been written. */
  lemma {:induction false} CountsStay(s: Nodes, t: Nodes, ids: seq<nat>)
    requires forall id :: id in ids ==> id in s && id in t && t[id] == s[id]
    ensures Invalids(s, ids) == Invalids(t, ids) && Lacking(s, ids) == Lacking(t, ids)
  {
    if ids != [] {
      CountsStay(s, t, ids[..|ids| - 1]);
    }
  }

  /** Two parts of a run about different memories make one. */
  lemma QuietOn(s: Nodes, t: Nodes, u: Nodes, a: seq<nat>, b: seq<nat>, c: Settings, time: int, before: Counts, more: Counts)
    requires AllRescored(s, t, a, c, time) && CountsAre(s, a, before)
    requires AllRescored(t, u, b, c, time) && CountsAre(t, b, more) && forall id :: id in a ==> id !in b
    ensures AllRescored(s, u, a + b, c, time) && CountsAre(s, a + b, Plus(before, more))
  {
    CountsStay(s, t, b);
    CountsAdd(s, a, b, before, more);
    RescoredOn(s, t, u, a, b, c, time);
  }

  lemma PageIsNew(returned: seq<nat>, rows: seq<Row>, cursor: Option<nat>)
    requires (forall id :: id in returned ==> !Above(id, cursor)) && forall i :: 0 <= i < |rows| ==> Above(rows[i].id, cursor)
    ensures forall id :: id in returned ==> id !in Ids(rows)
  {
  }

  /** A page that was read from one graph and written to another, with its counts. */
  ghost predicate PageIsDone(read: Nodes, t: Nodes, wrote: Nodes, user: nat, time: int, cursor: Option<nat>, c: Settings, rows: seq<Row>, page: Counts) {
    && IsPage(read, user, time, cursor, c.batchSize, rows) && Balanced(page, 0) && page.scanned == |rows|
    && page.invalid == CountOf(rows, c, |rows|, InvalidState) && page.missing == CountOf(rows, c, |rows|, MissingEvidence)
    && var ws := ScoredWrites(rows, c, |rows|);
    && wrote == (if ws == [] then read else WrittenUpTo(t, user, time, ws, |ws|))
    && page.updated == if ws == [] then 0 else UpdatedUpTo(t, user, time, ws, |ws|)
  }

  /** What a page wrote, and if nobody else wrote, what it comes to. */
  lemma PageComesTo(read: Nodes, t: Nodes, wrote: Nodes, user: nat, time: int, cursor: Option<nat>, c: Settings, rows: seq<Row>, page: Counts)
    requires ValidSettings(c) && PageIsDone(read, t, wrote, user, time, cursor, c, rows, page)
    ensures PageWritten(read, wrote, user, time, c, rows) || PageWritten(t, wrote, user, time, c, rows)
    ensures t == read ==> AllRescored(read, wrote, Ids(rows), c, time) && CountsAre(read, Ids(rows), page)
  {
    PageIsWritten(read, t, wrote, user, time, c, rows);
    if t == read {
      PageCountsAre(read, user, time, cursor, c, rows, page);
      PageRescores(read, wrote, user, time, cursor, c.batchSize, c, rows);
    }
  }

  lemma QuietPageOn(s: Nodes, t: Nodes, after: Nodes, returned: seq<nat>, user: nat, time: int, cursor: Option<nat>, c: Settings,
                    rows: seq<Row>, before: Counts, page: Counts)
    requires ValidSettings(c) && AllRescored(s, t, returned, c, time) && CountsAre(s, returned, before)
    requires PageIsDone(t, t, after, user, time, cursor, c, rows, page)
    requires (forall id :: id in returned ==> !Above(id, cursor)) && forall i :: 0 <= i < |rows| ==> Above(rows[i].id, cursor)
    ensures AllRescored(s, after, returned + Ids(rows), c, time) && CountsAre(s, returned + Ids(rows), Plus(before, page))
  {
    PageIsNew(returned, rows, cursor);
    PageComesTo(t, t, after, user, time, cursor, c, rows, page);
    QuietOn(s, t, after, returned, Ids(rows), c, time, before, page);
  }

  class Consolidation {
    /** What other writers do before the n-th call, and whether that call fails. */
    const env: (nat, Nodes) -> Nodes
    const fails: nat -> bool
    const settings: Settings
    var nodes: Nodes
    var calls: nat
    var held: bool

    constructor (env: (nat, Nodes) -> Nodes, fails: nat -> bool, settings: Settings, nodes: Nodes)
      ensures this.env == env && this.fails == fails && this.settings == settings && this.nodes == nodes && calls == 0 && !held
    {
      this.env, this.fails, this.settings, this.nodes, this.calls, this.held := env, fails, settings, nodes, 0, false;
    }

    /** Other writers evolve the graph; all memory ids ever used are in `universe`. */
    ghost predicate Benign(universe: set<nat>)
      reads this
    {
      && nodes.Keys <= universe
      && forall k, s :: Evolves(s, env(k, s)) && (s.Keys <= universe ==> env(k, s).Keys <= universe)
    }

    /** No memory has an empty id or a version below 1. */
    ghost predicate Sound(universe: set<nat>)
      reads this
    {
      0 !in universe && AllVersioned(nodes) && forall k, s :: AllVersioned(s) ==> AllVersioned(env(k, s))
    }

    /** Nobody else writes. */
    ghost predicate Quiet() { forall k, s :: env(k, s) == s }

    /** Each memory of the list has its new importance, no other memory has changed, and the
        counts are those of the list. */
    ghost predicate HasRescored(s: Nodes, ids: seq<nat>, c: Counts, time: int)
      reads this
    {
      AllRescored(s, nodes, ids, settings, time) && CountsAre(s, ids, c)
    }

    ghost predicate Failed(before: nat)
      reads this
    {
      exists k :: before <= k < calls && fails(k)
    }

    /** The moment before a call to the graph. */
    method Call() returns (ok: bool)
      modifies this`nodes, this`calls
      ensures nodes == env(old(calls), old(nodes)) && calls == old(calls) + 1 && ok == !fails(old(calls))
    {
      nodes := env(calls, nodes);
      ok := !fails(calls);
      calls := calls + 1;
    }

    /** `write_batch`: partition, then the version-checked write. */
    method WriteBatch(user: nat, time: int, ws: seq<Write>) returns (ok: bool, updated: nat, conflicts: int, rejected: nat)
      modifies this`nodes, this`calls
      ensures calls <= old(calls) + 1 && (!ok ==> Failed(old(calls))) && old(calls) <= calls
      ensures var s := if calls == old(calls) then old(nodes) else env(old(calls), old(nodes));
              var valid := ValidRows(ws, |ws|);
              && (calls == old(calls) <==> valid == [])
              && nodes == (if ok then WrittenUpTo(s, user, time, valid, |valid|) else s)
              && (ok ==> updated == UpdatedUpTo(s, user, time, valid, |valid|))
              && (ok ==> |ws| == updated + conflicts + rejected && 0 <= conflicts && rejected == |ws| - |valid|)
    {
      var valid, refused := PartitionRows(ws);
      rejected := refused;
      if valid == [] {
        return true, 0, 0, rejected;
      }
      ok := Call();
      updated, conflicts := 0, 0;
      if !ok {
        return;
      }
      ghost var s := nodes;
      for n := 0 to |valid|
        invariant calls == old(calls) + 1
        invariant nodes == WrittenUpTo(s, user, time, valid, n) && updated == UpdatedUpTo(s, user, time, valid, n)
      {
        var w := valid[n];
        if w.id in nodes && nodes[w.id].user == user && nodes[w.id].version == Some(w.version) {
          nodes := nodes[w.id := nodes[w.id].(importance := w.importance, last := Some(time))];
          updated := updated + 1;
        }
      }
      conflicts := |valid| - updated;
    }

    /** Score the rows of a page and write what was scored. */
    method ScoreAndWrite(user: nat, time: int, rows: seq<Row>) returns (ok: bool, page: Counts, rejected: nat)
      modifies this`nodes, this`calls
      ensures old(calls) <= calls <= old(calls) + 1 && (!ok ==> Failed(old(calls)))
      ensures ok ==> page.scanned == |rows| && page.batches == 1 && Balanced(page, rejected)
      ensures var ws := ScoredWrites(rows, settings, |rows|);
              var valid := ValidRows(ws, |ws|);
              && (calls == old(calls) <==> valid == [])
              && (ok ==> rejected == |ws| - |valid|)
              && (ok ==> page.updated == if valid == [] then 0 else UpdatedUpTo(env(old(calls), old(nodes)), user, time, valid, |valid|))
              && (ok ==> page.invalid == CountOf(rows, settings, |rows|, InvalidState) && page.missing == CountOf(rows, settings, |rows|, MissingEvidence))
              && nodes == if valid == [] then old(nodes) else
                          var t := env(old(calls), old(nodes)); if ok then WrittenUpTo(t, user, time, valid, |valid|) else t
    {
      var scored, invalid, missing := ProcessBatch(rows, settings);
      ok, page, rejected := true, Counts(|rows|, 0, 0, invalid, missing, 1), 0;
      if scored != [] {
        var updated, conflicts;
        ok, updated, conflicts, rejected := WriteBatch(user, time, scored);
        page := page.(updated := updated, conflicts := conflicts);
      }
    }

    /** One page: read, score, write what was scored. An empty cursor is refused. */
    method ScanPage(user: nat, time: int, cursor: Option<nat>, ghost universe: set<nat>)
      returns (ok: bool, rows: seq<Row>, page: Counts, rejected: nat)
      requires Benign(universe) && 0 < settings.batchSize
      modifies this`nodes, this`calls
      ensures Benign(universe) && old(calls) <= calls
      ensures !ok ==> Failed(old(calls)) || cursor == Some(0)
      ensures ok ==> |rows| <= settings.batchSize && Increasing(Ids(rows))
      ensures ok ==> forall i :: 0 <= i < |rows| ==> rows[i].id in universe && Above(rows[i].id, cursor)
      ensures ok ==> page.scanned == |rows| && page.batches == 1 && Balanced(page, rejected)
      ensures ok ==> PageCovers(old(nodes), nodes, user, time, cursor, settings.batchSize, rows)
      ensures ok ==> UsersKept(old(nodes), nodes, user, time)
      ensures ok ==> forall i :: 0 <= i < |rows| ==> rows[i].id in nodes && nodes[rows[i].id].user == user
      ensures ok && old(Sound(universe)) ==> Sound(universe) && (ValidSettings(settings) ==> rejected == 0)
      // what it read, and what it wrote after whatever others did in between
      ensures ok && old(Sound(universe)) && ValidSettings(settings) ==>
                var read := env(old(calls), old(nodes));
                PageIsDone(read, env(old(calls) + 1, read), nodes, user, time, cursor, settings, rows, page)
    {
      rows, page, rejected := [], ZERO, 0;
      if cursor == Some(0) {
        return false, rows, page, rejected;
      }
      ok := Call();
      if !ok {
        return;
      }
      ghost var read := nodes;
      rows := FetchCandidateBatch(nodes, user, time, cursor, settings.batchSize);
      ok, page, rejected := ScoreAndWrite(user, time, rows);
      if ok {
        PageLaws(old(nodes), read, nodes, user, time, cursor, settings, rows, env(old(calls) + 1, read));
        PageKeepsUsers(old(nodes), read, nodes, user, time, settings, rows, env(old(calls) + 1, read));
      }
    }

    /** One page further in the scan of a user. */
    method NextPage(user: nat, time: int, cursor: Option<nat>, ghost start: Nodes, ghost returned: seq<nat>, ghost c: Counts,
                    ghost universe: set<nat>, ghost quiet: bool)
      returns (ok: bool, rows: seq<Row>, page: Counts, rejected: nat)
      requires Benign(universe) && 0 < settings.batchSize && Scanning(start, nodes, user, time, universe, cursor, returned)
      requires quiet ==> Quiet() && Sound(universe) && ValidSettings(settings) && HasRescored(start, returned, c, time)
      modifies this`nodes, this`calls
      ensures Benign(universe) && old(calls) <= calls
      ensures !ok ==> Failed(old(calls)) || cursor == Some(0)
      ensures ok ==> |rows| <= settings.batchSize && page.scanned == |rows| && page.batches == 1 && Balanced(page, rejected)
      ensures ok && |rows| < settings.batchSize ==> ScanDone(start, nodes, user, time, returned + Ids(rows))
      ensures ok && |rows| == settings.batchSize ==>
                var next := Some(rows[|rows| - 1].id);
                Scanning(start, nodes, user, time, universe, next, returned + Ids(rows)) && Beyond(universe, next) < Beyond(universe, cursor)
      ensures ok && old(Sound(universe)) ==> Sound(universe) && (ValidSettings(settings) ==> rejected == 0)
      ensures ok && quiet ==> HasRescored(start, returned + Ids(rows), Plus(c, page), time)
    {
      ok, rows, page, rejected := ScanPage(user, time, cursor, universe);
      if ok {
        ScanningStep(start, old(nodes), nodes, user, time, universe, cursor, settings.batchSize, rows, returned);
        if quiet {
          QuietPageOn(start, old(nodes), nodes, returned, user, time, cursor, settings, rows, c, page);
        }
      }
    }

    /** The cursor loop for one user: every memory eligible at its start is returned exactly
        once, in increasing id order, whatever the run's own writes and other writers do. */
    method ScanUser(user: nat, time: int, ghost universe: set<nat>)
      returns (ok: bool, returned: seq<nat>, c: Counts, rejected: nat)
      requires Benign(universe) && 0 < settings.batchSize
      modifies this`nodes, this`calls
      ensures Benign(universe) && old(calls) <= calls
      ensures !ok ==> Failed(old(calls)) || 0 in universe
      ensures ok ==> ScanDone(old(nodes), nodes, user, time, returned)
      ensures ok ==> c.scanned == |returned| && Balanced(c, rejected)
      ensures ok ==> PagesFor(|returned|, c.batches, settings.batchSize)
      ensures ok && old(Sound(universe)) ==> Sound(universe) && (ValidSettings(settings) ==> rejected == 0)
      ensures ok && Quiet() && old(Sound(universe)) && ValidSettings(settings) ==> HasRescored(old(nodes), returned, c, time)
    {
      returned, c, rejected := [], ZERO, 0;
      ghost var sound := Sound(universe);
      ghost var quiet := sound && Quiet() && ValidSettings(settings);
      var cursor: Option<nat> := None;
      while true
        invariant Benign(universe) && old(calls) <= calls
        invariant Scanning(old(nodes), nodes, user, time, universe, cursor, returned)
        invariant c.scanned == |returned| && Balanced(c, rejected)
        invariant FullPages(|returned|, c.batches, settings.batchSize)
        invariant sound ==> Sound(universe) && (ValidSettings(settings) ==> rejected == 0)
        invariant quiet ==> HasRescored(old(nodes), returned, c, time)
        decreases Beyond(universe, cursor)
      {
        var rows, page, refused;
        ok, rows, page, refused := NextPage(user, time, cursor, old(nodes), returned, c, universe, quiet);
        if !ok {
          return;
        }
        OneMorePage(|returned|, c.batches, settings.batchSize, |rows|);
        returned, c, rejected := returned + Ids(rows), Plus(c, page), rejected + refused;
        if |rows| < settings.batchSize {
          break;
        }
        cursor := Some(rows[|rows| - 1].id);
      }
    }

    /** `list_user_ids`: the users with an eligible memory, each once. */
    method ListUsers(time: int) returns (ok: bool, users: seq<nat>)
      modifies this`nodes, this`calls
      ensures calls == old(calls) + 1 && nodes == env(old(calls), old(nodes)) && (!ok ==> Failed(old(calls)))
      ensures ok ==> Increasing(users) && forall u :: u in users <==> HasEligible(nodes, u, time)
    {
      ok := Call();
      users := UsersOf(nodes, time);
    }

    /** `execute_run`: skipped while a run holds the mutex; otherwise every memory eligible
        at the start, of any user, is scanned exactly once, everything scanned is accounted
        for, and the mutex is released however the run ends. */
    method ExecuteRun(time: int, ghost universe: set<nat>) returns (status: RunStatus, c: Counts, ghost scanned: seq<nat>, ghost rejected: nat)
      requires Benign(universe) && 0 < settings.batchSize
      modifies this
      ensures status.Skipped? <==> old(held)
      ensures held == old(held)
      ensures status.Skipped? ==> c == ZERO && nodes == old(nodes)
      ensures status.Failure? ==> Failed(old(calls)) || 0 in universe
      ensures status.Success? ==> NoRepeats(scanned) && c.scanned == |scanned| && Balanced(c, rejected)
      ensures status.Success? ==> forall id, u: nat :: Candidate(old(nodes), u, time, None, id) ==> id in scanned
      ensures status.Success? && old(Sound(universe)) && ValidSettings(settings) ==> rejected == 0
      ensures status.Success? && Quiet() && old(Sound(universe)) && ValidSettings(settings) ==> HasRescored(old(nodes), scanned, c, time)
    {
      c, scanned, rejected := ZERO, [], 0;
      if held {
        return Skipped, c, scanned, rejected;
      }
      held := true;
      status, c, scanned, rejected := RunAllUsers(time, universe);
      held := false;
    }

    method RunAllUsers(time: int, ghost universe: set<nat>) returns (status: RunStatus, c: Counts, ghost scanned: seq<nat>, ghost rejected: nat)
      requires Benign(universe) && 0 < settings.batchSize
      modifies this`nodes, this`calls
      ensures !status.Skipped? && (status.Failure? ==> Failed(old(calls)) || 0 in universe)
      ensures status.Success? ==> NoRepeats(scanned) && c.scanned == |scanned| && Balanced(c, rejected)
      ensures status.Success? ==> forall id, u: nat :: Candidate(old(nodes), u, time, None, id) ==> id in scanned
      ensures status.Success? && old(Sound(universe)) && ValidSettings(settings) ==> rejected == 0
      ensures status.Success? && Quiet() && old(Sound(universe)) && ValidSettings(settings) ==> HasRescored(old(nodes), scanned, c, time)
    {
      c, scanned, rejected := ZERO, [], 0;
      ghost var sound := Sound(universe);
      ghost var quiet := sound && Quiet() && ValidSettings(settings);
      var ok, users := ListUsers(time);
      if !ok {
        return Failure, c, scanned, rejected;
      }
      ghost var start := nodes;
      for k := 0 to |users|
        invariant Benign(universe) && old(calls) <= calls
        invariant NoRepeats(scanned) && c.scanned == |scanned| && Balanced(c, rejected)
        invariant forall id :: id in scanned ==> id in nodes && nodes[id].user in users[..k]
        invariant forall id, i :: 0 <= i < k && Candidate(start, users[i], time, None, id) ==> id in scanned
        invariant forall id, i :: k <= i < |users| && Candidate(start, users[i], time, None, id) ==> Candidate(nodes, users[i], time, None, id)
        invariant sound ==> Sound(universe) && (ValidSettings(settings) ==> rejected == 0)
        invariant quiet ==> HasRescored(old(nodes), scanned, c, time)
      {
        label User:
        var returned, count;
        ghost var refused;
        ok, returned, count, refused := ScanUser(users[k], time, universe);
        if !ok {
          return Failure, c, scanned, rejected;
        }
        NoRepeatsAppend(scanned, returned, nodes, users, k);
        if quiet {
          QuietOn(old(nodes), old@User(nodes), nodes, scanned, returned, settings, time, c, count);
        }
        scanned := scanned + returned;
        c := Plus(c, count);
        rejected := rejected + refused;
      }
      forall id, u: nat | Candidate(old(nodes), u, time, None, id) ensures id in scanned {
        EvolvedCandidate(old(nodes), start, u, time, None, id);
        assert HasEligible(start, u, time);
        var i :| 0 <= i < |users| && users[i] == u;
      }
      status := Success;
    }
  }

  ghost predicate HasEligible(s: Nodes, user: nat, time: int) { exists id :: Candidate(s, user, time, None, id) }

  method UsersOf(s: Nodes, time: int) returns (users: seq<nat>)
    ensures Increasing(users) && forall u :: u in users <==> HasEligible(s, u, time)
  {
    users := [];
    var all := set id | id in s && Eligible(s[id], s[id].user, time) :: s[id].user;
    forall u ensures u in all <==> HasEligible(s, u, time) {
      if HasEligible(s, u, time) {
        var id :| Candidate(s, u, time, None, id);
        assert s[id].user in all;
      }
      if u in all {
        var id :| id in s && Eligible(s[id], s[id].user, time) && s[id].user == u;
        assert Candidate(s, u, time, None, id);
      }
    }
    var left := all;
    while left != {}
      invariant left <= all && Increasing(users)
      invariant forall i, v :: 0 <= i < |users| && v in left ==> users[i] < v
      invariant forall u :: u in users || u in left <==> u in all
      decreases left
    {
      var u := Least(left);
      users, left := users + [u], left - {u};
    }
  }

  function Plus(a: Counts, b: Counts): Counts {
    Counts(a.scanned + b.scanned, a.updated + b.updated, a.conflicts + b.conflicts, a.invalid + b.invalid,
           a.missing + b.missing, a.batches + b.batches)
  }

  predicate NoRepeats(ids: seq<nat>) { forall i, j :: 0 <= i < j < |ids| ==> ids[i] != ids[j] }

  lemma NoRepeatsAppend(scanned: seq<nat>, returned: seq<nat>, s: Nodes, users: seq<nat>, k: nat)
    requires k < |users| && Increasing(users) && NoRepeats(scanned) && Increasing(returned)
    requires forall id :: id in scanned ==> id in s && s[id].user in users[..k]
    requires forall id :: id in returned ==> id in s && s[id].user == users[k]
    ensures NoRepeats(scanned + returned)
  {
    forall i, j | 0 <= i < |scanned| && 0 <= j < |returned| ensures scanned[i] != returned[j] {
      assert scanned[i] in scanned && returned[j] in returned;
      var u := s[scanned[i]].user;
      assert u in users[..k];
      assert u < users[k];
    }
  }

  /** Where the scan stands after some pages. */
  ghost predicate Scanning(start: Nodes, now: Nodes, user: nat, time: int, universe: set<nat>, cursor: Option<nat>, returned: seq<nat>) {
    && Increasing(returned) && (forall id :: id in returned ==> !Above(id, cursor)) && (cursor.Some? ==> cursor.value in universe)
    && AllOf(now, user, returned) && UsersKept(start, now, user, time) && Awaited(start, now, user, time, cursor, returned)
  }

  ghost predicate ScanDone(start: Nodes, now: Nodes, user: nat, time: int, returned: seq<nat>) {
    && Increasing(returned) && AllOf(now, user, returned) && UsersKept(start, now, user, time)
    && forall id :: Candidate(start, user, time, None, id) ==> id in returned
  }

  /** One page further: either the scan is done, or the cursor has moved up. */
  lemma ScanningStep(start: Nodes, now: Nodes, after: Nodes, user: nat, time: int, universe: set<nat>, cursor: Option<nat>,
                     limit: nat, rows: seq<Row>, returned: seq<nat>)
    requires 0 < limit && |rows| <= limit && Scanning(start, now, user, time, universe, cursor, returned)
    requires Increasing(Ids(rows)) && forall i :: 0 <= i < |rows| ==> rows[i].id in universe && Above(rows[i].id, cursor)
    requires forall i :: 0 <= i < |rows| ==> rows[i].id in after && after[rows[i].id].user == user
    requires PageCovers(now, after, user, time, cursor, limit, rows) && UsersKept(now, after, user, time)
    ensures |rows| < limit ==> ScanDone(start, after, user, time, returned + Ids(rows))
    ensures |rows| == limit ==> Scanning(start, after, user, time, universe, Some(rows[|rows| - 1].id), returned + Ids(rows))
    ensures |rows| == limit ==> Beyond(universe, Some(rows[|rows| - 1].id)) < Beyond(universe, cursor)
  {
    AwaitedAfterPage(start, now, after, user, time, cursor, limit, rows, returned);
    IncreasingAppend(returned, rows, cursor);
    UsersKeptOn(start, now, after, user, time, returned, rows);
    if rows != [] {
      LastIsBeyond(universe, cursor, rows, returned);
    }
  }

  ghost predicate AllOf(s: Nodes, user: nat, ids: seq<nat>) { forall id :: id in ids ==> id in s && s[id].user == user }

  lemma UsersKeptOn(start: Nodes, now: Nodes, after: Nodes, user: nat, time: int, returned: seq<nat>, rows: seq<Row>)
    requires UsersKept(start, now, user, time) && UsersKept(now, after, user, time) && AllOf(now, user, returned)
    requires forall i :: 0 <= i < |rows| ==> rows[i].id in after && after[rows[i].id].user == user
    ensures UsersKept(start, after, user, time) && AllOf(after, user, returned + Ids(rows))
  {
  }

  /** The cursor moves up to the page's last id. */
  lemma LastIsBeyond(universe: set<nat>, cursor: Option<nat>, rows: seq<Row>, returned: seq<nat>)
    requires rows != [] && Increasing(Ids(rows)) && forall i :: 0 <= i < |rows| ==> rows[i].id in universe && Above(rows[i].id, cursor)
    requires forall id :: id in returned ==> !Above(id, cursor)
    ensures var next := Some(rows[|rows| - 1].id);
            Beyond(universe, next) < Beyond(universe, cursor) && forall id :: id in returned + Ids(rows) ==> !Above(id, next)
  {
    RowsUpToLast(rows);
    var last := rows[|rows| - 1].id;
    assert last in Beyond(universe, cursor) && last !in Beyond(universe, Some(last));
    assert Above(last, cursor);
  }

  /** The ids above the cursor: what the scan has still ahead of it. */
  function Beyond(universe: set<nat>, cursor: Option<nat>): set<nat> {
    set id | id in universe && Above(id, cursor)
  }

  /** Everything eligible at the start is returned or still a candidate above the cursor. */
  ghost predicate Awaited(start: Nodes, now: Nodes, user: nat, time: int, cursor: Option<nat>, returned: seq<nat>) {
    forall id :: Candidate(start, user, time, None, id) ==> id in returned || Candidate(now, user, time, cursor, id)
  }

  lemma AwaitedAfterPage(start: Nodes, now: Nodes, after: Nodes, user: nat, time: int, cursor: Option<nat>, limit: nat, rows: seq<Row>, returned: seq<nat>)
    requires 0 < limit && |rows| <= limit
    requires Awaited(start, now, user, time, cursor, returned) && PageCovers(now, after, user, time, cursor, limit, rows)
    ensures |rows| < limit ==> forall id :: Candidate(start, user, time, None, id) ==> id in returned + Ids(rows)
    ensures |rows| == limit ==> Awaited(start, after, user, time, Some(rows[|rows| - 1].id), returned + Ids(rows))
  {
    forall id | Candidate(start, user, time, None, id) && id !in returned + Ids(rows)
      ensures |rows| == limit && Candidate(after, user, time, Some(rows[|rows| - 1].id), id)
    {
      assert Candidate(now, user, time, cursor, id);
    }
  }

  lemma IncreasingAppend(returned: seq<nat>, rows: seq<Row>, cursor: Option<nat>)
    requires Increasing(returned) && Increasing(Ids(rows)) && forall id :: id in returned ==> !Above(id, cursor)
    requires forall i :: 0 <= i < |rows| ==> Above(rows[i].id, cursor)
    ensures Increasing(returned + Ids(rows))
  {
    forall i, j | 0 <= i < |returned| && 0 <= j < |rows| ensures returned[i] < Ids(rows)[j] {
      assert returned[i] in returned;
    }
  }

  lemma PageLaws(s: Nodes, read: Nodes, wrote: Nodes, user: nat, time: int, cursor: Option<nat>, c: Settings, rows: seq<Row>, t: Nodes)
    requires 0 < c.batchSize && Evolves(s, read) && IsPage(read, user, time, cursor, c.batchSize, rows) && Evolves(read, t)
    requires var ws := ScoredWrites(rows, c, |rows|);
             var valid := ValidRows(ws, |ws|);
             wrote == if valid == [] then read else WrittenUpTo(t, user, time, valid, |valid|)
    ensures PageCovers(s, wrote, user, time, cursor, c.batchSize, rows)
    ensures wrote.Keys == read.Keys || wrote.Keys == t.Keys
    ensures AllVersioned(read) && AllVersioned(t) ==> AllVersioned(wrote)
    ensures AllVersioned(read) && 0 !in read && ValidSettings(c) ==>
              ValidRows(ScoredWrites(rows, c, |rows|), |ScoredWrites(rows, c, |rows|)|) == ScoredWrites(rows, c, |rows|)
  {
    var ws := ScoredWrites(rows, c, |rows|);
    var valid := ValidRows(ws, |ws|);
    PageCoversCandidates(s, read, wrote, user, time, cursor, c, rows);
    WriteEvolves(t, user, time, valid);
    if AllVersioned(read) && 0 !in read && ValidSettings(c) {
      PageIsAdmissible(rows, c);
    }
  }

  lemma WriteKeepsUsers(s: Nodes, user: nat, time: int, ws: seq<Write>)
    ensures UsersKept(s, WrittenUpTo(s, user, time, ws, |ws|), user, time)
  {
    var t := WrittenUpTo(s, user, time, ws, |ws|);
    forall id | id in s ensures id in t && t[id].user == s[id].user && (t[id] != s[id] ==> s[id].user == user) {
      WriteTouches(s, user, time, ws, |ws|, id);
    }
  }

  lemma PageKeepsUsers(s: Nodes, read: Nodes, wrote: Nodes, user: nat, time: int, c: Settings, rows: seq<Row>, t: Nodes)
    requires Evolves(s, read) && Evolves(read, t)
    requires var ws := ScoredWrites(rows, c, |rows|);
             var valid := ValidRows(ws, |ws|);
             wrote == if valid == [] then read else WrittenUpTo(t, user, time, valid, |valid|)
    ensures UsersKept(s, wrote, user, time)
    ensures forall id :: id in read ==> id in wrote && wrote[id].user == read[id].user
  {
    var ws := ScoredWrites(rows, c, |rows|);
    WriteKeepsUsers(t, user, time, ValidRows(ws, |ws|));
  }
}
