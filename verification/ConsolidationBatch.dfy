/** One page of a consolidation run: query, scoring, version-checked write. Ids are numbered in
    string order, id 0 being the empty string; importances are in units of 0.0001. */
module ConsolidationBatch {
  import opened Options
  import Confidence

  datatype Status = Active | Conflicted | Superseded | Other

  /** A memory node. `mappable`: its properties have the right types; `validInput`: they
      have admissible values; `raw`: its importance before clamping, from exp and log. */
  datatype Node = Node(
    user: nat, created: int, last: Option<int>, status: Status, version: Option<int>,
    mappable: bool, validInput: bool, archives: nat, raw: real, importance: int)

  type Nodes = map<nat, Node>

  datatype Settings = Settings(batchSize: nat, minImportance: real, conflictedMin: real, maxImportance: real)

  /** What the settings validation demands here. */
  predicate ValidSettings(c: Settings) {
    0 < c.batchSize && 0.0 <= c.minImportance <= c.conflictedMin <= c.maxImportance <= 1.0
  }

  // ----- the keyset query -----

  predicate Eligible(n: Node, user: nat, time: int) {
    n.user == user && n.created <= time && (n.last.None? || n.last.value < time) && !n.status.Other?
  }

  predicate Above(id: nat, cursor: Option<nat>) { cursor.None? || cursor.value < id }

  predicate Candidate(s: Nodes, user: nat, time: int, cursor: Option<nat>, id: nat) {
    id in s && Eligible(s[id], user, time) && Above(id, cursor)
  }

  datatype Row = Row(id: nat, node: Node)

  predicate Increasing(ids: seq<nat>) { forall i, j :: 0 <= i < j < |ids| ==> ids[i] < ids[j] }

  function Ids(rows: seq<Row>): (r: seq<nat>)
    ensures |r| == |rows| && forall i :: 0 <= i < |rows| ==> r[i] == rows[i].id
  {
    seq(|rows|, i requires 0 <= i < |rows| => rows[i].id)
  }

  /** The result of the query: the first candidates in id order, up to the limit. */
  ghost predicate IsPage(s: Nodes, user: nat, time: int, cursor: Option<nat>, limit: nat, rows: seq<Row>) {
    && |rows| <= limit && Increasing(Ids(rows))
    && (forall i :: 0 <= i < |rows| ==> Candidate(s, user, time, cursor, rows[i].id) && rows[i].node == s[rows[i].id])
    && (forall id :: Candidate(s, user, time, cursor, id) && id !in Ids(rows) ==>
          |rows| == limit && forall i :: 0 <= i < |rows| ==> rows[i].id < id)
  }

  /** The query, by taking the least remaining candidate until the limit. */
  method FetchCandidateBatch(s: Nodes, user: nat, time: int, cursor: Option<nat>, limit: nat) returns (rows: seq<Row>)
    ensures IsPage(s, user, time, cursor, limit, rows)
  {
    rows := [];
    var left := set id | id in s && s[id].user == user && s[id].created <= time && (s[id].last == None || s[id].last.value < time)
                         && s[id].status in {Active, Conflicted, Superseded} && (cursor == None || cursor.value < id);
    while left != {} && |rows| < limit
      invariant |rows| <= limit && Increasing(Ids(rows))
      invariant forall i :: 0 <= i < |rows| ==> Candidate(s, user, time, cursor, rows[i].id) && rows[i].node == s[rows[i].id]
      invariant forall id :: Candidate(s, user, time, cursor, id) <==> id in left || id in Ids(rows)
      invariant forall id, i :: id in left && 0 <= i < |rows| ==> rows[i].id < id
      decreases left
    {
      var id := Least(left);
      ghost var before := rows;
      rows, left := rows + [Row(id, s[id])], left - {id};
      assert Ids(rows) == Ids(before) + [id];
    }
  }

  method Least(ids: set<nat>) returns (m: nat)
    requires ids != {}
    ensures m in ids && forall x :: x in ids ==> m <= x
  {
    m :| m in ids;
    var left := ids - {m};
    while left != {}
      invariant left <= ids && m in ids
      invariant forall x :: x in ids ==> x in left || m <= x
      decreases left
    {
      var x :| x in left;
      if x < m {
        m := x;
      }
      left := left - {x};
    }
  }

  // ----- scoring -----

  function Clamp(x: real, lower: real, upper: real): real {
    var capped := if x < upper then x else upper;
    if lower < capped then capped else lower
  }

  /** `compute_new_importance`. */
  function NewImportance(n: Node, c: Settings): int {
    Confidence.RoundToUnits(Clamp(n.raw, if n.status.Conflicted? then c.conflictedMin else c.minImportance, c.maxImportance))
  }

  /** With validated settings the rounded importance is between 0 and 1, whatever the raw
      value, and no smaller than the rounded floor of its status. */
  lemma ImportanceInRange(n: Node, c: Settings)
    requires ValidSettings(c)
    ensures 0 <= NewImportance(n, c) <= Confidence.UNITS
    ensures Confidence.RoundToUnits(c.minImportance) <= NewImportance(n, c) <= Confidence.RoundToUnits(c.maxImportance)
    ensures n.status.Conflicted? ==> Confidence.RoundToUnits(c.conflictedMin) <= NewImportance(n, c)
  {
    var floor := if n.status.Conflicted? then c.conflictedMin else c.minImportance;
    var clamped := Clamp(n.raw, floor, c.maxImportance);
    assert 0.0 <= c.minImportance <= floor <= clamped <= c.maxImportance <= 1.0;
    Confidence.NearestIsMonotone(0.0, c.minImportance * 10000.0);
    Confidence.NearestIsMonotone(c.minImportance * 10000.0, floor * 10000.0);
    Confidence.NearestIsMonotone(floor * 10000.0, clamped * 10000.0);
    Confidence.NearestIsMonotone(clamped * 10000.0, c.maxImportance * 10000.0);
    Confidence.NearestIsMonotone(c.maxImportance * 10000.0, 10000.0);
  }

  /** The lowest importance a memory of this status may get. */
  function Floor(n: Node, c: Settings): real { if n.status.Conflicted? then c.conflictedMin else c.minImportance }

  /** What the rescored importance is: the raw value rounded, within the bounds. */
  ghost predicate IsNewImportance(n: Node, c: Settings, importance: int) {
    && (n.raw < Floor(n, c) ==> importance == Confidence.RoundToUnits(Floor(n, c)))
    && (Floor(n, c) <= n.raw <= c.maxImportance ==> importance == Confidence.RoundToUnits(n.raw))
    && (c.maxImportance < n.raw ==> importance == Confidence.RoundToUnits(c.maxImportance))
  }

  /** The new importance follows the raw one between the floor of the status and the maximum,
      and stops at both. */
  lemma NewImportanceIs(n: Node, c: Settings, importance: int)
    requires ValidSettings(c)
    ensures IsNewImportance(n, c, importance) <==> importance == NewImportance(n, c)
    ensures Floor(n, c) == c.conflictedMin || !n.status.Conflicted?
    ensures Floor(n, c) == c.minImportance || n.status.Conflicted?
  {
  }

  /** A higher raw importance never gives a lower one, nor does being in conflict. */
  lemma ImportanceIsMonotone(m: Node, n: Node, c: Settings)
    requires ValidSettings(c) && m.raw <= n.raw && (m.status.Conflicted? ==> n.status.Conflicted?)
    ensures NewImportance(m, c) <= NewImportance(n, c)
  {
    Confidence.NearestIsMonotone(Clamp(m.raw, Floor(m, c), c.maxImportance) * 10000.0, Clamp(n.raw, Floor(n, c), c.maxImportance) * 10000.0);
  }

  method ComputeNewImportance(n: Node, c: Settings) returns (importance: int)
    ensures importance == NewImportance(n, c)
  {
    var value := n.raw;
    if c.maxImportance <= value {
      value := c.maxImportance;
    }
    if n.status.Conflicted? {
      if value <= c.conflictedMin {
        value := c.conflictedMin;
      }
    } else if value <= c.minImportance {
      value := c.minImportance;
    }
    importance := Confidence.RoundToUnits(value);
  }

  datatype Write = Write(id: nat, importance: int, version: int)

  datatype Outcome = Scored(write: Write) | InvalidState | MissingEvidence

  /** `_process_row`. */
  function ProcessRow(r: Row, c: Settings): Outcome {
    if !r.node.mappable || !r.node.validInput then InvalidState
    else if r.node.archives == 0 then MissingEvidence
    else if r.node.version.None? then InvalidState
    else Scored(Write(r.id, NewImportance(r.node, c), r.node.version.value))
  }

  /** The writes of the first `n` rows, in order. */
  function ScoredWrites(rows: seq<Row>, c: Settings, n: nat): (r: seq<Write>)
    requires n <= |rows|
    ensures |r| <= n
  {
    if n == 0 then []
    else
      var o := ProcessRow(rows[n - 1], c);
      ScoredWrites(rows, c, n - 1) + if o.Scored? then [o.write] else []
  }

  /** How many of the first `n` rows have the outcome `o`, which is not a score. */
  function CountOf(rows: seq<Row>, c: Settings, n: nat, o: Outcome): nat
    requires n <= |rows|
  {
    if n == 0 then 0 else CountOf(rows, c, n - 1, o) + if ProcessRow(rows[n - 1], c) == o then 1 else 0
  }

  /** `process_batch`: every row is scored or skipped for one reason. */
  method ProcessBatch(rows: seq<Row>, c: Settings) returns (scored: seq<Write>, invalid: nat, missing: nat)
    ensures scored == ScoredWrites(rows, c, |rows|)
    ensures invalid == CountOf(rows, c, |rows|, InvalidState) && missing == CountOf(rows, c, |rows|, MissingEvidence)
    ensures |rows| == |scored| + invalid + missing
  {
    scored, invalid, missing := [], 0, 0;
    for n := 0 to |rows|
      invariant scored == ScoredWrites(rows, c, n)
      invariant invalid == CountOf(rows, c, n, InvalidState) && missing == CountOf(rows, c, n, MissingEvidence)
      invariant n == |scored| + invalid + missing
    {
      var node := rows[n].node;
      if !node.mappable || !node.validInput {
        invalid := invalid + 1;
      } else if node.archives == 0 {
        missing := missing + 1;
      } else if node.version == None {
        invalid := invalid + 1;
      } else {
        var importance := ComputeNewImportance(node, c);
        scored := scored + [Write(rows[n].id, importance, node.version.value)];
      }
    }
  }

  /** A row can be scored: it is well formed, with evidence and a version. */
  predicate Scorable(n: Node) { n.mappable && n.validInput && 0 < n.archives && n.version.Some? }

  /** What is written for a row. */
  ghost predicate IsWriteOf(r: Row, c: Settings, w: Write) {
    Scorable(r.node) && w.id == r.id && r.node.version == Some(w.version) && IsNewImportance(r.node, c, w.importance)
  }

  /** Every scorable row gets its write. */
  lemma {:induction false} WriteOfRow(rows: seq<Row>, c: Settings, n: nat, i: nat) returns (k: nat)
    requires i < n <= |rows| && ValidSettings(c) && Scorable(rows[i].node)
    ensures k < |ScoredWrites(rows, c, n)| && IsWriteOf(rows[i], c, ScoredWrites(rows, c, n)[k])
  {
    if i < n - 1 {
      k := WriteOfRow(rows, c, n - 1, i);
    } else {
      k := |ScoredWrites(rows, c, n - 1)|;
      NewImportanceIs(rows[i].node, c, NewImportance(rows[i].node, c));
    }
  }

  /** Every write is that of a scorable row. */
  lemma RowOfWrite(rows: seq<Row>, c: Settings, n: nat, k: nat) returns (i: nat)
    requires n <= |rows| && k < |ScoredWrites(rows, c, n)| && ValidSettings(c)
    ensures i < n && IsWriteOf(rows[i], c, ScoredWrites(rows, c, n)[k])
  {
    i := ScoredFrom(rows, c, n, k);
    NewImportanceIs(rows[i].node, c, NewImportance(rows[i].node, c));
  }

  /** Scored writes come from distinct rows, in order. */
  lemma {:induction false} ScoredFrom(rows: seq<Row>, c: Settings, n: nat, k: nat) returns (i: nat)
    requires n <= |rows| && k < |ScoredWrites(rows, c, n)|
    ensures i < n && ProcessRow(rows[i], c) == Scored(ScoredWrites(rows, c, n)[k])
  {
    if k < |ScoredWrites(rows, c, n - 1)| {
      i := ScoredFrom(rows, c, n - 1, k);
    } else {
      i := n - 1;
    }
  }

  // ----- the version-checked write -----

  predicate Admissible(w: Write) { w.id != 0 && 1 <= w.version && 0 <= w.importance <= Confidence.UNITS }

  predicate Listed(ws: seq<Write>, id: nat) { exists k :: 0 <= k < |ws| && ws[k].id == id }

  /** The rows of the first `n` that are written: admissible, and the first with their id. */
  function ValidRows(ws: seq<Write>, n: nat): (r: seq<Write>)
    requires n <= |ws|
    ensures |r| <= n
  {
    if n == 0 then []
    else
      var before := ValidRows(ws, n - 1);
      if Admissible(ws[n - 1]) && !Listed(before, ws[n - 1].id) then before + [ws[n - 1]] else before
  }

  predicate DistinctIds(ws: seq<Write>) { forall i, j :: 0 <= i < j < |ws| ==> ws[i].id != ws[j].id }

  /** `_partition_rows`, with its set of ids already seen; the rejected ones are counted. */
  method PartitionRows(ws: seq<Write>) returns (valid: seq<Write>, rejected: nat)
    ensures valid == ValidRows(ws, |ws|) && DistinctIds(valid) && |valid| + rejected == |ws|
  {
    valid, rejected := [], 0;
    var seen: set<nat> := {};
    for n := 0 to |ws|
      invariant valid == ValidRows(ws, n) && DistinctIds(valid) && |valid| + rejected == n
      invariant forall id :: id in seen <==> Listed(valid, id)
    {
      if ws[n].id == 0 || ws[n].version < 1 || ws[n].importance < 0 || 10000 < ws[n].importance || ws[n].id in seen {
        rejected := rejected + 1;
      } else {
        ghost var before := valid;
        valid, seen := valid + [ws[n]], seen + {ws[n].id};
        forall id ensures Listed(valid, id) <==> Listed(before, id) || id == ws[n].id {
          ListedAppend(before, ws[n], id);
        }
      }
    }
  }

  lemma ListedAppend(ws: seq<Write>, w: Write, id: nat)
    ensures Listed(ws + [w], id) <==> Listed(ws, id) || id == w.id
  {
    assert (ws + [w])[|ws|] == w;
    if k :| 0 <= k < |ws| && ws[k].id == id {
      assert (ws + [w])[k].id == id;
    }
  }

  /** Nothing is rejected when all rows are admissible and have distinct ids. */
  lemma {:induction false} NothingRejected(ws: seq<Write>, n: nat)
    requires n <= |ws| && DistinctIds(ws) && forall i :: 0 <= i < |ws| ==> Admissible(ws[i])
    ensures ValidRows(ws, n) == ws[..n]
  {
    if n > 0 {
      NothingRejected(ws, n - 1);
      assert !Listed(ws[..n - 1], ws[n - 1].id);
      assert ws[..n] == ws[..n - 1] + [ws[n - 1]];
    }
  }

  predicate Matches(s: Nodes, user: nat, w: Write) {
    w.id in s && s[w.id].user == user && s[w.id].version == Some(w.version)
  }

  function WrittenNode(n: Node, w: Write, time: int): Node { n.(importance := w.importance, last := Some(time)) }

  /** The nodes after the first `n` rows, updating only where the version still matches. */
  function WrittenUpTo(s: Nodes, user: nat, time: int, ws: seq<Write>, n: nat): Nodes
    requires n <= |ws|
  {
    if n == 0 then s
    else
      var before, w := WrittenUpTo(s, user, time, ws, n - 1), ws[n - 1];
      if Matches(before, user, w) then before[w.id := WrittenNode(before[w.id], w, time)] else before
  }

  function UpdatedUpTo(s: Nodes, user: nat, time: int, ws: seq<Write>, n: nat): (r: nat)
    requires n <= |ws|
    ensures r <= n
  {
    if n == 0 then 0
    else UpdatedUpTo(s, user, time, ws, n - 1) + if Matches(WrittenUpTo(s, user, time, ws, n - 1), user, ws[n - 1]) then 1 else 0
  }

  /** The write touches listed memories only, and of those only the ones whose version is
      as expected; it changes nothing but importance and consolidation time. */
  lemma {:induction false} WriteTouches(s: Nodes, user: nat, time: int, ws: seq<Write>, n: nat, id: nat)
    requires n <= |ws| && id in s
    ensures id in WrittenUpTo(s, user, time, ws, n)
    ensures WrittenUpTo(s, user, time, ws, n)[id].(importance := 0, last := None) == s[id].(importance := 0, last := None)
    ensures WrittenUpTo(s, user, time, ws, n)[id] != s[id] ==> exists k :: 0 <= k < n && ws[k].id == id && Matches(s, user, ws[k])
  {
    if n > 0 {
      WriteTouches(s, user, time, ws, n - 1, id);
    }
  }

  lemma {:induction false} WriteKeepsIds(s: Nodes, user: nat, time: int, ws: seq<Write>, n: nat)
    requires n <= |ws|
    ensures WrittenUpTo(s, user, time, ws, n).Keys == s.Keys
  {
    if n > 0 {
      WriteKeepsIds(s, user, time, ws, n - 1);
    }
  }

  /** With distinct ids, a row is applied exactly when its version matched before the write. */
  lemma {:induction false} WriteApplies(s: Nodes, user: nat, time: int, ws: seq<Write>, n: nat, k: nat)
    requires n <= |ws| && k < n && DistinctIds(ws)
    ensures Matches(s, user, ws[k]) ==> ws[k].id in WrittenUpTo(s, user, time, ws, n)
    ensures Matches(s, user, ws[k]) ==> WrittenUpTo(s, user, time, ws, n)[ws[k].id] == WrittenNode(s[ws[k].id], ws[k], time)
  {
    if k < n - 1 {
      WriteApplies(s, user, time, ws, n - 1, k);
    } else {
      Untouched(s, user, time, ws, n - 1, ws[k].id);
    }
  }

  lemma {:induction false} Untouched(s: Nodes, user: nat, time: int, ws: seq<Write>, n: nat, id: nat)
    requires n <= |ws| && forall i :: 0 <= i < n ==> ws[i].id != id
    ensures id in WrittenUpTo(s, user, time, ws, n) <==> id in s
    ensures id in s ==> WrittenUpTo(s, user, time, ws, n)[id] == s[id]
  {
    if n > 0 {
      Untouched(s, user, time, ws, n - 1, id);
    }
  }
}
