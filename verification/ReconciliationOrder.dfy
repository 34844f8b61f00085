/** The plan does not depend on the order in which the candidates are listed.

    Only two things may differ: the order in which the plan lists its updates, creations and
    contributors, and the fresh ids it uses. */
module ReconciliationOrder {
  import opened Options
  import opened ReconciliationPlan
  import opened ReconciliationLaws

  /** What extraction and one recall query give: equal fingerprints mean equal contents,
      and a recalled memory looks the same wherever it is recalled. */
  ghost predicate Consistent(cs: seq<Candidate>) {
    && (forall i, j :: 0 <= i < |cs| && 0 <= j < |cs| && cs[i].fingerprint == cs[j].fingerprint ==> SameContent(cs[i], cs[j]))
    && (forall i, j :: 0 <= i < |cs| && 0 <= j < |cs| ==> SameView(cs[i].recalled, cs[j].recalled))
  }

  predicate SameContent(a: Candidate, b: Candidate) { a.facts == b.facts && a.content == b.content }

  predicate SameView(a: seq<Snapshot>, b: seq<Snapshot>) {
    forall i, j :: 0 <= i < |a| && 0 <= j < |b| && a[i].memoryId == b[j].memoryId ==> a[i] == b[j]
  }

  /** Equal but for the order of the contributors and the id of a linked memory. */
  ghost predicate SameUpdate(u: Update, v: Update) {
    && u.target == v.target && u.action == v.action && u.mergedContent == v.mergedContent
    && u.mergedConfidence == v.mergedConfidence && u.latestSourceTime == v.latestSourceTime
    && (u.newMemoryId.Some? <==> v.newMemoryId.Some?)
    && multiset(u.contributors) == multiset(v.contributors)
  }

  /** Equal but for the id and the order of the contributors. */
  ghost predicate SameCreation(x: Creation, y: Creation) {
    && x.(memoryId := 0, contributors := []) == y.(memoryId := 0, contributors := [])
    && multiset(x.contributors) == multiset(y.contributors)
  }

  ghost predicate Permuted(g: seq<Candidate>, h: seq<Candidate>) { multiset(g) == multiset(h) }

  lemma SameLength(g: seq<Candidate>, h: seq<Candidate>)
    requires Permuted(g, h)
    ensures |g| == |h|
  {
    assert |multiset(g)| == |multiset(h)|;
  }

  /** Where the i-th candidate of one order is in the other. */
  lemma Position(g: seq<Candidate>, h: seq<Candidate>, i: nat) returns (j: nat)
    requires Permuted(g, h) && i < |g|
    ensures j < |h| && h[j] == g[i]
  {
    assert g[i] in multiset(h);
    j :| 0 <= j < |h| && h[j] == g[i];
  }

  lemma GroupsPermuted(cs: seq<Candidate>, ds: seq<Candidate>, s: Slot)
    requires Permuted(cs, ds)
    ensures Permuted(Group(cs, s), Group(ds, s))
  {
    assert cs[..|cs|] == cs && ds[..|ds|] == ds;
    forall c ensures multiset(Group(cs, s))[c] == multiset(Group(ds, s))[c] {
      GroupMembers(cs, s, |cs|, c);
      GroupMembers(ds, s, |ds|, c);
    }
  }

  // ----- what the group functions depend on -----

  lemma {:induction false} MaxConfidenceIs(g: seq<Candidate>, n: nat) returns (i: nat)
    requires 0 < n <= |g|
    ensures i < n && g[i].confidence == MaxConfidence(g, n)
    ensures forall k :: 0 <= k < n ==> g[k].confidence <= MaxConfidence(g, n)
  {
    i := 0;
    if n > 1 {
      i := MaxConfidenceIs(g, n - 1);
      if MaxConfidence(g, n) == g[n - 1].confidence {
        i := n - 1;
      }
    }
  }

  lemma {:induction false} MaxTimeIs(g: seq<Candidate>, n: nat) returns (i: nat)
    requires 0 < n <= |g|
    ensures i < n && g[i].sourceTime == MaxTime(g, n)
    ensures forall k :: 0 <= k < n ==> g[k].sourceTime <= MaxTime(g, n)
  {
    i := 0;
    if n > 1 {
      i := MaxTimeIs(g, n - 1);
      if MaxTime(g, n) == g[n - 1].sourceTime {
        i := n - 1;
      }
    }
  }

  lemma {:induction false} RepresentativeIs(g: seq<Candidate>, n: nat) returns (i: nat)
    requires 0 < n <= |g|
    ensures i < n && g[i] == Representative(g, n)
    ensures forall k :: 0 <= k < n ==> !RanksBefore(g[k], Representative(g, n))
  {
    i := 0;
    if n > 1 {
      i := RepresentativeIs(g, n - 1);
      if RanksBefore(g[n - 1], Representative(g, n - 1)) {
        i := n - 1;
      }
    }
  }

  predicate Recalls(c: Candidate, t: nat, s: Snapshot) {
    s.memoryId == t && exists i :: 0 <= i < |c.recalled| && c.recalled[i] == s
  }

  lemma {:induction false} FindIs(ss: seq<Snapshot>, t: nat, n: nat)
    requires n <= |ss|
    ensures var r := Find(ss, t, n);
            && (r.Some? ==> r.value.memoryId == t && exists i :: 0 <= i < n && ss[i] == r.value)
            && (r.None? ==> forall i :: 0 <= i < n ==> ss[i].memoryId != t)
  {
    if n > 0 {
      FindIs(ss, t, n - 1);
    }
  }

  lemma {:induction false} FirstSnapshotIs(g: seq<Candidate>, t: nat, n: nat)
    requires n <= |g|
    ensures var r := FirstSnapshot(g, t, n);
            && (r.Some? ==> exists i :: 0 <= i < n && Recalls(g[i], t, r.value))
            && (r.None? ==> forall i, s :: 0 <= i < n ==> !Recalls(g[i], t, s))
  {
    if n > 0 {
      FirstSnapshotIs(g, t, n - 1);
      FindIs(g[n - 1].recalled, t, |g[n - 1].recalled|);
    }
  }

  predicate HasText(c: Candidate, text: string) {
    c.mergedContent.Some? && c.mergedContent.value.normal == text
  }

  /** Which candidate the k-th merged text comes from. */
  lemma {:induction false} TextFrom(g: seq<Candidate>, n: nat, k: nat) returns (i: nat)
    requires n <= |g| && k < |MergedTexts(g, n)|
    ensures i < n && HasText(g[i], MergedTexts(g, n)[k])
  {
    if k < |MergedTexts(g, n - 1)| {
      i := TextFrom(g, n - 1, k);
    } else {
      i := n - 1;
    }
  }

  lemma {:induction false} TextOf(g: seq<Candidate>, n: nat, i: nat) returns (k: nat)
    requires i < n <= |g| && g[i].mergedContent.Some?
    ensures k < |MergedTexts(g, n)| && HasText(g[i], MergedTexts(g, n)[k])
  {
    if i < n - 1 {
      k := TextOf(g, n - 1, i);
    } else {
      k := |MergedTexts(g, n - 1)|;
    }
  }

  // ----- one group in two orders -----

  lemma ConfidencesAgree(g: seq<Candidate>, h: seq<Candidate>)
    requires Permuted(g, h) && g != [] && h != []
    ensures MaxConfidence(g, |g|) == MaxConfidence(h, |h|)
  {
    var i := MaxConfidenceIs(g, |g|);
    var j := Position(g, h, i);
    var k := MaxConfidenceIs(h, |h|);
    var l := Position(h, g, k);
  }

  lemma TimesAgree(g: seq<Candidate>, h: seq<Candidate>)
    requires Permuted(g, h) && g != [] && h != []
    ensures MaxTime(g, |g|) == MaxTime(h, |h|)
  {
    var i := MaxTimeIs(g, |g|);
    var j := Position(g, h, i);
    var k := MaxTimeIs(h, |h|);
    var l := Position(h, g, k);
  }

  lemma RepresentativesAgree(g: seq<Candidate>, h: seq<Candidate>)
    requires Permuted(g, h) && g != [] && h != [] && Consistent(g)
    ensures SameContent(Representative(g, |g|), Representative(h, |h|))
  {
    var i := RepresentativeIs(g, |g|);
    var j := Position(g, h, i);
    var k := RepresentativeIs(h, |h|);
    var l := Position(h, g, k);
    assert !RanksBefore(g[l], g[i]) && !RanksBefore(h[j], h[k]);
    assert g[i].fingerprint == g[l].fingerprint;
  }

  lemma SnapshotFound(g: seq<Candidate>, h: seq<Candidate>, t: nat) returns (i: nat)
    requires Permuted(g, h) && FirstSnapshot(h, t, |h|).Some?
    ensures i < |g| && Recalls(g[i], t, FirstSnapshot(h, t, |h|).value)
    ensures FirstSnapshot(g, t, |g|).Some?
  {
    FirstSnapshotIs(g, t, |g|);
    FirstSnapshotIs(h, t, |h|);
    var k: nat :| k < |h| && Recalls(h[k], t, FirstSnapshot(h, t, |h|).value);
    i := Position(h, g, k);
  }

  lemma SnapshotsAgree(g: seq<Candidate>, h: seq<Candidate>, t: nat)
    requires Permuted(g, h) && Consistent(g)
    ensures FirstSnapshot(g, t, |g|) == FirstSnapshot(h, t, |h|)
  {
    if FirstSnapshot(h, t, |h|).Some? {
      var j := SnapshotFound(g, h, t);
      var i := SnapshotFound(g, g, t);
      assert SameView(g[i].recalled, g[j].recalled);
    } else if FirstSnapshot(g, t, |g|).Some? {
      var i := SnapshotFound(h, g, t);
    }
  }

  lemma TextMoves(g: seq<Candidate>, h: seq<Candidate>, k: nat) returns (l: nat)
    requires Permuted(g, h) && k < |MergedTexts(g, |g|)|
    ensures l < |MergedTexts(h, |h|)| && MergedTexts(h, |h|)[l] == MergedTexts(g, |g|)[k]
  {
    var i := TextFrom(g, |g|, k);
    var j := Position(g, h, i);
    l := TextOf(h, |h|, j);
  }

  lemma TextsAgree(g: seq<Candidate>, h: seq<Candidate>)
    requires Permuted(g, h) && Agree(MergedTexts(g, |g|))
    ensures Agree(MergedTexts(h, |h|))
    ensures MergedTexts(g, |g|) != [] <==> MergedTexts(h, |h|) != []
    ensures MergedTexts(g, |g|) != [] ==> MergedTexts(g, |g|)[0] == MergedTexts(h, |h|)[0]
  {
    var a, b := MergedTexts(g, |g|), MergedTexts(h, |h|);
    forall k | 0 <= k < |b| ensures a != [] && b[k] == a[0] {
      var l := TextMoves(h, g, k);
    }
    if a != [] {
      var l := TextMoves(g, h, 0);
    }
  }

  /** A group that can be planned in one order can be in any other. */
  lemma GroupOkAgrees(g: seq<Candidate>, h: seq<Candidate>, t: nat)
    requires Permuted(g, h) && Consistent(g) && GroupOk(g, t)
    ensures GroupOk(h, t) && g[0].action == h[0].action
  {
    SameLength(g, h);
    forall k | 0 <= k < |h| ensures h[k].action == g[0].action {
      var l := Position(h, g, k);
    }
    SnapshotsAgree(g, h, t);
    if g[0].action.Merge? {
      TextsAgree(g, h);
    }
  }

  lemma {:induction false} ContributorsPermuted(g: seq<Candidate>, h: seq<Candidate>)
    requires Permuted(g, h)
    ensures multiset(Contributors(g)) == multiset(Contributors(h))
    decreases |g|
  {
    SameLength(g, h);
    if g == [] {
      assert Contributors(g) == Contributors(h);
    } else {
      var n := |g| - 1;
      var j := Position(g, h, n);
      var before, after := h[..j], h[j + 1..];
      DropOne(g, h, j);
      ContributorsPermuted(g[..n], before + after);
      TakeOneOut(g, n);
      TakeOneOut(h, j);
      assert g[..n] + g[n + 1..] == g[..n];
    }
  }

  lemma ContributorsConcat(a: seq<Candidate>, b: seq<Candidate>)
    ensures Contributors(a + b) == Contributors(a) + Contributors(b)
  {
  }

  lemma TakeOneOut(h: seq<Candidate>, j: nat)
    requires j < |h|
    ensures multiset(Contributors(h)) == multiset(Contributors(h[..j] + h[j + 1..])) + multiset{Contributor(h[j].index, h[j].evidenceId)}
  {
    var a, b, c := h[..j], [h[j]], h[j + 1..];
    assert h == (a + b) + c;
    ContributorsConcat(a + b, c);
    ContributorsConcat(a, b);
    ContributorsConcat(a, c);
    assert Contributors(b) == [Contributor(h[j].index, h[j].evidenceId)];
  }

  lemma DropOne(g: seq<Candidate>, h: seq<Candidate>, j: nat)
    requires Permuted(g, h) && g != [] && j < |h| && h[j] == g[|g| - 1]
    ensures Permuted(g[..|g| - 1], h[..j] + h[j + 1..])
  {
    var a, b, c, d := g[..|g| - 1], h[..j], [h[j]], h[j + 1..];
    assert g == a + c && h == b + c + d;
    Cancel(multiset(a), multiset(b + d), multiset(c));
  }

  lemma Cancel(a: multiset<Candidate>, b: multiset<Candidate>, c: multiset<Candidate>)
    requires a + c == b + c
    ensures a == b
  {
    assert a == (a + c) - c;
    assert b == (b + c) - c;
  }

  lemma UpdatesAgree(g: seq<Candidate>, h: seq<Candidate>, t: nat, id: nat, id': nat)
    requires Permuted(g, h) && Consistent(g) && GroupOk(g, t) && GroupOk(h, t)
    ensures SameUpdate(UpdateOf(g, t, id), UpdateOf(h, t, id'))
  {
    GroupOkAgrees(g, h, t);
    ConfidencesAgree(g, h);
    TimesAgree(g, h);
    SnapshotsAgree(g, h, t);
    ContributorsPermuted(g, h);
    if g[0].action.Merge? {
      TextsAgree(g, h);
    }
  }

  lemma LinksAgree(g: seq<Candidate>, h: seq<Candidate>, t: nat, id: nat, id': nat)
    requires Permuted(g, h) && GroupOk(g, t) && GroupOk(h, t) && Links(g[0].action)
    ensures Links(h[0].action) && SameCreation(LinkedCreation(g[0], t, id), LinkedCreation(h[0], t, id'))
  {
    SameLength(g, h);
    var j := Position(g, h, 0);
  }

  lemma CreateContentsAgree(g: seq<Candidate>, h: seq<Candidate>)
    requires Permuted(g, h) && g != [] && h != [] && Consistent(g)
    ensures CreateContent(g) == CreateContent(h)
  {
    RepresentativesAgree(g, h);
    if SameText(g) {
      SameTextMoves(g, h);
    } else if SameText(h) {
      SameTextMoves(h, g);
    }
  }

  lemma SameTextMoves(g: seq<Candidate>, h: seq<Candidate>)
    requires Permuted(g, h) && g != [] && h != [] && SameText(g)
    ensures SameText(h) && g[0].content.normal == h[0].content.normal
  {
    forall k | 0 <= k < |h| ensures h[k].content.normal == g[0].content.normal {
      var l := Position(h, g, k);
    }
  }

  lemma KeyedAgree(g: seq<Candidate>, h: seq<Candidate>, k: string, id: nat, id': nat)
    requires Permuted(g, h) && g != [] && h != [] && Consistent(g)
    ensures SameCreation(KeyedCreation(g, k, id), KeyedCreation(h, k, id'))
  {
    ConfidencesAgree(g, h);
    TimesAgree(g, h);
    RepresentativesAgree(g, h);
    CreateContentsAgree(g, h);
    ContributorsPermuted(g, h);
  }

  // ----- the whole plan in two orders -----

  lemma TargetIn(cs: seq<Candidate>, ds: seq<Candidate>, i: nat) returns (j: nat)
    requires Permuted(cs, ds) && i < |Targets(cs)|
    ensures j < |Targets(ds)| && Targets(ds)[j] == Targets(cs)[i]
  {
    TargetsAre(cs, |cs|);
    TargetsAre(ds, |ds|);
    var t := Targets(cs)[i];
    assert t in Targets(cs);
    var k: nat :| k < |cs| && InSlot(cs[k], Existing(t));
    var l := Position(cs, ds, k);
    assert HasSlot(ds, Existing(t), |ds|);
    j :| 0 <= j < |Targets(ds)| && Targets(ds)[j] == t;
  }

  lemma KeyIn(cs: seq<Candidate>, ds: seq<Candidate>, i: nat) returns (j: nat)
    requires Permuted(cs, ds) && i < |Keys(cs)|
    ensures j < |Keys(ds)| && Keys(ds)[j] == Keys(cs)[i]
  {
    KeysAre(cs, |cs|);
    KeysAre(ds, |ds|);
    var key := Keys(cs)[i];
    assert key in Keys(cs);
    var k: nat :| k < |cs| && InSlot(cs[k], Keyed(key));
    var l := Position(cs, ds, k);
    assert HasSlot(ds, Keyed(key), |ds|);
    j :| 0 <= j < |Keys(ds)| && Keys(ds)[j] == key;
  }

  lemma GroupsConsistent(cs: seq<Candidate>, s: Slot)
    requires Consistent(cs)
    ensures Consistent(Group(cs, s))
  {
    var g := Group(cs, s);
    forall i | 0 <= i < |g| ensures exists k :: 0 <= k < |cs| && cs[k] == g[i] {
      GroupMembers(cs, s, |cs|, g[i]);
      assert g[i] in g && cs[..|cs|] == cs;
    }
    forall i, j | 0 <= i < |g| && 0 <= j < |g|
      ensures g[i].fingerprint == g[j].fingerprint ==> SameContent(g[i], g[j])
      ensures SameView(g[i].recalled, g[j].recalled)
    {
      var k :| 0 <= k < |cs| && cs[k] == g[i];
      var l :| 0 <= l < |cs| && cs[l] == g[j];
    }
  }

  lemma PlannableMoves(cs: seq<Candidate>, ds: seq<Candidate>)
    requires Permuted(cs, ds) && Consistent(cs) && Plannable(cs)
    ensures Plannable(ds)
  {
    forall k | 0 <= k < |ds| ensures Placeable(ds[k]) {
      var l := Position(ds, cs, k);
    }
    forall j | 0 <= j < |Targets(ds)| ensures OkAt(ds, Targets(ds), j) {
      var i := TargetIn(ds, cs, j);
      assert OkAt(cs, Targets(cs), i);
      var s := Existing(Targets(ds)[j]);
      GroupsPermuted(cs, ds, s);
      GroupsConsistent(cs, s);
      GroupOkAgrees(Group(cs, s), Group(ds, s), Targets(ds)[j]);
    }
  }

  /** Every update of one order has its match in the other. */
  lemma UpdateMoves(cs: seq<Candidate>, ds: seq<Candidate>, id: nat, id': nat, i: nat) returns (j: nat)
    requires Permuted(cs, ds) && Consistent(cs) && Plannable(cs) && Plannable(ds) && i < |Targets(cs)|
    ensures j < |Targets(ds)| && SameUpdate(PlanOf(cs, id).updates[i], PlanOf(ds, id').updates[j])
  {
    j := TargetIn(cs, ds, i);
    var t := Targets(cs)[i];
    UpdateFacts(cs, Targets(cs), id, i);
    UpdateFacts(ds, Targets(ds), id', j);
    assert OkAt(cs, Targets(cs), i) && OkAt(ds, Targets(ds), j);
    GroupsPermuted(cs, ds, Existing(t));
    GroupsConsistent(cs, Existing(t));
    UpdatesAgree(Group(cs, Existing(t)), Group(ds, Existing(t)), t,
                 id + LinkCount(cs, Targets(cs), i), id' + LinkCount(ds, Targets(ds), j));
  }

  lemma LinkMoves(cs: seq<Candidate>, ds: seq<Candidate>, id: nat, id': nat, k: nat) returns (l: nat)
    requires Permuted(cs, ds) && Plannable(cs) && Plannable(ds) && k < |PlanOf(cs, id).linked|
    ensures l < |PlanOf(ds, id').linked| && SameCreation(PlanOf(cs, id).linked[k], PlanOf(ds, id').linked[l])
  {
    var ts, us := Targets(cs), Targets(ds);
    var i := LinkedFrom(cs, ts, id, |ts|, k);
    var j := TargetIn(cs, ds, i);
    var t := ts[i];
    assert OkAt(cs, ts, i) && OkAt(ds, us, j);
    GroupsPermuted(cs, ds, Existing(t));
    LinksAgree(Group(cs, Existing(t)), Group(ds, Existing(t)), t, id + LinkCount(cs, ts, i), id' + LinkCount(ds, us, j));
    LinkedAt(ds, us, id', |us|, j);
    l := LinkCount(ds, us, j);
  }

  lemma KeyedMoves(cs: seq<Candidate>, ds: seq<Candidate>, id: nat, id': nat, i: nat) returns (j: nat)
    requires Permuted(cs, ds) && Consistent(cs) && KeysHaveGroups(cs, Keys(cs)) && KeysHaveGroups(ds, Keys(ds)) && i < |Keys(cs)|
    ensures j < |Keys(ds)|
    ensures SameCreation(KeyedCreations(cs, Keys(cs), id, |Keys(cs)|)[i], KeyedCreations(ds, Keys(ds), id', |Keys(ds)|)[j])
  {
    j := KeyIn(cs, ds, i);
    KeyedCreationsAt(cs, Keys(cs), id, |Keys(cs)|, i);
    KeyedCreationsAt(ds, Keys(ds), id', |Keys(ds)|, j);
    var s := Keyed(Keys(cs)[i]);
    GroupsPermuted(cs, ds, s);
    GroupsConsistent(cs, s);
    KeyedAgree(Group(cs, s), Group(ds, s), Keys(cs)[i], id + i, id' + j);
  }

  ghost predicate UpdatesMatch(us: seq<Update>, vs: seq<Update>) {
    forall i :: 0 <= i < |us| ==> UpdateIn(us[i], vs)
  }

  ghost predicate UpdateIn(u: Update, vs: seq<Update>) { exists j :: 0 <= j < |vs| && SameUpdate(u, vs[j]) }

  ghost predicate CreationsMatch(xs: seq<Creation>, ys: seq<Creation>) {
    forall i :: 0 <= i < |xs| ==> CreationIn(xs[i], ys)
  }

  ghost predicate CreationIn(x: Creation, ys: seq<Creation>) { exists j :: 0 <= j < |ys| && SameCreation(x, ys[j]) }

  lemma PlansMatch(cs: seq<Candidate>, ds: seq<Candidate>, id: nat, id': nat)
    requires Permuted(cs, ds) && Consistent(cs) && Plannable(cs) && Plannable(ds)
    ensures UpdatesMatch(PlanOf(cs, id).updates, PlanOf(ds, id').updates)
    ensures CreationsMatch(PlanOf(cs, id).linked, PlanOf(ds, id').linked)
    ensures CreationsMatch(PlanOf(cs, id).keyed, PlanOf(ds, id').keyed)
  {
    var p, q := PlanOf(cs, id), PlanOf(ds, id');
    assert UpdatesMatch(p.updates, q.updates) by {
      AllUpdatesMove(cs, ds, id, id', p.updates, q.updates);
    }
    assert CreationsMatch(p.linked, q.linked) by {
      AllLinksMove(cs, ds, id, id', p.linked, q.linked);
    }
    KeyedPlansMatch(cs, ds, id, id');
  }

  lemma KeyedPlansMatch(cs: seq<Candidate>, ds: seq<Candidate>, id: nat, id': nat)
    requires Permuted(cs, ds) && Consistent(cs) && Plannable(cs) && Plannable(ds)
    ensures CreationsMatch(PlanOf(cs, id).keyed, PlanOf(ds, id').keyed)
  {
    KeysHaveTheirGroups(cs);
    KeysHaveTheirGroups(ds);
    var from, from' := id + LinkCount(cs, Targets(cs), |Targets(cs)|), id' + LinkCount(ds, Targets(ds), |Targets(ds)|);
    AllKeyedMove(cs, ds, from, from', PlanOf(cs, id).keyed, PlanOf(ds, id').keyed);
  }

  /** Listing the candidates in another order changes neither whether there is a plan nor
      what it contains. */
  lemma OrderDoesNotMatter(cs: seq<Candidate>, ds: seq<Candidate>, id: nat, id': nat)
    requires Permuted(cs, ds) && Consistent(cs)
    ensures Plannable(cs) <==> Plannable(ds)
    ensures Plannable(cs) ==> UpdatesMatch(PlanOf(cs, id).updates, PlanOf(ds, id').updates)
    ensures Plannable(cs) ==> CreationsMatch(PlanOf(cs, id).linked, PlanOf(ds, id').linked)
    ensures Plannable(cs) ==> CreationsMatch(PlanOf(cs, id).keyed, PlanOf(ds, id').keyed)
  {
    if Plannable(ds) {
      ConsistencyMoves(cs, ds);
      PlannableMoves(ds, cs);
    }
    if Plannable(cs) {
      PlannableMoves(cs, ds);
      PlansMatch(cs, ds, id, id');
    }
  }

  lemma ConsistencyMoves(cs: seq<Candidate>, ds: seq<Candidate>)
    requires Permuted(cs, ds) && Consistent(cs)
    ensures Consistent(ds)
  {
    forall i, j | 0 <= i < |ds| && 0 <= j < |ds|
      ensures ds[i].fingerprint == ds[j].fingerprint ==> SameContent(ds[i], ds[j])
      ensures SameView(ds[i].recalled, ds[j].recalled)
    {
      var k := Position(ds, cs, i);
      var l := Position(ds, cs, j);
    }
  }

  lemma AllUpdatesMove(cs: seq<Candidate>, ds: seq<Candidate>, id: nat, id': nat, us: seq<Update>, vs: seq<Update>)
    requires Permuted(cs, ds) && Consistent(cs) && Plannable(cs) && Plannable(ds)
    requires us == PlanOf(cs, id).updates && vs == PlanOf(ds, id').updates
    ensures UpdatesMatch(us, vs)
  {
    forall i | 0 <= i < |us| ensures UpdateIn(us[i], vs) {
      var j := UpdateMoves(cs, ds, id, id', i);
    }
  }

  lemma AllLinksMove(cs: seq<Candidate>, ds: seq<Candidate>, id: nat, id': nat, xs: seq<Creation>, ys: seq<Creation>)
    requires Permuted(cs, ds) && Plannable(cs) && Plannable(ds)
    requires xs == PlanOf(cs, id).linked && ys == PlanOf(ds, id').linked
    ensures CreationsMatch(xs, ys)
  {
    forall k | 0 <= k < |xs| ensures CreationIn(xs[k], ys) {
      var l := LinkMoves(cs, ds, id, id', k);
    }
  }

  lemma AllKeyedMove(cs: seq<Candidate>, ds: seq<Candidate>, id: nat, id': nat, xs: seq<Creation>, ys: seq<Creation>)
    requires Permuted(cs, ds) && Consistent(cs) && KeysHaveGroups(cs, Keys(cs)) && KeysHaveGroups(ds, Keys(ds))
    requires xs == KeyedCreations(cs, Keys(cs), id, |Keys(cs)|) && ys == KeyedCreations(ds, Keys(ds), id', |Keys(ds)|)
    ensures CreationsMatch(xs, ys)
  {
    forall i | 0 <= i < |xs| ensures CreationIn(xs[i], ys) {
      var j := KeyedMoves(cs, ds, id, id', i);
    }
  }
}
