/** What a plan says about the candidates: when there is one, and what it takes from which of them. */
module ReconciliationMeaning {
  import opened Options
  import Confidence
  import opened ReconciliationPlan
  import opened ReconciliationLaws
  import opened ReconciliationOrder

  /** Which candidates go where: those that are neither processed nor skipped, to the memory
      they target or, if they are to be created, to the key they have. */
  lemma SlotIs(c: Candidate, t: nat, k: string)
    ensures InSlot(c, Existing(t)) <==> !c.processed && c.action in {Merge, Supersede, Conflict} && c.target == Some(t)
    ensures InSlot(c, Keyed(k)) <==> !c.processed && c.action == Create && c.key == Some(k)
  {
  }

  // ----- candidates and their places in a group -----

  lemma {:induction false} GroupGrows(cs: seq<Candidate>, s: Slot, p: nat, n: nat)
    requires p <= n <= |cs|
    ensures |GroupUpTo(cs, s, p)| <= |GroupUpTo(cs, s, n)|
  {
    if p < n {
      GroupGrows(cs, s, p, n - 1);
    }
  }

  /** Where a candidate of the slot is in the group. */
  lemma {:induction false} GroupAt(cs: seq<Candidate>, s: Slot, n: nat, p: nat)
    requires p < n <= |cs| && InSlot(cs[p], s)
    ensures |GroupUpTo(cs, s, p)| < |GroupUpTo(cs, s, n)| && GroupUpTo(cs, s, n)[|GroupUpTo(cs, s, p)|] == cs[p]
  {
    if p < n - 1 {
      GroupAt(cs, s, n - 1, p);
    }
  }

  /** Which candidate is at a place of the group. */
  lemma {:induction false} GroupFrom(cs: seq<Candidate>, s: Slot, n: nat, k: nat) returns (p: nat)
    requires n <= |cs| && k < |GroupUpTo(cs, s, n)|
    ensures p < n && InSlot(cs[p], s) && |GroupUpTo(cs, s, p)| == k && GroupUpTo(cs, s, n)[k] == cs[p]
  {
    if k < |GroupUpTo(cs, s, n - 1)| {
      p := GroupFrom(cs, s, n - 1, k);
    } else {
      p := n - 1;
    }
  }

  /** Two candidates of the slot are at two places. */
  lemma TwoPlaces(cs: seq<Candidate>, s: Slot, p: nat, q: nat)
    requires p < q < |cs| && InSlot(cs[p], s) && InSlot(cs[q], s)
    ensures |GroupUpTo(cs, s, p)| < |GroupUpTo(cs, s, q)| < |Group(cs, s)|
  {
    GroupAt(cs, s, q, p);
    GroupAt(cs, s, |cs|, q);
  }

  lemma PlaceOf(cs: seq<Candidate>, s: Slot, p: nat) returns (k: nat)
    requires p < |cs| && InSlot(cs[p], s)
    ensures k < |Group(cs, s)| && Group(cs, s)[k] == cs[p]
  {
    k := |GroupUpTo(cs, s, p)|;
    GroupAt(cs, s, |cs|, p);
  }

  // ----- when there is a plan -----

  /** Two candidates for one target want the same and do not supersede or conflict; the texts
      they give for a merge are the same. */
  ghost predicate Agreeing(a: Candidate, b: Candidate) {
    && a.action == b.action && !Links(a.action)
    && (a.action.Merge? && a.mergedContent.Some? && b.mergedContent.Some? ==> a.mergedContent.value.normal == b.mergedContent.value.normal)
  }

  ghost predicate AllAgree(cs: seq<Candidate>, t: nat) {
    forall p, q :: 0 <= p < q < |cs| && InSlot(cs[p], Existing(t)) && InSlot(cs[q], Existing(t)) ==> Agreeing(cs[p], cs[q])
  }

  /** Some candidate for the target has recalled it. */
  ghost predicate IsRecalled(cs: seq<Candidate>, t: nat) {
    exists q, s :: 0 <= q < |cs| && InSlot(cs[q], Existing(t)) && Recalls(cs[q], t, s)
  }

  ghost predicate Compatible(cs: seq<Candidate>, t: nat) { AllAgree(cs, t) && IsRecalled(cs, t) }

  lemma CompatibleWhenOk(cs: seq<Candidate>, t: nat)
    requires GroupOk(Group(cs, Existing(t)), t)
    ensures Compatible(cs, t)
  {
    var s, g := Existing(t), Group(cs, Existing(t));
    forall p, q | 0 <= p < q < |cs| && InSlot(cs[p], s) && InSlot(cs[q], s) ensures Agreeing(cs[p], cs[q]) {
      TwoPlaces(cs, s, p, q);
      var i := PlaceOf(cs, s, p);
      var j := PlaceOf(cs, s, q);
      if g[0].action.Merge? && cs[p].mergedContent.Some? && cs[q].mergedContent.Some? {
        var k := TextOf(g, |g|, i);
        var l := TextOf(g, |g|, j);
        assert MergedTexts(g, |g|)[k] == MergedTexts(g, |g|)[0] == MergedTexts(g, |g|)[l];
      }
    }
    FirstSnapshotIs(g, t, |g|);
    var snapshot := FirstSnapshot(g, t, |g|).value;
    var k :| 0 <= k < |g| && Recalls(g[k], t, snapshot);
    var q := GroupFrom(cs, s, |cs|, k);
    assert Recalls(cs[q], t, snapshot);
  }

  lemma OkWhenCompatible(cs: seq<Candidate>, t: nat)
    requires Compatible(cs, t)
    ensures GroupOk(Group(cs, Existing(t)), t)
  {
    var s, g := Existing(t), Group(cs, Existing(t));
    var q, snapshot :| 0 <= q < |cs| && InSlot(cs[q], s) && Recalls(cs[q], t, snapshot);
    var k := PlaceOf(cs, s, q);
    FirstSnapshotIs(g, t, |g|);
    assert Recalls(g[k], t, snapshot);
    forall i | 0 < i < |g| ensures Agreeing(g[0], g[i]) {
      PlacesAgree(cs, t, 0, i);
    }
    if g[0].action.Merge? {
      TextsOfAgreeing(cs, t);
    }
  }

  lemma PlacesAgree(cs: seq<Candidate>, t: nat, i: nat, j: nat)
    requires AllAgree(cs, t) && i < j < |Group(cs, Existing(t))|
    ensures Agreeing(Group(cs, Existing(t))[i], Group(cs, Existing(t))[j])
  {
    var p := GroupFrom(cs, Existing(t), |cs|, i);
    var q := GroupFrom(cs, Existing(t), |cs|, j);
    if q < p {
      GroupGrows(cs, Existing(t), q, p);
    }
    assert p != q;
  }

  lemma TextsOfAgreeing(cs: seq<Candidate>, t: nat)
    requires AllAgree(cs, t) && Group(cs, Existing(t)) != [] && Group(cs, Existing(t))[0].action.Merge?
    requires SameAction(Group(cs, Existing(t)))
    ensures var g := Group(cs, Existing(t)); Agree(MergedTexts(g, |g|))
  {
    var g := Group(cs, Existing(t));
    var texts := MergedTexts(g, |g|);
    forall k | 0 < k < |texts| ensures texts[k] == texts[0] {
      var i := TextFrom(g, |g|, 0);
      var j := TextFrom(g, |g|, k);
      if i < j {
        PlacesAgree(cs, t, i, j);
      } else if j < i {
        PlacesAgree(cs, t, j, i);
      }
    }
  }

  /** There is a plan exactly when every candidate has its target or key, the candidates for
      each target agree, and one of them has recalled it. */
  lemma PlannableExactly(cs: seq<Candidate>)
    ensures Plannable(cs) <==>
            && (forall i :: 0 <= i < |cs| ==> Placeable(cs[i]))
            && (forall t :: HasSlot(cs, Existing(t), |cs|) ==> Compatible(cs, t))
  {
    TargetsAre(cs, |cs|);
    var ts := Targets(cs);
    if Plannable(cs) {
      forall t | HasSlot(cs, Existing(t), |cs|) ensures Compatible(cs, t) {
        var i :| 0 <= i < |ts| && ts[i] == t;
        assert OkAt(cs, ts, i);
        CompatibleWhenOk(cs, t);
      }
    }
    if forall t :: HasSlot(cs, Existing(t), |cs|) ==> Compatible(cs, t) {
      forall i | 0 <= i < |ts| ensures OkAt(cs, ts, i) {
        assert ts[i] in ts;
        OkWhenCompatible(cs, ts[i]);
      }
    }
  }

  // ----- what an update and a new memory are made of -----

  /** No candidate of the slot is later. */
  ghost predicate Latest(cs: seq<Candidate>, s: Slot, time: int) {
    && (exists p :: 0 <= p < |cs| && InSlot(cs[p], s) && cs[p].sourceTime == time)
    && (forall p :: 0 <= p < |cs| && InSlot(cs[p], s) ==> cs[p].sourceTime <= time)
  }

  /** No candidate of the slot is more confident. */
  ghost predicate Largest(cs: seq<Candidate>, s: Slot, confidence: real) {
    && (exists p :: 0 <= p < |cs| && InSlot(cs[p], s) && cs[p].confidence == confidence)
    && (forall p :: 0 <= p < |cs| && InSlot(cs[p], s) ==> cs[p].confidence <= confidence)
  }

  lemma LatestOfGroup(cs: seq<Candidate>, s: Slot)
    requires Group(cs, s) != []
    ensures Latest(cs, s, MaxTime(Group(cs, s), |Group(cs, s)|))
  {
    var g := Group(cs, s);
    var i := MaxTimeIs(g, |g|);
    var p := GroupFrom(cs, s, |cs|, i);
    forall q | 0 <= q < |cs| && InSlot(cs[q], s) ensures cs[q].sourceTime <= MaxTime(g, |g|) {
      var k := PlaceOf(cs, s, q);
    }
  }

  lemma LargestOfGroup(cs: seq<Candidate>, s: Slot)
    requires Group(cs, s) != []
    ensures Largest(cs, s, MaxConfidence(Group(cs, s), |Group(cs, s)|))
  {
    var g := Group(cs, s);
    var i := MaxConfidenceIs(g, |g|);
    var p := GroupFrom(cs, s, |cs|, i);
    forall q | 0 <= q < |cs| && InSlot(cs[q], s) ensures cs[q].confidence <= MaxConfidence(g, |g|) {
      var k := PlaceOf(cs, s, q);
    }
  }

  /** The first snapshot of `t` is the i-th. */
  predicate FirstOf(ss: seq<Snapshot>, t: nat, i: int) {
    0 <= i < |ss| && ss[i].memoryId == t && forall j :: 0 <= j < i ==> ss[j].memoryId != t
  }

  predicate Lacks(ss: seq<Snapshot>, t: nat) { forall j :: 0 <= j < |ss| ==> ss[j].memoryId != t }

  /** Candidate `q` is the first one for the target that has recalled it. */
  ghost predicate FirstRecaller(cs: seq<Candidate>, t: nat, q: int) {
    0 <= q < |cs| && InSlot(cs[q], Existing(t)) && forall p :: 0 <= p < q && InSlot(cs[p], Existing(t)) ==> Lacks(cs[p].recalled, t)
  }

  /** The confidence a merge plans: that of the first recalled snapshot, raised by the most
      confident candidate. */
  ghost predicate MergedFrom(cs: seq<Candidate>, t: nat, merged: int) {
    exists q, i, c :: FirstRecaller(cs, t, q) && FirstOf(cs[q].recalled, t, i) && Largest(cs, Existing(t), c)
                      && merged == Confidence.Merge(cs[q].recalled[i].confidence, Confidence.RoundToUnits(c))
  }

  lemma {:induction false} FoundFirst(ss: seq<Snapshot>, t: nat, n: nat) returns (i: nat)
    requires n <= |ss|
    ensures Find(ss, t, n).Some? ==> i < n && FirstOf(ss, t, i) && Find(ss, t, n).value == ss[i]
    ensures Find(ss, t, n).None? ==> forall j :: 0 <= j < n ==> ss[j].memoryId != t
  {
    i := 0;
    if n > 0 {
      i := FoundFirst(ss, t, n - 1);
      if Find(ss, t, n - 1).None? {
        i := n - 1;
      }
    }
  }

  lemma {:induction false} FirstRecall(g: seq<Candidate>, t: nat, n: nat) returns (k: nat, i: nat)
    requires n <= |g|
    ensures FirstSnapshot(g, t, n).Some? ==>
              && k < n && FirstOf(g[k].recalled, t, i) && FirstSnapshot(g, t, n).value == g[k].recalled[i]
              && forall l :: 0 <= l < k ==> Lacks(g[l].recalled, t)
    ensures FirstSnapshot(g, t, n).None? ==> forall l :: 0 <= l < n ==> Lacks(g[l].recalled, t)
  {
    k, i := 0, 0;
    if n > 0 {
      k, i := FirstRecall(g, t, n - 1);
      if FirstSnapshot(g, t, n - 1).None? {
        k := n - 1;
        i := FoundFirst(g[n - 1].recalled, t, |g[n - 1].recalled|);
      }
    }
  }

  ghost predicate GivesText(cs: seq<Candidate>, t: nat, text: string) {
    exists p :: 0 <= p < |cs| && InSlot(cs[p], Existing(t)) && HasText(cs[p], text)
  }

  /** What each planned update is, in terms of the candidates for its target. */
  lemma PlannedUpdateIs(cs: seq<Candidate>, firstId: nat, i: nat)
    requires Plannable(cs) && i < |PlanOf(cs, firstId).updates|
    ensures var u := PlanOf(cs, firstId).updates[i];
            && HasSlot(cs, Existing(u.target), |cs|)
            && (forall p :: 0 <= p < |cs| && InSlot(cs[p], Existing(u.target)) ==> cs[p].action == u.action)
            && Latest(cs, Existing(u.target), u.latestSourceTime)
            && (u.mergedConfidence.Some? <==> u.action.Merge?)
            && (u.action.Merge? ==> MergedFrom(cs, u.target, u.mergedConfidence.value))
            && (forall text :: u.mergedContent == Some(text) <==> u.action.Merge? && GivesText(cs, u.target, text))
  {
    var ts, t := Targets(cs), Targets(cs)[i];
    var s, g := Existing(t), Group(cs, Existing(t));
    UpdateFacts(cs, ts, firstId, i);
    assert OkAt(cs, ts, i);
    UnlistedGroupIsEmpty(cs, s, |cs|);
    LatestOfGroup(cs, s);
    forall p | 0 <= p < |cs| && InSlot(cs[p], s) ensures cs[p].action == g[0].action {
      var k := PlaceOf(cs, s, p);
    }
    if g[0].action.Merge? {
      MergeIs(cs, t);
      forall text ensures GivesText(cs, t, text) <==> MergedTexts(g, |g|) != [] && MergedTexts(g, |g|)[0] == text {
        TextIs(cs, t, text);
      }
    }
  }

  lemma MergeIs(cs: seq<Candidate>, t: nat)
    requires GroupOk(Group(cs, Existing(t)), t)
    ensures var g := Group(cs, Existing(t));
            MergedFrom(cs, t, Confidence.Merge(FirstSnapshot(g, t, |g|).value.confidence, Confidence.RoundToUnits(MaxConfidence(g, |g|))))
  {
    var g := Group(cs, Existing(t));
    var s := Existing(t);
    var k, i := FirstRecall(g, t, |g|);
    var q := GroupFrom(cs, s, |cs|, k);
    forall p | 0 <= p < q && InSlot(cs[p], s) ensures Lacks(cs[p].recalled, t) {
      GroupAt(cs, s, q, p);
      GroupAt(cs, s, |cs|, p);
    }
    LargestOfGroup(cs, s);
    assert FirstRecaller(cs, t, q) && FirstOf(cs[q].recalled, t, i) && Largest(cs, s, MaxConfidence(g, |g|));
  }

  lemma TextIs(cs: seq<Candidate>, t: nat, text: string)
    requires GroupOk(Group(cs, Existing(t)), t) && Group(cs, Existing(t))[0].action.Merge?
    ensures var g := Group(cs, Existing(t));
            GivesText(cs, t, text) <==> MergedTexts(g, |g|) != [] && MergedTexts(g, |g|)[0] == text
  {
    var g := Group(cs, Existing(t));
    var texts := MergedTexts(g, |g|);
    if GivesText(cs, t, text) {
      var p :| 0 <= p < |cs| && InSlot(cs[p], Existing(t)) && HasText(cs[p], text);
      var j := PlaceOf(cs, Existing(t), p);
      var k := TextOf(g, |g|, j);
      assert texts[k] == texts[0];
    }
    if texts != [] {
      var j := TextFrom(g, |g|, 0);
      var p := GroupFrom(cs, Existing(t), |cs|, j);
      assert HasText(cs[p], texts[0]);
    }
  }

  /** A candidate of the slot with the largest confidence, among those the latest, among those
      with the smallest fingerprint. */
  ghost predicate Represents(cs: seq<Candidate>, s: Slot, p: int) {
    && 0 <= p < |cs| && InSlot(cs[p], s)
    && forall q :: 0 <= q < |cs| && InSlot(cs[q], s) ==>
         && cs[q].confidence <= cs[p].confidence
         && (cs[q].confidence == cs[p].confidence ==> cs[q].sourceTime <= cs[p].sourceTime)
         && (cs[q].confidence == cs[p].confidence && cs[q].sourceTime == cs[p].sourceTime ==> cs[p].fingerprint <= cs[q].fingerprint)
  }

  ghost predicate OneText(cs: seq<Candidate>, s: Slot, text: string) {
    forall p :: 0 <= p < |cs| && InSlot(cs[p], s) ==> cs[p].content.normal == text
  }

  /** The importance of a new memory, in hundredths: profiles 0.75, facts 0.70, preferences
      0.65, events 0.55. */
  function StartingImportance(memoryType: MemoryType): int {
    if memoryType.Profile? then 75 else if memoryType.Fact? then 70 else if memoryType.Preference? then 65 else 55
  }

  /** The new memory of a supersede or conflict says what the one candidate for the target
      says: its facts, text, confidence and time, and of what kind it is. */
  ghost predicate SaysWhat(x: Creation, c: Candidate, t: nat) {
    && ((c.action.Supersede? && x.kind == Superseding(t)) || (c.action.Conflict? && x.kind == ConflictingWith(t)))
    && x.facts == c.facts && x.content == c.content.raw && x.key == None
    && x.confidence == Confidence.RoundToUnits(c.confidence) && x.latestSourceTime == c.sourceTime
    && x.importance == StartingImportance(c.facts.memoryType)
    && x.contributors == [Contributor(c.index, c.evidenceId)]
  }

  lemma LinkedCreationIs(cs: seq<Candidate>, firstId: nat, k: nat)
    requires Plannable(cs) && k < |PlanOf(cs, firstId).linked|
    ensures var x := PlanOf(cs, firstId).linked[k];
            && !x.kind.Fresh?
            && exists p :: 0 <= p < |cs| && InSlot(cs[p], Existing(x.kind.target)) && SaysWhat(x, cs[p], x.kind.target)
                           && forall q :: 0 <= q < |cs| && InSlot(cs[q], Existing(x.kind.target)) ==> q == p
  {
    var ts := Targets(cs);
    var i := LinkedFrom(cs, ts, firstId, |ts|, k);
    var s, g := Existing(ts[i]), Group(cs, Existing(ts[i]));
    assert OkAt(cs, ts, i);
    var p := GroupFrom(cs, s, |cs|, 0);
    assert SaysWhat(PlanOf(cs, firstId).linked[k], cs[p], ts[i]);
    forall q | 0 <= q < |cs| && InSlot(cs[q], s) ensures q == p {
      if q < p {
        TwoPlaces(cs, s, q, p);
      } else if p < q {
        TwoPlaces(cs, s, p, q);
      }
    }
  }

  /** What each new memory of a key is, in terms of the candidates with the key. */
  lemma KeyedCreationIs(cs: seq<Candidate>, firstId: nat, i: nat)
    requires Plannable(cs) && i < |PlanOf(cs, firstId).keyed|
    ensures PlanOf(cs, firstId).keyed[i].key.Some?
    ensures var x := PlanOf(cs, firstId).keyed[i];
            var s := Keyed(x.key.value);
            && Latest(cs, s, x.latestSourceTime)
            && (exists c :: Largest(cs, s, c) && x.confidence == Confidence.RoundToUnits(c))
            && (exists p :: Represents(cs, s, p) && x.facts == cs[p].facts
                            && (OneText(cs, s, x.content) || (x.content == cs[p].content.raw && forall text :: !OneText(cs, s, text))))
            && x.importance == StartingImportance(x.facts.memoryType)
  {
    KeysHaveTheirGroups(cs);
    var ks := Keys(cs);
    var s, g := Keyed(ks[i]), Group(cs, Keyed(ks[i]));
    KeyedCreationsAt(cs, ks, firstId + LinkCount(cs, Targets(cs), |Targets(cs)|), |ks|, i);
    LatestOfGroup(cs, s);
    LargestOfGroup(cs, s);
    var p := RepresentedBy(cs, s);
    ContentIs(cs, s, p);
  }

  lemma RepresentedBy(cs: seq<Candidate>, s: Slot) returns (p: nat)
    requires Group(cs, s) != []
    ensures Represents(cs, s, p) && cs[p] == Representative(Group(cs, s), |Group(cs, s)|)
  {
    var g := Group(cs, s);
    var k := RepresentativeIs(g, |g|);
    p := GroupFrom(cs, s, |cs|, k);
    forall q | 0 <= q < |cs| && InSlot(cs[q], s) ensures !RanksBefore(cs[q], cs[p]) {
      var l := PlaceOf(cs, s, q);
    }
  }

  lemma ContentIs(cs: seq<Candidate>, s: Slot, p: nat)
    requires Group(cs, s) != [] && p < |cs| && cs[p] == Representative(Group(cs, s), |Group(cs, s)|)
    ensures var content := CreateContent(Group(cs, s));
            OneText(cs, s, content) || (content == cs[p].content.raw && forall text :: !OneText(cs, s, text))
  {
    var g := Group(cs, s);
    if SameText(g) {
      forall q | 0 <= q < |cs| && InSlot(cs[q], s) ensures cs[q].content.normal == g[0].content.normal {
        var k := PlaceOf(cs, s, q);
      }
    } else {
      var k :| 0 < k < |g| && g[k].content.normal != g[0].content.normal;
      var q := GroupFrom(cs, s, |cs|, k);
      var r := GroupFrom(cs, s, |cs|, 0);
      forall text ensures !OneText(cs, s, text) {
        assert cs[q].content.normal != cs[r].content.normal;
      }
    }
  }
}
