/** What every plan keeps: it partitions the candidates, and links each superseding or
    conflicting update to one new memory. */
module ReconciliationLaws {
  import opened Options
  import opened ReconciliationPlan

  // ----- reading a plan -----

  lemma {:induction false} UpdatesAt(cs: seq<Candidate>, ts: seq<nat>, firstId: nat, n: nat, i: nat)
    requires i < n <= |ts| && AllOk(cs, ts, n)
    ensures Updates(cs, ts, firstId, n)[i] == UpdateAt(cs, ts, firstId, i)
  {
    if i < n - 1 {
      UpdatesAt(cs, ts, firstId, n - 1, i);
    }
  }

  lemma UpdateFacts(cs: seq<Candidate>, ts: seq<nat>, firstId: nat, i: nat)
    requires i < |ts| && AllOk(cs, ts, |ts|)
    ensures var u := Updates(cs, ts, firstId, |ts|)[i];
            && u == UpdateAt(cs, ts, firstId, i)
            && u.target == ts[i] && u.contributors == Contributors(Group(cs, Existing(ts[i])))
            && (Links(u.action) <==> u.newMemoryId.Some?) && (Links(u.action) <==> LinksAt(cs, ts, i))
  {
    UpdatesAt(cs, ts, firstId, |ts|, i);
    assert OkAt(cs, ts, i);
  }

  lemma {:induction false} LinkedAt(cs: seq<Candidate>, ts: seq<nat>, firstId: nat, n: nat, i: nat)
    requires i < n <= |ts| && LinksAt(cs, ts, i)
    ensures LinkCount(cs, ts, i) < LinkCount(cs, ts, n)
    ensures Linked(cs, ts, firstId, n)[LinkCount(cs, ts, i)] == LinkAt(cs, ts, firstId, i)
  {
    if i < n - 1 {
      LinkedAt(cs, ts, firstId, n - 1, i);
    }
  }

  /** Which target the k-th linked memory belongs to. */
  lemma {:induction false} LinkedFrom(cs: seq<Candidate>, ts: seq<nat>, firstId: nat, n: nat, k: nat) returns (i: nat)
    requires n <= |ts| && k < LinkCount(cs, ts, n)
    ensures i < n && LinksAt(cs, ts, i) && LinkCount(cs, ts, i) == k
    ensures Linked(cs, ts, firstId, n)[k] == LinkAt(cs, ts, firstId, i)
  {
    if k < LinkCount(cs, ts, n - 1) {
      i := LinkedFrom(cs, ts, firstId, n - 1, k);
    } else {
      i := n - 1;
    }
  }

  lemma {:induction false} KeyedCreationsAt(cs: seq<Candidate>, ks: seq<string>, firstId: nat, n: nat, i: nat)
    requires i < n <= |ks| && KeysHaveGroups(cs, ks)
    ensures KeyedCreations(cs, ks, firstId, n)[i] == KeyedAt(cs, ks, firstId, i)
  {
    if i < n - 1 {
      KeyedCreationsAt(cs, ks, firstId, n - 1, i);
    }
  }

  // ----- links -----

  /** Update `u` and creation `x` are the two halves of one supersede or conflict. */
  predicate Linking(u: Update, x: Creation) {
    && Links(u.action) && x.kind == (if u.action.Supersede? then Superseding(u.target) else ConflictingWith(u.target))
    && u.newMemoryId == Some(x.memoryId)
    && |u.contributors| == 1 && x.contributors == u.contributors
  }

  lemma FirstIsInSlot(cs: seq<Candidate>, s: Slot)
    requires Group(cs, s) != []
    ensures InSlot(Group(cs, s)[0], s)
  {
    GroupMembers(cs, s, |cs|, Group(cs, s)[0]);
  }

  lemma LinkingAt(cs: seq<Candidate>, firstId: nat, i: nat)
    requires Plannable(cs) && i < |Targets(cs)| && LinksAt(cs, Targets(cs), i)
    ensures Linking(UpdateAt(cs, Targets(cs), firstId, i), LinkAt(cs, Targets(cs), firstId, i))
  {
    assert OkAt(cs, Targets(cs), i);
    var g := Group(cs, Existing(Targets(cs)[i]));
    assert [g[0]] == g;
    FirstIsInSlot(cs, Existing(Targets(cs)[i]));
  }

  ghost predicate HasCreation(u: Update, xs: seq<Creation>) { exists k :: 0 <= k < |xs| && Linking(u, xs[k]) }

  ghost predicate HasUpdate(x: Creation, us: seq<Update>) { exists i :: 0 <= i < |us| && Linking(us[i], x) }

  /** Every update has its own target; it brings along a new memory exactly when it
      supersedes or conflicts, and each linked memory belongs to exactly one update. */
  lemma UpdatesAndLinks(cs: seq<Candidate>, firstId: nat)
    requires Plannable(cs)
    ensures var p := PlanOf(cs, firstId);
            && (forall i, j :: 0 <= i < j < |p.updates| ==> p.updates[i].target != p.updates[j].target)
            && (forall i :: 0 <= i < |p.updates| ==> (Links(p.updates[i].action) <==> p.updates[i].newMemoryId.Some?))
            && (forall i :: 0 <= i < |p.updates| && Links(p.updates[i].action) ==> HasCreation(p.updates[i], p.linked))
            && (forall k :: 0 <= k < |p.linked| ==> HasUpdate(p.linked[k], p.updates))
  {
    var p := PlanOf(cs, firstId);
    TargetsAre(cs, |cs|);
    forall i | 0 <= i < |p.updates|
      ensures p.updates[i].target == Targets(cs)[i]
      ensures Links(p.updates[i].action) <==> p.updates[i].newMemoryId.Some?
      ensures Links(p.updates[i].action) ==> HasCreation(p.updates[i], p.linked)
    {
      LinkOfUpdate(cs, firstId, i);
    }
    forall k | 0 <= k < |p.linked| ensures HasUpdate(p.linked[k], p.updates) {
      UpdateOfLink(cs, firstId, k);
    }
  }

  lemma LinkOfUpdate(cs: seq<Candidate>, firstId: nat, i: nat)
    requires Plannable(cs) && i < |Targets(cs)|
    ensures var u := PlanOf(cs, firstId).updates[i];
            && u.target == Targets(cs)[i] && (Links(u.action) <==> u.newMemoryId.Some?)
            && (Links(u.action) ==> HasCreation(u, PlanOf(cs, firstId).linked))
  {
    var ts := Targets(cs);
    UpdateFacts(cs, ts, firstId, i);
    if LinksAt(cs, ts, i) {
      LinkedAt(cs, ts, firstId, |ts|, i);
      LinkingAt(cs, firstId, i);
      assert Linking(PlanOf(cs, firstId).updates[i], PlanOf(cs, firstId).linked[LinkCount(cs, ts, i)]);
    }
  }

  lemma UpdateOfLink(cs: seq<Candidate>, firstId: nat, k: nat)
    requires Plannable(cs) && k < |PlanOf(cs, firstId).linked|
    ensures HasUpdate(PlanOf(cs, firstId).linked[k], PlanOf(cs, firstId).updates)
  {
    var ts := Targets(cs);
    var i := LinkedFrom(cs, ts, firstId, |ts|, k);
    UpdateFacts(cs, ts, firstId, i);
    LinkingAt(cs, firstId, i);
    assert Linking(PlanOf(cs, firstId).updates[i], PlanOf(cs, firstId).linked[k]);
  }

  /** The new memories take consecutive fresh ids, and each key gets one new memory. */
  lemma CreationsAreDistinct(cs: seq<Candidate>, firstId: nat)
    requires Plannable(cs)
    ensures var p := PlanOf(cs, firstId);
            && (forall k :: 0 <= k < |p.Creations()| ==> p.Creations()[k].memoryId == firstId + k)
            && (forall x :: x in p.linked ==> x.key.None?)
            && (forall i :: 0 <= i < |p.keyed| ==> p.keyed[i].kind.Fresh? && p.keyed[i].key.Some?)
            && (forall i, j :: 0 <= i < j < |p.keyed| ==> p.keyed[i].key != p.keyed[j].key)
  {
    var ts, ks, p := Targets(cs), Keys(cs), PlanOf(cs, firstId);
    KeysAre(cs, |cs|);
    KeysHaveTheirGroups(cs);
    var from := firstId + |p.linked|;
    forall i | 0 <= i < |ks| ensures p.keyed[i] == KeyedAt(cs, ks, from, i) {
      KeyedCreationsAt(cs, ks, from, |ks|, i);
    }
    forall k | 0 <= k < |p.linked| ensures p.linked[k].memoryId == firstId + k && p.linked[k].key.None? {
      var i := LinkedFrom(cs, ts, firstId, |ts|, k);
    }
  }

  // ----- the plan partitions the candidates -----

  /** 1 if `x` is what `c` contributes, and `b` holds. */
  function One(b: bool, c: Candidate, x: Contributor): nat {
    if b && x == Contributor(c.index, c.evidenceId) then 1 else 0
  }

  /** How often `x` is contributed by the candidates that take part. */
  function Aggregated(cs: seq<Candidate>, n: nat, x: Contributor): nat
    requires n <= |cs|
  {
    if n == 0 then 0 else Aggregated(cs, n - 1, x) + One(Aggregates(cs[n - 1]), cs[n - 1], x)
  }

  /** How often `x` is listed by the first `n` updates. */
  function InUpdates(us: seq<Update>, n: nat, x: Contributor): nat
    requires n <= |us|
  {
    if n == 0 then 0 else InUpdates(us, n - 1, x) + multiset(us[n - 1].contributors)[x]
  }

  /** How often `x` is listed by the first `n` creations. */
  function InCreations(xs: seq<Creation>, n: nat, x: Contributor): nat
    requires n <= |xs|
  {
    if n == 0 then 0 else InCreations(xs, n - 1, x) + multiset(xs[n - 1].contributors)[x]
  }

  /** How often `x` is contributed by candidates of a slot among the first `n`. */
  function InGroup(cs: seq<Candidate>, s: Slot, n: nat, x: Contributor): nat
    requires n <= |cs|
  {
    if n == 0 then 0 else InGroup(cs, s, n - 1, x) + One(InSlot(cs[n - 1], s), cs[n - 1], x)
  }

  /** The same for the first `k` slots together. */
  function Tally(cs: seq<Candidate>, slots: seq<Slot>, k: nat, n: nat, x: Contributor): nat
    requires n <= |cs| && k <= |slots|
  {
    if k == 0 then 0 else Tally(cs, slots, k - 1, n, x) + InGroup(cs, slots[k - 1], n, x)
  }

  predicate Distinct(slots: seq<Slot>) {
    forall i, j :: 0 <= i < j < |slots| ==> slots[i] != slots[j]
  }

  predicate Holds(c: Candidate, slots: seq<Slot>, k: nat)
    requires k <= |slots|
  {
    exists i :: 0 <= i < k && InSlot(c, slots[i])
  }

  lemma {:induction false} InGroupIsGroup(cs: seq<Candidate>, s: Slot, n: nat, x: Contributor)
    requires n <= |cs|
    ensures InGroup(cs, s, n, x) == multiset(Contributors(GroupUpTo(cs, s, n)))[x]
  {
    if n == 0 {
      assert Contributors(GroupUpTo(cs, s, 0)) == [];
    } else {
      InGroupIsGroup(cs, s, n - 1, x);
      var before, c := Contributors(GroupUpTo(cs, s, n - 1)), cs[n - 1];
      assert Contributors(GroupUpTo(cs, s, n)) == before + if InSlot(c, s) then [Contributor(c.index, c.evidenceId)] else [];
    }
  }

  lemma {:induction false} TallyStep(cs: seq<Candidate>, slots: seq<Slot>, k: nat, n: nat, x: Contributor)
    requires n < |cs| && k <= |slots| && Distinct(slots)
    ensures Tally(cs, slots, k, n + 1, x) == Tally(cs, slots, k, n, x) + One(Holds(cs[n], slots, k), cs[n], x)
  {
    if k > 0 {
      TallyStep(cs, slots, k - 1, n, x);
      assert Holds(cs[n], slots, k) <==> Holds(cs[n], slots, k - 1) || InSlot(cs[n], slots[k - 1]);
    }
  }

  lemma {:induction false} TallyOfNone(cs: seq<Candidate>, slots: seq<Slot>, k: nat, x: Contributor)
    requires k <= |slots|
    ensures Tally(cs, slots, k, 0, x) == 0
  {
    if k > 0 {
      TallyOfNone(cs, slots, k - 1, x);
    }
  }

  predicate HeldOnce(c: Candidate, a: seq<Slot>, b: seq<Slot>) {
    && (Aggregates(c) <==> Holds(c, a, |a|) || Holds(c, b, |b|))
    && !(Holds(c, a, |a|) && Holds(c, b, |b|))
  }

  /** Two slot lists that together hold every candidate, none twice, hold each once. */
  lemma {:induction false} SlotsPartition(cs: seq<Candidate>, a: seq<Slot>, b: seq<Slot>, n: nat, x: Contributor)
    requires n <= |cs| && Distinct(a) && Distinct(b)
    requires forall i :: 0 <= i < n ==> HeldOnce(cs[i], a, b)
    ensures Tally(cs, a, |a|, n, x) + Tally(cs, b, |b|, n, x) == Aggregated(cs, n, x)
  {
    if n == 0 {
      TallyOfNone(cs, a, |a|, x);
      TallyOfNone(cs, b, |b|, x);
    } else {
      SlotsPartition(cs, a, b, n - 1, x);
      TallyStep(cs, a, |a|, n - 1, x);
      TallyStep(cs, b, |b|, n - 1, x);
      assert HeldOnce(cs[n - 1], a, b);
    }
  }

  function ExistingSlots(ts: seq<nat>): (r: seq<Slot>)
    ensures |r| == |ts| && forall i :: 0 <= i < |ts| ==> r[i] == Existing(ts[i])
  {
    seq(|ts|, i requires 0 <= i < |ts| => Existing(ts[i]))
  }

  function KeyedSlots(ks: seq<string>): (r: seq<Slot>)
    ensures |r| == |ks| && forall i :: 0 <= i < |ks| ==> r[i] == Keyed(ks[i])
  {
    seq(|ks|, i requires 0 <= i < |ks| => Keyed(ks[i]))
  }

  lemma EveryCandidateHeldOnce(cs: seq<Candidate>, i: nat)
    requires i < |cs| && Placeable(cs[i])
    ensures HeldOnce(cs[i], ExistingSlots(Targets(cs)), KeyedSlots(Keys(cs)))
  {
    var a, b := ExistingSlots(Targets(cs)), KeyedSlots(Keys(cs));
    TargetsAre(cs, |cs|);
    KeysAre(cs, |cs|);
    if Aggregates(cs[i]) {
      var s := SlotOf(cs[i]);
      assert HasSlot(cs, s, |cs|);
      match s {
        case Existing(t) =>
          var j :| 0 <= j < |Targets(cs)| && Targets(cs)[j] == t;
          assert InSlot(cs[i], a[j]);
        case Keyed(k) =>
          var j :| 0 <= j < |Keys(cs)| && Keys(cs)[j] == k;
          assert InSlot(cs[i], b[j]);
      }
    }
  }

  lemma {:induction false} UpdatesTally(cs: seq<Candidate>, ts: seq<nat>, firstId: nat, n: nat, x: Contributor)
    requires n <= |ts| && AllOk(cs, ts, |ts|)
    ensures InUpdates(Updates(cs, ts, firstId, |ts|), n, x) == Tally(cs, ExistingSlots(ts), n, |cs|, x)
  {
    if n > 0 {
      UpdatesTally(cs, ts, firstId, n - 1, x);
      UpdateFacts(cs, ts, firstId, n - 1);
      InGroupIsGroup(cs, Existing(ts[n - 1]), |cs|, x);
      assert ExistingSlots(ts)[n - 1] == Existing(ts[n - 1]);
    }
  }

  lemma {:induction false} KeyedTally(cs: seq<Candidate>, ks: seq<string>, firstId: nat, n: nat, x: Contributor)
    requires n <= |ks| && KeysHaveGroups(cs, ks)
    ensures InCreations(KeyedCreations(cs, ks, firstId, |ks|), n, x) == Tally(cs, KeyedSlots(ks), n, |cs|, x)
  {
    if n > 0 {
      KeyedTally(cs, ks, firstId, n - 1, x);
      KeyedCreationsAt(cs, ks, firstId, |ks|, n - 1);
      InGroupIsGroup(cs, Keyed(ks[n - 1]), |cs|, x);
    }
  }

  lemma AllSlots(cs: seq<Candidate>, x: Contributor)
    requires forall i :: 0 <= i < |cs| ==> Placeable(cs[i])
    ensures Tally(cs, ExistingSlots(Targets(cs)), |Targets(cs)|, |cs|, x) + Tally(cs, KeyedSlots(Keys(cs)), |Keys(cs)|, |cs|, x)
         == Aggregated(cs, |cs|, x)
  {
    var a, b := ExistingSlots(Targets(cs)), KeyedSlots(Keys(cs));
    TargetsAre(cs, |cs|);
    KeysAre(cs, |cs|);
    forall i | 0 <= i < |cs| ensures HeldOnce(cs[i], a, b) {
      EveryCandidateHeldOnce(cs, i);
    }
    SlotsPartition(cs, a, b, |cs|, x);
  }

  function ByTarget(cs: seq<Candidate>, x: Contributor): nat {
    Tally(cs, ExistingSlots(Targets(cs)), |Targets(cs)|, |cs|, x)
  }

  function ByKey(cs: seq<Candidate>, x: Contributor): nat {
    Tally(cs, KeyedSlots(Keys(cs)), |Keys(cs)|, |cs|, x)
  }

  lemma PlannedUpdatesTally(cs: seq<Candidate>, firstId: nat, updates: seq<Update>, x: Contributor)
    requires Plannable(cs) && updates == PlanOf(cs, firstId).updates
    ensures InUpdates(updates, |updates|, x) == ByTarget(cs, x)
  {
    UpdatesTally(cs, Targets(cs), firstId, |Targets(cs)|, x);
  }

  lemma PlannedKeyedTally(cs: seq<Candidate>, firstId: nat, keyed: seq<Creation>, x: Contributor)
    requires Plannable(cs) && keyed == PlanOf(cs, firstId).keyed
    ensures InCreations(keyed, |keyed|, x) == ByKey(cs, x)
  {
    var from := PlannedKeyed(cs, firstId);
    KeyedTally(cs, Keys(cs), from, |Keys(cs)|, x);
  }

  lemma PlannedKeyed(cs: seq<Candidate>, firstId: nat) returns (from: nat)
    requires Plannable(cs)
    ensures KeysHaveGroups(cs, Keys(cs)) && PlanOf(cs, firstId).keyed == KeyedCreations(cs, Keys(cs), from, |Keys(cs)|)
  {
    KeysHaveTheirGroups(cs);
    from := firstId + LinkCount(cs, Targets(cs), |Targets(cs)|);
  }

  /** Every candidate that is not skipped contributes to exactly one update or keyed
      creation, once, and nothing else contributes. */
  lemma PlanPartitionsCandidates(cs: seq<Candidate>, firstId: nat, x: Contributor)
    requires Plannable(cs)
    ensures var p := PlanOf(cs, firstId);
            InUpdates(p.updates, |p.updates|, x) + InCreations(p.keyed, |p.keyed|, x) == Aggregated(cs, |cs|, x)
  {
    var p := PlanOf(cs, firstId);
    assert ByTarget(cs, x) + ByKey(cs, x) == Aggregated(cs, |cs|, x) by {
      AllSlots(cs, x);
    }
    PlannedUpdatesTally(cs, firstId, p.updates, x);
    PlannedKeyedTally(cs, firstId, p.keyed, x);
  }
}
