/** Grouping an archive's candidates into one plan of memory updates and creations
    (`build_reconciliation_plan`). */
module ReconciliationPlan {
  import opened Options
  import Confidence

  datatype MemoryType = Profile | Fact | Preference | Event

  datatype Action = Create | Merge | Supersede | Conflict | Skip

  /** What a candidate states besides its text. */
  datatype Facts = Facts(
    memoryType: MemoryType, subject: string, relation: string,
    objectEntity: Option<string>, objectValue: Option<string>,
    eventStatus: Option<string>, startTime: Option<string>, endTime: Option<string>, timeText: Option<string>)

  /** A digest of the archive id and the candidate's fingerprint, taken as injective. */
  datatype EvidenceId = EvidenceId(archive: string, fingerprint: nat)

  /** A text and its normal form (NFKC, single spaces, trimmed). */
  datatype Text = Text(raw: string, normal: string)

  /** A recalled memory, as far as planning reads it; confidence in units of 0.0001. */
  datatype Snapshot = Snapshot(memoryId: nat, confidence: int)

  /** The fingerprint is a digest of fixed length, so its text order is that of the number. */
  datatype Candidate = Candidate(
    index: nat, fingerprint: nat, evidenceId: EvidenceId, action: Action, target: Option<nat>, processed: bool,
    mergedContent: Option<Text>, key: Option<string>, facts: Facts, content: Text,
    confidence: real, sourceTime: int, recalled: seq<Snapshot>)

  datatype Contributor = Contributor(index: nat, evidenceId: EvidenceId)

  datatype Update = Update(
    target: nat, action: Action, contributors: seq<Contributor>,
    mergedContent: Option<string>, mergedConfidence: Option<int>, latestSourceTime: int, newMemoryId: Option<nat>)

  datatype Kind = Fresh | Superseding(target: nat) | ConflictingWith(target: nat)

  datatype Creation = Creation(
    kind: Kind, memoryId: nat, key: Option<string>, facts: Facts, content: string,
    confidence: int, importance: int, latestSourceTime: int, contributors: seq<Contributor>)

  /** The planned new memories: first those that updates bring along, then one per key. */
  datatype Plan = Plan(updates: seq<Update>, linked: seq<Creation>, keyed: seq<Creation>) {
    function Creations(): seq<Creation> { linked + keyed }
  }

  datatype Outcome = Success(plan: Plan) | PlanConflict

  // ----- grouping -----

  predicate Aggregates(c: Candidate) { !c.processed && !c.action.Skip? }

  /** Where a candidate goes: to an existing memory, or to a new one with its key. */
  datatype Slot = Existing(target: nat) | Keyed(key: string)

  predicate InSlot(c: Candidate, s: Slot) {
    Aggregates(c) && match s
      case Existing(t) => !c.action.Create? && c.target == Some(t)
      case Keyed(k) => c.action.Create? && c.key == Some(k)
  }

  predicate Placeable(c: Candidate) {
    Aggregates(c) ==> if c.action.Create? then c.key.Some? else c.target.Some?
  }

  function SlotOf(c: Candidate): Slot
    requires Aggregates(c) && Placeable(c)
  {
    if c.action.Create? then Keyed(c.key.value) else Existing(c.target.value)
  }

  /** The candidates of a slot among the first `n`. */
  function GroupUpTo(cs: seq<Candidate>, s: Slot, n: nat): seq<Candidate>
    requires n <= |cs|
  {
    if n == 0 then [] else GroupUpTo(cs, s, n - 1) + if InSlot(cs[n - 1], s) then [cs[n - 1]] else []
  }

  function Group(cs: seq<Candidate>, s: Slot): seq<Candidate> { GroupUpTo(cs, s, |cs|) }

  /** The targets among the first `n`, in order of first occurrence. */
  function TargetsUpTo(cs: seq<Candidate>, n: nat): seq<nat>
    requires n <= |cs|
  {
    if n == 0 then []
    else
      var ts, c := TargetsUpTo(cs, n - 1), cs[n - 1];
      if Aggregates(c) && !c.action.Create? && c.target.Some? && c.target.value !in ts then ts + [c.target.value] else ts
  }

  function KeysUpTo(cs: seq<Candidate>, n: nat): seq<string>
    requires n <= |cs|
  {
    if n == 0 then []
    else
      var ks, c := KeysUpTo(cs, n - 1), cs[n - 1];
      if Aggregates(c) && c.action.Create? && c.key.Some? && c.key.value !in ks then ks + [c.key.value] else ks
  }

  function Targets(cs: seq<Candidate>): seq<nat> { TargetsUpTo(cs, |cs|) }

  function Keys(cs: seq<Candidate>): seq<string> { KeysUpTo(cs, |cs|) }

  // ----- one group -----

  /** The first of the first `n` snapshots of `t`. */
  function Find(ss: seq<Snapshot>, t: nat, n: nat): Option<Snapshot>
    requires n <= |ss|
  {
    if n == 0 then None
    else
      var before := Find(ss, t, n - 1);
      if before.None? && ss[n - 1].memoryId == t then Some(ss[n - 1]) else before
  }

  /** The first snapshot of `t` recalled by the first `n` of the group. */
  function FirstSnapshot(g: seq<Candidate>, t: nat, n: nat): Option<Snapshot>
    requires n <= |g|
  {
    if n == 0 then None
    else
      var before := FirstSnapshot(g, t, n - 1);
      if before.Some? then before else Find(g[n - 1].recalled, t, |g[n - 1].recalled|)
  }

  function MaxConfidence(g: seq<Candidate>, n: nat): real
    requires 0 < n <= |g|
  {
    if n == 1 then g[0].confidence
    else
      var m, c := MaxConfidence(g, n - 1), g[n - 1].confidence;
      if m < c then c else m
  }

  function MaxTime(g: seq<Candidate>, n: nat): int
    requires 0 < n <= |g|
  {
    if n == 1 then g[0].sourceTime
    else
      var m, c := MaxTime(g, n - 1), g[n - 1].sourceTime;
      if m < c then c else m
  }

  /** The sort key: most confident, then latest, then smallest fingerprint. */
  predicate RanksBefore(a: Candidate, b: Candidate) {
    a.confidence > b.confidence
    || (a.confidence == b.confidence
        && (a.sourceTime > b.sourceTime || (a.sourceTime == b.sourceTime && a.fingerprint < b.fingerprint)))
  }

  /** `_select_structural_representative`: the first of a stable sort by that key. */
  function Representative(g: seq<Candidate>, n: nat): Candidate
    requires 0 < n <= |g|
  {
    if n == 1 then g[0]
    else
      var b, c := Representative(g, n - 1), g[n - 1];
      if RanksBefore(c, b) then c else b
  }

  predicate SameText(g: seq<Candidate>) {
    forall i :: 0 < i < |g| ==> g[i].content.normal == g[0].content.normal
  }

  /** `_select_create_content`. */
  function CreateContent(g: seq<Candidate>): string
    requires g != []
  {
    if SameText(g) then g[0].content.normal else Representative(g, |g|).content.raw
  }

  /** The normalised merged texts present in the first `n`, in order. */
  function MergedTexts(g: seq<Candidate>, n: nat): seq<string>
    requires n <= |g|
  {
    if n == 0 then []
    else
      MergedTexts(g, n - 1) + if g[n - 1].mergedContent.Some? then [g[n - 1].mergedContent.value.normal] else []
  }

  predicate Agree(texts: seq<string>) {
    forall i :: 0 < i < |texts| ==> texts[i] == texts[0]
  }

  predicate SameAction(g: seq<Candidate>) {
    forall i :: 0 < i < |g| ==> g[i].action == g[0].action
  }

  predicate Links(a: Action) { a.Supersede? || a.Conflict? }

  /** The group can be planned as one update of `t`. */
  predicate GroupOk(g: seq<Candidate>, t: nat) {
    && g != []
    && SameAction(g)
    && (Links(g[0].action) ==> |g| == 1)
    && FirstSnapshot(g, t, |g|).Some?
    && (g[0].action.Merge? ==> Agree(MergedTexts(g, |g|)))
  }

  function Contributors(g: seq<Candidate>): (r: seq<Contributor>)
    ensures |r| == |g| && forall i :: 0 <= i < |g| ==> r[i] == Contributor(g[i].index, g[i].evidenceId)
  {
    seq(|g|, i requires 0 <= i < |g| => Contributor(g[i].index, g[i].evidenceId))
  }

  function Importance(m: MemoryType): int {
    match m case Profile => 75 case Fact => 70 case Preference => 65 case Event => 55
  }

  function UpdateOf(g: seq<Candidate>, t: nat, newId: nat): Update
    requires GroupOk(g, t)
  {
    var merging, texts := g[0].action.Merge?, MergedTexts(g, |g|);
    Update(t, g[0].action, Contributors(g),
           if merging && texts != [] then Some(texts[0]) else None,
           if merging then
             Some(Confidence.Merge(FirstSnapshot(g, t, |g|).value.confidence, Confidence.RoundToUnits(MaxConfidence(g, |g|))))
           else None,
           MaxTime(g, |g|),
           if Links(g[0].action) then Some(newId) else None)
  }

  function LinkedCreation(c: Candidate, t: nat, id: nat): Creation {
    Creation(if c.action.Supersede? then Superseding(t) else ConflictingWith(t), id, None, c.facts, c.content.raw,
             Confidence.RoundToUnits(c.confidence), Importance(c.facts.memoryType), c.sourceTime, Contributors([c]))
  }

  function KeyedCreation(g: seq<Candidate>, k: string, id: nat): Creation
    requires g != []
  {
    var facts := Representative(g, |g|).facts;
    Creation(Fresh, id, Some(k), facts, CreateContent(g),
             Confidence.RoundToUnits(MaxConfidence(g, |g|)), Importance(facts.memoryType), MaxTime(g, |g|), Contributors(g))
  }

  // ----- the plan -----

  predicate OkAt(cs: seq<Candidate>, ts: seq<nat>, i: nat)
    requires i < |ts|
  {
    GroupOk(Group(cs, Existing(ts[i])), ts[i])
  }

  predicate AllOk(cs: seq<Candidate>, ts: seq<nat>, n: nat)
    requires n <= |ts|
  {
    forall i :: 0 <= i < n ==> OkAt(cs, ts, i)
  }

  predicate Plannable(cs: seq<Candidate>) {
    (forall i :: 0 <= i < |cs| ==> Placeable(cs[i])) && AllOk(cs, Targets(cs), |Targets(cs)|)
  }

  predicate LinksAt(cs: seq<Candidate>, ts: seq<nat>, i: nat)
    requires i < |ts|
  {
    var g := Group(cs, Existing(ts[i]));
    g != [] && Links(g[0].action)
  }

  /** How many of the first `n` targets get a new memory. */
  function LinkCount(cs: seq<Candidate>, ts: seq<nat>, n: nat): (r: nat)
    requires n <= |ts|
    ensures r <= n
  {
    if n == 0 then 0 else LinkCount(cs, ts, n - 1) + if LinksAt(cs, ts, n - 1) then 1 else 0
  }

  function UpdateAt(cs: seq<Candidate>, ts: seq<nat>, firstId: nat, i: nat): Update
    requires i < |ts| && OkAt(cs, ts, i)
  {
    UpdateOf(Group(cs, Existing(ts[i])), ts[i], firstId + LinkCount(cs, ts, i))
  }

  /** The updates of the first `n` targets. */
  function Updates(cs: seq<Candidate>, ts: seq<nat>, firstId: nat, n: nat): (r: seq<Update>)
    requires n <= |ts| && AllOk(cs, ts, n)
    ensures |r| == n
  {
    if n == 0 then [] else Updates(cs, ts, firstId, n - 1) + [UpdateAt(cs, ts, firstId, n - 1)]
  }

  function LinkAt(cs: seq<Candidate>, ts: seq<nat>, firstId: nat, i: nat): Creation
    requires i < |ts| && LinksAt(cs, ts, i)
  {
    LinkedCreation(Group(cs, Existing(ts[i]))[0], ts[i], firstId + LinkCount(cs, ts, i))
  }

  /** The new memories that those updates bring along. */
  function Linked(cs: seq<Candidate>, ts: seq<nat>, firstId: nat, n: nat): (r: seq<Creation>)
    requires n <= |ts|
    ensures |r| == LinkCount(cs, ts, n)
  {
    if n == 0 then []
    else Linked(cs, ts, firstId, n - 1) + if LinksAt(cs, ts, n - 1) then [LinkAt(cs, ts, firstId, n - 1)] else []
  }

  function KeyedAt(cs: seq<Candidate>, ks: seq<string>, firstId: nat, i: nat): Creation
    requires i < |ks| && Group(cs, Keyed(ks[i])) != []
  {
    KeyedCreation(Group(cs, Keyed(ks[i])), ks[i], firstId + i)
  }

  predicate KeysHaveGroups(cs: seq<Candidate>, ks: seq<string>) {
    forall i :: 0 <= i < |ks| ==> Group(cs, Keyed(ks[i])) != []
  }

  /** One new memory for each of the first `n` keys. */
  function KeyedCreations(cs: seq<Candidate>, ks: seq<string>, firstId: nat, n: nat): (r: seq<Creation>)
    requires n <= |ks| && KeysHaveGroups(cs, ks)
    ensures |r| == n
  {
    if n == 0 then []
    else KeyedCreations(cs, ks, firstId, n - 1) + [KeyedAt(cs, ks, firstId, n - 1)]
  }

  function PlanOf(cs: seq<Candidate>, firstId: nat): Plan
    requires Plannable(cs)
  {
    var ts, ks := Targets(cs), Keys(cs);
    KeysHaveTheirGroups(cs);
    Plan(Updates(cs, ts, firstId, |ts|),
         Linked(cs, ts, firstId, |ts|),
         KeyedCreations(cs, ks, firstId + LinkCount(cs, ts, |ts|), |ks|))
  }

  // ----- facts about grouping -----

  lemma GroupMembers(cs: seq<Candidate>, s: Slot, n: nat, c: Candidate)
    requires n <= |cs|
    ensures multiset(GroupUpTo(cs, s, n))[c] == if InSlot(c, s) then multiset(cs[..n])[c] else 0
    ensures c in GroupUpTo(cs, s, n) <==> c in cs[..n] && InSlot(c, s)
  {
    GroupCount(cs, s, n, c);
    assert c in GroupUpTo(cs, s, n) <==> c in multiset(GroupUpTo(cs, s, n));
    assert c in cs[..n] <==> c in multiset(cs[..n]);
  }

  lemma CountAppend<T>(s: seq<T>, x: T, c: T)
    ensures multiset(s + [x])[c] == multiset(s)[c] + if x == c then 1 else 0
  {
  }

  lemma {:induction false} GroupCount(cs: seq<Candidate>, s: Slot, n: nat, c: Candidate)
    requires n <= |cs|
    ensures multiset(GroupUpTo(cs, s, n))[c] == if InSlot(c, s) then multiset(cs[..n])[c] else 0
  {
    if n > 0 {
      GroupCount(cs, s, n - 1, c);
      assert cs[..n] == cs[..n - 1] + [cs[n - 1]];
      CountAppend(cs[..n - 1], cs[n - 1], c);
      CountAppend(GroupUpTo(cs, s, n - 1), cs[n - 1], c);
    }
  }

  predicate HasSlot(cs: seq<Candidate>, s: Slot, n: nat)
    requires n <= |cs|
  {
    exists i :: 0 <= i < n && InSlot(cs[i], s)
  }

  lemma {:induction false} TargetsAre(cs: seq<Candidate>, n: nat)
    requires n <= |cs|
    ensures forall t :: t in TargetsUpTo(cs, n) <==> HasSlot(cs, Existing(t), n)
    ensures forall i, j :: 0 <= i < j < |TargetsUpTo(cs, n)| ==> TargetsUpTo(cs, n)[i] != TargetsUpTo(cs, n)[j]
  {
    if n > 0 {
      TargetsAre(cs, n - 1);
      forall t ensures t in TargetsUpTo(cs, n) <==> HasSlot(cs, Existing(t), n) {
        assert HasSlot(cs, Existing(t), n) <==> HasSlot(cs, Existing(t), n - 1) || InSlot(cs[n - 1], Existing(t));
      }
    }
  }

  lemma {:induction false} KeysAre(cs: seq<Candidate>, n: nat)
    requires n <= |cs|
    ensures forall k :: k in KeysUpTo(cs, n) <==> HasSlot(cs, Keyed(k), n)
    ensures forall i, j :: 0 <= i < j < |KeysUpTo(cs, n)| ==> KeysUpTo(cs, n)[i] != KeysUpTo(cs, n)[j]
  {
    if n > 0 {
      KeysAre(cs, n - 1);
      forall k ensures k in KeysUpTo(cs, n) <==> HasSlot(cs, Keyed(k), n) {
        assert HasSlot(cs, Keyed(k), n) <==> HasSlot(cs, Keyed(k), n - 1) || InSlot(cs[n - 1], Keyed(k));
      }
    }
  }

  lemma {:induction false} UnlistedGroupIsEmpty(cs: seq<Candidate>, s: Slot, n: nat)
    requires n <= |cs|
    ensures GroupUpTo(cs, s, n) == [] <==> !HasSlot(cs, s, n)
  {
    if n > 0 {
      UnlistedGroupIsEmpty(cs, s, n - 1);
    }
  }

  lemma KeysHaveTheirGroups(cs: seq<Candidate>)
    ensures KeysHaveGroups(cs, Keys(cs))
  {
    KeysAre(cs, |cs|);
    forall i | 0 <= i < |Keys(cs)| ensures Group(cs, Keyed(Keys(cs)[i])) != [] {
      assert Keys(cs)[i] in Keys(cs);
      UnlistedGroupIsEmpty(cs, Keyed(Keys(cs)[i]), |cs|);
    }
  }

  // ----- the builder -----

  /** The dictionaries hold the group of every listed target or key. */
  ghost predicate Grouped(cs: seq<Candidate>, n: nat, ts: seq<nat>, existing: map<nat, seq<Candidate>>, ks: seq<string>, keyed: map<string, seq<Candidate>>)
    requires n <= |cs|
  {
    && ts == TargetsUpTo(cs, n) && ks == KeysUpTo(cs, n)
    && (forall t :: t in existing <==> t in ts) && (forall k :: k in keyed <==> k in ks)
    && (forall t :: t in ts ==> existing[t] == GroupUpTo(cs, Existing(t), n))
    && (forall k :: k in ks ==> keyed[k] == GroupUpTo(cs, Keyed(k), n))
  }

  /** Filling the two dictionaries; a candidate without target or key stops the planning. */
  method GroupCandidates(cs: seq<Candidate>)
    returns (placed: bool, targets: seq<nat>, existing: map<nat, seq<Candidate>>, keys: seq<string>, keyed: map<string, seq<Candidate>>)
    ensures placed <==> forall i :: 0 <= i < |cs| ==> Placeable(cs[i])
    ensures placed ==> Grouped(cs, |cs|, targets, existing, keys, keyed)
  {
    placed, targets, existing, keys, keyed := true, [], map[], [], map[];
    for n := 0 to |cs|
      invariant forall i :: 0 <= i < n ==> Placeable(cs[i])
      invariant Grouped(cs, n, targets, existing, keys, keyed)
    {
      if !Placeable(cs[n]) {
        return false, targets, existing, keys, keyed;
      }
      ghost var before := (targets, existing, keys, keyed);
      if Aggregates(cs[n]) {
        if cs[n].action.Create? {
          keys, keyed := AddToGroup(keys, keyed, cs[n].key.value, cs[n]);
        } else {
          targets, existing := AddToGroup(targets, existing, cs[n].target.value, cs[n]);
        }
      }
      GroupedStep(cs, n, before.0, before.1, before.2, before.3, targets, existing, keys, keyed);
    }
    placed := true;
  }

  /** Append to the list of an insertion-ordered dictionary. */
  method AddToGroup<K(==)>(order: seq<K>, groups: map<K, seq<Candidate>>, k: K, c: Candidate)
    returns (order': seq<K>, groups': map<K, seq<Candidate>>)
    ensures order' == AddedOrder(order, groups, k) && groups' == AddedGroups(groups, k, c)
  {
    order', groups' := order, groups;
    if k !in groups' {
      order', groups' := order' + [k], groups'[k := []];
    }
    groups' := groups'[k := groups'[k] + [c]];
  }

  function AddedOrder<K(==)>(order: seq<K>, groups: map<K, seq<Candidate>>, k: K): seq<K> {
    if k in groups then order else order + [k]
  }

  function AddedGroups<K(==)>(groups: map<K, seq<Candidate>>, k: K, c: Candidate): map<K, seq<Candidate>> {
    groups[k := (if k in groups then groups[k] else []) + [c]]
  }

  lemma GroupedStep(cs: seq<Candidate>, n: nat,
                    ts: seq<nat>, existing: map<nat, seq<Candidate>>, ks: seq<string>, keyed: map<string, seq<Candidate>>,
                    ts': seq<nat>, existing': map<nat, seq<Candidate>>, ks': seq<string>, keyed': map<string, seq<Candidate>>)
    requires n < |cs| && Placeable(cs[n]) && Grouped(cs, n, ts, existing, ks, keyed)
    requires var c := cs[n];
             if !Aggregates(c) then ts' == ts && existing' == existing && ks' == ks && keyed' == keyed
             else if c.action.Create? then
               ts' == ts && existing' == existing
               && ks' == AddedOrder(ks, keyed, c.key.value) && keyed' == AddedGroups(keyed, c.key.value, c)
             else
               ks' == ks && keyed' == keyed
               && ts' == AddedOrder(ts, existing, c.target.value) && existing' == AddedGroups(existing, c.target.value, c)
    ensures Grouped(cs, n + 1, ts', existing', ks', keyed')
  {
    TargetsAre(cs, n);
    KeysAre(cs, n);
    forall t | t in ts' ensures existing'[t] == GroupUpTo(cs, Existing(t), n + 1) {
      UnlistedGroupIsEmpty(cs, Existing(t), n);
    }
    forall k | k in ks' ensures keyed'[k] == GroupUpTo(cs, Keyed(k), n + 1) {
      UnlistedGroupIsEmpty(cs, Keyed(k), n);
    }
  }

  /** One update per target, with the new memory it brings along; stops at a conflict. */
  method PlanUpdates(candidates: seq<Candidate>, targets: seq<nat>, existing: map<nat, seq<Candidate>>, firstId: nat)
    returns (ok: bool, updates: seq<Update>, linked: seq<Creation>)
    requires forall i :: 0 <= i < |targets| ==> targets[i] in existing && existing[targets[i]] == Group(candidates, Existing(targets[i]))
    ensures ok <==> AllOk(candidates, targets, |targets|)
    ensures ok ==> updates == Updates(candidates, targets, firstId, |targets|) && linked == Linked(candidates, targets, firstId, |targets|)
  {
    ok, updates, linked := true, [], [];
    for n := 0 to |targets|
      invariant AllOk(candidates, targets, n)
      invariant updates == Updates(candidates, targets, firstId, n)
      invariant linked == Linked(candidates, targets, firstId, n)
    {
      var fits, update, creation := PlanTarget(candidates, targets, n, existing[targets[n]], firstId + |linked|);
      if !fits {
        return false, updates, linked;
      }
      updates := updates + update;
      linked := linked + creation;
    }
    ok := true;
  }

  /** The body of that loop for one target. */
  method PlanTarget(ghost candidates: seq<Candidate>, targets: seq<nat>, n: nat, group: seq<Candidate>, newId: nat)
    returns (fits: bool, update: seq<Update>, creation: seq<Creation>)
    requires n < |targets| && group == Group(candidates, Existing(targets[n]))
    ensures fits <==> OkAt(candidates, targets, n)
    ensures fits ==> forall firstId: nat :: newId == firstId + LinkCount(candidates, targets, n) ==>
              && update == [UpdateAt(candidates, targets, firstId, n)]
              && creation == if LinksAt(candidates, targets, n) then [LinkAt(candidates, targets, firstId, n)] else []
  {
    if !GroupOk(group, targets[n]) {
      return false, [], [];
    }
    fits, update := true, [UpdateOf(group, targets[n], newId)];
    creation := if Links(group[0].action) then [LinkedCreation(group[0], targets[n], newId)] else [];
  }

  /** One new memory per key, after the linked ones. */
  method PlanCreations(candidates: seq<Candidate>, keys: seq<string>, keyed: map<string, seq<Candidate>>, firstId: nat)
    returns (creations: seq<Creation>)
    requires KeysHaveGroups(candidates, keys)
    requires forall i :: 0 <= i < |keys| ==> keys[i] in keyed && keyed[keys[i]] == Group(candidates, Keyed(keys[i]))
    ensures creations == KeyedCreations(candidates, keys, firstId, |keys|)
  {
    creations := [];
    for n := 0 to |keys|
      invariant creations == KeyedCreations(candidates, keys, firstId, n)
    {
      creations := creations + [KeyedCreation(keyed[keys[n]], keys[n], firstId + |creations|)];
    }
  }

  ghost predicate IsPlan(cs: seq<Candidate>, firstId: nat, ts: seq<nat>, ks: seq<string>, plan: Plan)
    requires AllOk(cs, ts, |ts|) && KeysHaveGroups(cs, ks)
  {
    && plan.updates == Updates(cs, ts, firstId, |ts|)
    && plan.linked == Linked(cs, ts, firstId, |ts|)
    && plan.keyed == KeyedCreations(cs, ks, firstId + |plan.linked|, |ks|)
  }

  lemma IsPlanIsPlanOf(cs: seq<Candidate>, firstId: nat, ts: seq<nat>, ks: seq<string>, plan: Plan)
    requires Plannable(cs) && ts == Targets(cs) && ks == Keys(cs)
    requires KeysHaveGroups(cs, ks) && IsPlan(cs, firstId, ts, ks, plan)
    ensures plan == PlanOf(cs, firstId)
  {
  }

  /** `build_reconciliation_plan`. */
  method BuildReconciliationPlan(candidates: seq<Candidate>, firstId: nat) returns (r: Outcome)
    ensures r == if Plannable(candidates) then Success(PlanOf(candidates, firstId)) else PlanConflict
  {
    var placed, targets, existing, keys, keyed := GroupCandidates(candidates);
    if !placed {
      return PlanConflict;
    }
    var ok, updates, linked := PlanUpdates(candidates, targets, existing, firstId);
    if !ok {
      return PlanConflict;
    }
    KeysHaveTheirGroups(candidates);
    var creations := PlanCreations(candidates, keys, keyed, firstId + |linked|);
    r := Success(Plan(updates, linked, creations));
    IsPlanIsPlanOf(candidates, firstId, targets, keys, r.plan);
  }
}
