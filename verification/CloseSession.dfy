/** One sequential close attempt (`build_close_plan`, `close_session`) over the stores,
    and its place among the runs of the protocol. */
module CloseSession {
  import opened Options
  import opened CloseSplit
  import opened CloseProtocol
  import opened CloseInvariant
  import opened CloseSafety
  import opened CloseSteps

  // ----- the close plan -----

  datatype CloseBatch = CloseBatch(key: string, messages: seq<Message>, archiveId: Option<nat>) {
    predicate IsPendingReuse() { archiveId.Some? }
  }

  datatype PlanResult =
    | Plan(batches: seq<CloseBatch>)
    | MalformedVersion
    | BoundaryMismatch
    | MessageTooLarge(message: Message)

  function Contents(bs: seq<CloseBatch>): seq<seq<Message>> {
    seq(|bs|, i requires 0 <= i < |bs| => bs[i].messages)
  }

  predicate PendingUsable(pendingKey: Option<string>, pendingCount: int, n: nat) {
    pendingKey.Some? && pendingKey.value != "" && 0 < pendingCount <= n
  }

  predicate SuffixKeysOk(sessionId: string, bs: seq<CloseBatch>) {
    forall i :: 0 <= i < |bs| ==>
      bs[i].messages != [] && !bs[i].IsPendingReuse() && bs[i].key == SegmentKey(sessionId, bs[i].messages)
  }

  /** The suffix batches with their keys. */
  method KeyedBatches(sessionId: string, split: seq<seq<Message>>) returns (rest: seq<CloseBatch>)
    requires forall i :: 0 <= i < |split| ==> split[i] != []
    ensures SuffixKeysOk(sessionId, rest) && Contents(rest) == split
  {
    rest := [];
    for i := 0 to |split|
      invariant |rest| == i && SuffixKeysOk(sessionId, rest)
      invariant forall k :: 0 <= k < i ==> rest[k].messages == split[k]
    {
      rest := rest + [CloseBatch(SegmentKey(sessionId, split[i]), split[i], None)];
    }
  }

  lemma ContentsConcat(a: seq<CloseBatch>, b: seq<CloseBatch>)
    ensures (a + b)[|a|..] == b
    ensures Contents(a + b) == Contents(a) + Contents(b)
    ensures Flatten(Contents(a + b)) == Flatten(Contents(a)) + Flatten(Contents(b))
  {
    assert Contents(a + b) == Contents(a) + Contents(b);
    FlattenConcat(Contents(a), Contents(b));
  }

  ghost predicate IsFirstTooLarge(messages: seq<Message>, cap: nat, m: Message) { exists i :: FirstTooLarge(messages, cap, i, m) }

  /** `build_close_plan`: the pending head, if any, then the greedy split of the rest. */
  method BuildClosePlan(sessionId: string, version: int, pendingId: Option<nat>, pendingKey: Option<string>,
                        pendingCount: int, messages: seq<Message>, cap: nat)
    returns (r: PlanResult)
    ensures r.Plan? <==>
              && 0 <= version
              && (pendingId.Some? ==> PendingUsable(pendingKey, pendingCount, |messages|))
              && AllFit(messages[if pendingId.Some? then pendingCount else 0..], cap)
    ensures r.Plan? && pendingId.None? ==>
              SuffixKeysOk(sessionId, r.batches) && Contents(r.batches) == Split(messages, cap)
    ensures r.Plan? && pendingId.Some? ==>
              && |r.batches| > 0
              && r.batches[0] == CloseBatch(pendingKey.value, messages[..pendingCount], pendingId)
              && SuffixKeysOk(sessionId, r.batches[1..])
              && Contents(r.batches[1..]) == Split(messages[pendingCount..], cap)
    ensures r.Plan? ==> Flatten(Contents(r.batches)) == messages
    // otherwise the first thing that is wrong
    ensures r.MalformedVersion? <==> version < 0
    ensures r.BoundaryMismatch? <==> 0 <= version && pendingId.Some? && !PendingUsable(pendingKey, pendingCount, |messages|)
    ensures r.MessageTooLarge? ==> IsFirstTooLarge(messages[if pendingId.Some? then pendingCount else 0..], cap, r.message)
  {
    if version < 0 {
      return MalformedVersion;
    }
    var batches: seq<CloseBatch> := [];
    var suffix := messages;
    if pendingId.Some? {
      if !(pendingKey.Some? && pendingKey.value != "" && 0 < pendingCount) || |messages| < pendingCount {
        return BoundaryMismatch;
      }
      batches := [CloseBatch(pendingKey.value, messages[..pendingCount], pendingId)];
      suffix := messages[pendingCount..];
    }
    assert messages[0..] == messages;
    var split := SplitCloseSuffixBatches(suffix, cap);
    if split.TooLarge? {
      return MessageTooLarge(split.message);
    }
    SplitIsPartition(suffix, cap);
    var rest := KeyedBatches(sessionId, split.batches);
    ContentsConcat(batches, rest);
    return Plan(batches + rest);
  }

  // ----- the close attempt -----

  datatype CloseResult =
    | LockNotAcquired
    | SessionNotFound
    | PlanFailed(why: PlanResult)
    | ArchiveFailed(done: nat)
    | VersionMismatch
    | Closed(archiveIds: seq<nat>)

  /** The archive call for batch `i` meets an archive written at another version. */
  predicate ClashAt(cfg: Config, store: map<string, Archive>, version: nat, todo: seq<seq<Message>>, i: nat)
    requires i < |todo|
  {
    todo[i] != [] && SegmentKey(cfg.sessionId, todo[i]) in store && store[SegmentKey(cfg.sessionId, todo[i])].version != version
  }

  ghost predicate NoVersionClash(cfg: Config, store: map<string, Archive>, version: nat, todo: seq<seq<Message>>) {
    forall i :: 0 <= i < |todo| ==> !ClashAt(cfg, store, version, todo, i)
  }

  /** The request for batch `i` is lost, or its reply. */
  predicate FaultAt(faults: seq<Fault>, i: nat) { i < |faults| && !faults[i].NoFault? }

  /** The first `n` archive calls go through. */
  ghost predicate Smooth(cfg: Config, store: map<string, Archive>, version: nat, todo: seq<seq<Message>>, faults: seq<Fault>, n: nat)
    requires n <= |todo|
  {
    forall i :: 0 <= i < n ==> !FaultAt(faults, i) && !ClashAt(cfg, store, version, todo, i)
  }

  /** The archives of the first `n` batches are there, at the version. */
  ghost predicate Confirmed(cfg: Config, store: map<string, Archive>, version: nat, todo: seq<seq<Message>>, n: nat)
    requires n <= |todo|
  {
    forall i :: 0 <= i < n ==> todo[i] != [] && SegmentKey(cfg.sessionId, todo[i]) in store
                               && store[SegmentKey(cfg.sessionId, todo[i])].version == version
  }

  /** What the first archive call that does not go through makes of the attempt, the batches
      before it being archived; if all go through it closes. */
  ghost predicate StopsAt(cfg: Config, store: map<string, Archive>, store': map<string, Archive>, version: nat,
                          todo: seq<seq<Message>>, faults: seq<Fault>, r: CloseResult, n: nat) {
    && n <= |todo| && Smooth(cfg, store, version, todo, faults, n) && Confirmed(cfg, store', version, todo, n)
    && if n == |todo| then r.Closed?
       else if FaultAt(faults, n) then r == ArchiveFailed(n)
       else r.VersionMismatch? && ClashAt(cfg, store, version, todo, n)
  }

  /** Why there is no plan: an unusable pending archive, or else the first message behind it
      that no archive can take. */
  ghost predicate IsWhy(cfg: Config, ses: Session, why: PlanResult) {
    var head := HeadCount(ses.pending);
    if ses.pending.Some? && !PendingUsable(Some(ses.pending.value.key), head, |ses.messages|) then why.BoundaryMismatch?
    else why.MessageTooLarge? && head <= |ses.messages| && IsFirstTooLarge(ses.messages[head..], cfg.cap, why.message)
  }

  /** How an attempt ends that has the lock and finds the session. */
  ghost predicate EndsAs(cfg: Config, ses: Session, store: map<string, Archive>, store': map<string, Archive>, faults: seq<Fault>, r: CloseResult) {
    && (r.PlanFailed? <==> !Plannable(cfg, ses))
    && (r.PlanFailed? ==> IsWhy(cfg, ses, r.why))
    && (Plannable(cfg, ses) ==> exists n :: StopsAt(cfg, store, store', ses.version, SuffixBatches(cfg, ses), faults, r, n))
  }

  ghost predicate Plannable(cfg: Config, ses: Session) {
    var head := HeadCount(ses.pending);
    && (ses.pending.Some? ==> ses.pending.value.key != "" && 0 < head <= |ses.messages|)
    && AllFit(ses.messages[head..], cfg.cap)
  }

  ghost predicate Closable(cfg: Config, d: Data) {
    && d.session.Some?
    && Plannable(cfg, d.session.value)
    && var ses := d.session.value;
       NoVersionClash(cfg, d.store, ses.version, Split(ses.messages[HeadCount(ses.pending)..], cfg.cap))
  }

  ghost predicate CanClose(cfg: Config, d: Data, lock: Option<nat>) {
    lock.None? && Closable(cfg, d)
  }

  /** The reported ids are the pending archive's, then those of the suffix batches in order. */
  ghost predicate ReportsArchives(cfg: Config, ses: Session, store: map<string, Archive>, ids: seq<nat>)
    requires Plannable(cfg, ses)
  {
    var n := if ses.pending.Some? then 1 else 0;
    && n <= |ids|
    && (ses.pending.Some? ==> ids[0] == ses.pending.value.archiveId)
    && ArchivedAs(cfg, store, ses.version, Split(ses.messages[HeadCount(ses.pending)..], cfg.cap), ids[n..])
  }

  /** What a failed attempt makes of the session: only the status can differ, and it is
      active again exactly when the attempt failed before its first archive was confirmed. */
  function FailedSession(session: Option<Session>, r: CloseResult): Option<Session> {
    if session.None? || r.LockNotAcquired? then session
    else Some(session.value.(status := if r.PlanFailed? || r == ArchiveFailed(0) then Active else Closing))
  }

  /** An action of the attempt with this lock token. */
  predicate IsOwn(a: Action, token: nat) {
    (a.CloseStart? || a.CloseEnter? || a.CloseMeta? || a.CloseList? || a.CloseArchive? || a.CloseRevert? || a.CloseDelete? || a.CloseRelease?)
    && a.p == token
  }

  predicate OwnActions(acts: seq<Action>, token: nat) { forall i :: 0 <= i < |acts| ==> IsOwn(acts[i], token) }

  /** The attempt's own steps lead from one state to the other. */
  ghost predicate Reaches(cfg: Config, token: nat, s: State, s': State) {
    exists acts :: OwnActions(acts, token) && RunFrom(cfg, s, acts) == s'
  }

  lemma ReachesSelf(cfg: Config, token: nat, s: State)
    ensures Reaches(cfg, token, s, s)
  {
    assert OwnActions([], token) && RunFrom(cfg, s, []) == s;
  }

  lemma ReachesStep(cfg: Config, token: nat, s: State, s': State, a: Action)
    requires Reaches(cfg, token, s, s') && IsOwn(a, token)
    ensures Reaches(cfg, token, s, Apply(cfg, s', a))
  {
    var acts :| OwnActions(acts, token) && RunFrom(cfg, s, acts) == s';
    assert OwnActions(acts + [a], token);
    assert (acts + [a])[..|acts|] == acts;
    assert RunFrom(cfg, s, acts + [a]) == Apply(cfg, s', a);
  }

  lemma {:induction false} RunFromKeeps(cfg: Config, s: State, acts: seq<Action>, token: nat)
    requires Inv(cfg, s, false) && OwnActions(acts, token)
    ensures Inv(cfg, RunFrom(cfg, s, acts), false)
    decreases |acts|
  {
    if acts != [] {
      var n := |acts| - 1;
      RunFromKeeps(cfg, s, acts[..n], token);
      assert IsOwn(acts[n], token);
      StepKeeps(cfg, RunFrom(cfg, s, acts[..n]), acts[n], false);
    }
  }

  /** The invariant of the protocol holds wherever an attempt gets to. */
  lemma ReachesKeeps(cfg: Config, token: nat, s: State, s': State)
    requires Reaches(cfg, token, s, s') && Inv(cfg, s, false)
    ensures Inv(cfg, s', false)
  {
    var acts :| OwnActions(acts, token) && RunFrom(cfg, s, acts) == s';
    RunFromKeeps(cfg, s, acts, token);
  }

  /** Each batch is archived at the version, under the archive id listed for it. */
  ghost predicate ArchivedAs(cfg: Config, store: map<string, Archive>, version: nat, todo: seq<seq<Message>>, ids: seq<nat>) {
    && |ids| == |todo|
    && forall i :: 0 <= i < |todo| ==>
         && todo[i] != []
         && var key := SegmentKey(cfg.sessionId, todo[i]);
         && key in store && store[key].id == ids[i] && store[key].version == version
  }

  /** The archive of each batch holds exactly the batch. */
  ghost predicate HoldsBatches(cfg: Config, store: map<string, Archive>, todo: seq<seq<Message>>) {
    forall i :: 0 <= i < |todo| ==> todo[i] != [] && Holds(cfg, store, SegmentKey(cfg.sessionId, todo[i]), todo[i])
  }

  ghost predicate Holds(cfg: Config, store: map<string, Archive>, key: string, batch: seq<Message>) {
    key in store && store[key].sessionId == cfg.sessionId && store[key].messages == batch
  }

  /** The store only gained archives of these batches, written at the version. */
  ghost predicate GrowsAt(store: map<string, Archive>, store': map<string, Archive>, version: nat, todo: seq<seq<Message>>) {
    && StoreGrows(store, store')
    && forall k :: k in store' && k !in store ==> store'[k].version == version && store'[k].messages in todo
  }

  lemma InsertGrows(first: map<string, Archive>, before: map<string, Archive>, after: map<string, Archive>, key: string, version: nat,
                    todo: seq<seq<Message>>)
    requires GrowsAt(first, before, version, todo)
    requires after == before || (key in after && after == Insert(before, key, after[key])
                                 && (key !in before ==> after[key].version == version && after[key].messages in todo))
    ensures GrowsAt(first, after, version, todo)
  {
  }

  /** The batches behind the pending head; none if the list cannot be planned. */
  function SuffixBatches(cfg: Config, ses: Session): seq<seq<Message>> {
    var head := HeadCount(ses.pending);
    if head <= |ses.messages| && AllFit(ses.messages[head..], cfg.cap) then Split(ses.messages[head..], cfg.cap) else []
  }

  /** A stretch of the list is a stretch of the history. */
  lemma ListInHistory(d: Data, at: nat, part: seq<Message>)
    requires HistoryOk(d) && d.session.Some? && at + |part| <= |d.session.value.messages|
    requires part == d.session.value.messages[at..at + |part|]
    ensures InHistory(d.history, part)
  {
    assert Segment(d.history, d.trimmed + at, part);
  }

  lemma FlattenSlices(ms: seq<Message>, todo: seq<seq<Message>>, at: nat)
    requires todo != [] && at + |Flatten(todo)| <= |ms| && Flatten(todo) == ms[at..at + |Flatten(todo)|]
    ensures |Flatten(todo)| == |todo[0]| + |Flatten(todo[1..])|
    ensures todo[0] == ms[at..at + |todo[0]|]
    ensures Flatten(todo[1..]) == ms[at + |todo[0]|..at + |Flatten(todo)|]
  {
    var n := |todo[0]|;
    assert Flatten(todo) == todo[0] + Flatten(todo[1..]);
    assert todo[0] == Flatten(todo)[..n] && Flatten(todo[1..]) == Flatten(todo)[n..];
  }

  lemma {:induction false} TodoInHistory(d: Data, todo: seq<seq<Message>>, at: nat, i: nat)
    requires HistoryOk(d) && d.session.Some? && at + |Flatten(todo)| <= |d.session.value.messages| && i < |todo|
    requires Flatten(todo) == d.session.value.messages[at..at + |Flatten(todo)|]
    ensures InHistory(d.history, todo[i])
    decreases |todo|
  {
    FlattenSlices(d.session.value.messages, todo, at);
    if i == 0 {
      ListInHistory(d, at, todo[0]);
    } else {
      TodoInHistory(d, todo[1..], at + |todo[0]|, i - 1);
    }
  }

  /** Under the invariant an archive found for a batch holds it. */
  lemma ArchivedHolds(cfg: Config, d: Data, version: nat, todo: seq<seq<Message>>, ids: seq<nat>)
    requires Shared(cfg, d, false) && ArchivedAs(cfg, d.store, version, todo, ids)
    requires forall i :: 0 <= i < |todo| ==> InHistory(d.history, todo[i])
    ensures HoldsBatches(cfg, d.store, todo)
  {
    forall i | 0 <= i < |todo| ensures Holds(cfg, d.store, SegmentKey(cfg.sessionId, todo[i]), todo[i]) {
      var key := SegmentKey(cfg.sessionId, todo[i]);
      KeyBelongsToSession(cfg, d, key, todo[i]);
      assert ArchiveOk(cfg, d.history, key, d.store[key]);
      SegmentsWithSameEnds(d, d.store[key].messages, todo[i]);
    }
  }

  lemma {:induction false} FlattenHas(bs: seq<seq<Message>>, m: Message)
    ensures m in Flatten(bs) <==> exists i :: 0 <= i < |bs| && m in bs[i]
  {
    if bs != [] {
      FlattenHas(bs[1..], m);
      if m in Flatten(bs[1..]) {
        var i :| 0 <= i < |bs[1..]| && m in bs[1..][i];
        assert m in bs[i + 1];
      }
      if i :| 0 <= i < |bs| && m in bs[i] {
        assert i > 0 ==> m in bs[1..][i - 1];
      }
    }
  }

  /** An attempt that closed has lost nothing exactly when every message of the pending head
      was in an archive before the call: its own archives hold the other messages, and none
      of the head. */
  lemma ClosedLosesNothingExactly(cfg: Config, d: Data, d': Data, version: nat)
    requires Shared(cfg, d, false) && d.session.Some? && Plannable(cfg, d.session.value)
    requires d'.session.None? && d'.history == d.history
    requires var todo := SuffixBatches(cfg, d.session.value);
             HoldsBatches(cfg, d'.store, todo) && GrowsAt(d.store, d'.store, version, todo)
    ensures NothingLost(cfg, d') <==> HeadStored(cfg, d, HeadCount(d.session.value.pending))
  {
    var ms, head := d.session.value.messages, HeadCount(d.session.value.pending);
    if HeadStored(cfg, d, head) {
      forall m | m in d.history ensures Stored(cfg, d'.store, m) {
        var i :| 0 <= i < |d.history| && d.history[i] == m;
        EveryMessageStored(cfg, d, d'.store, i);
      }
    }
    if NothingLost(cfg, d') {
      forall i | 0 <= i < head && i < |ms| ensures Stored(cfg, d.store, ms[i]) {
        LiveIsInHistory(cfg, d, i);
        HeadMessageWasStored(cfg, d, d', version, i);
      }
    }
  }

  lemma LiveIsInHistory(cfg: Config, d: Data, i: nat)
    requires HistoryOk(d) && d.session.Some? && i < |d.session.value.messages|
    ensures d.session.value.messages[i] in d.history
  {
    assert d.session.value.messages[i] == d.history[d.trimmed + i];
  }

  /** Message `i` of the history was trimmed, belongs to the head, or comes after it. */
  lemma EveryMessageStored(cfg: Config, d: Data, store: map<string, Archive>, i: nat)
    requires HistoryOk(d) && d.session.Some? && Plannable(cfg, d.session.value) && i < |d.history|
    requires i < d.trimmed ==> Stored(cfg, d.store, d.history[i])
    requires HeadStored(cfg, d, HeadCount(d.session.value.pending))
    requires StoreGrows(d.store, store) && HoldsBatches(cfg, store, SuffixBatches(cfg, d.session.value))
    ensures Stored(cfg, store, d.history[i])
  {
    var head := HeadCount(d.session.value.pending);
    if d.trimmed <= i {
      assert d.history[i] == d.session.value.messages[i - d.trimmed];
    }
    if d.trimmed + head <= i {
      SuffixStored(cfg, d.session.value, store, i - d.trimmed);
    } else {
      StaysStored(cfg, d.store, store, d.history[i]);
    }
  }

  lemma StaysStored(cfg: Config, store: map<string, Archive>, store': map<string, Archive>, m: Message)
    requires StoreGrows(store, store') && Stored(cfg, store, m)
    ensures Stored(cfg, store', m)
  {
    StoredGrows(cfg, store, store');
  }

  lemma SuffixStored(cfg: Config, ses: Session, store: map<string, Archive>, i: nat)
    requires Plannable(cfg, ses) && HoldsBatches(cfg, store, SuffixBatches(cfg, ses)) && HeadCount(ses.pending) <= i < |ses.messages|
    ensures Stored(cfg, store, ses.messages[i])
  {
    var head, todo, m := HeadCount(ses.pending), SuffixBatches(cfg, ses), ses.messages[i];
    SplitIsPartition(ses.messages[head..], cfg.cap);
    assert m == ses.messages[head..][i - head];
    FlattenHas(todo, m);
    var j :| 0 <= j < |todo| && m in todo[j];
    assert Holds(cfg, store, SegmentKey(cfg.sessionId, todo[j]), todo[j]);
  }

  lemma HeadMessageWasStored(cfg: Config, d: Data, d': Data, version: nat, i: nat)
    requires Shared(cfg, d, false) && d.session.Some? && Plannable(cfg, d.session.value)
    requires i < HeadCount(d.session.value.pending) && i < |d.session.value.messages|
    requires GrowsAt(d.store, d'.store, version, SuffixBatches(cfg, d.session.value))
    requires Stored(cfg, d'.store, d.session.value.messages[i])
    ensures Stored(cfg, d.store, d.session.value.messages[i])
  {
    HeadNotInBatches(cfg, d, i);
    var k :| k in d'.store && d'.store[k].sessionId == cfg.sessionId && d.session.value.messages[i] in d'.store[k].messages;
  }

  /** Message ids are distinct, so no batch behind the head holds a message of the head. */
  lemma HeadNotInBatches(cfg: Config, d: Data, i: nat)
    requires HistoryOk(d) && d.session.Some? && Plannable(cfg, d.session.value)
    requires i < HeadCount(d.session.value.pending) && i < |d.session.value.messages|
    ensures forall batch :: batch in SuffixBatches(cfg, d.session.value) ==> d.session.value.messages[i] !in batch
  {
    var ms, head, todo := d.session.value.messages, HeadCount(d.session.value.pending), SuffixBatches(cfg, d.session.value);
    SplitIsPartition(ms[head..], cfg.cap);
    FlattenHas(todo, ms[i]);
    forall l | head <= l < |ms| ensures ms[l] != ms[i] {
      assert d.history[d.trimmed + i].id != d.history[d.trimmed + l].id;
    }
  }

  lemma ProcReaches(cfg: Config, start: State, d: Data, lock: Option<nat>, token: nat, proc: Proc, a: Action)
    requires IsOwn(a, token) && !a.CloseStart?
    requires Reaches(cfg, token, start, State(d, lock, map[token := proc]))
    ensures var e := ProcStep(cfg, d, lock, token, proc, a);
            Reaches(cfg, token, start, State(e.data, e.lock, if e.proc.Some? then map[token := e.proc.value] else map[]))
  {
    var s := State(d, lock, map[token := proc]);
    ReachesStep(cfg, token, start, s, a);
    var e := ProcStep(cfg, d, lock, token, proc, a);
    assert e.proc.Some? ==> s.procs[token := e.proc.value] == map[token := e.proc.value];
    assert s.procs - {token} == map[];
  }

  lemma EnterReaches(cfg: Config, d: Data, token: nat)
    ensures var e := CloseEnterStep(d, Some(token));
            Reaches(cfg, token, State(d, None, map[]), State(e.data, e.lock, map[token := e.proc.value]))
  {
    var start := State(d, None, map[]);
    ReachesSelf(cfg, token, start);
    ReachesStep(cfg, token, start, start, CloseStart(token));
    assert map[][token := CloseLocked] == map[token := CloseLocked];
    ProcReaches(cfg, start, d, Some(token), token, CloseLocked, CloseEnter(token));
  }

  lemma PlanReaches(cfg: Config, start: State, d: Data, lock: Option<nat>, token: nat)
    requires d.session.Some? && Reaches(cfg, token, start, State(d, lock, map[token := CloseEntered]))
    ensures var e := CloseListStep(cfg, d, lock, CloseReadMeta(d.session.value.version, d.session.value.pending));
            Reaches(cfg, token, start, State(e.data, e.lock, map[token := e.proc.value]))
  {
    ProcReaches(cfg, start, d, lock, token, CloseEntered, CloseMeta(token));
    ProcReaches(cfg, start, d, lock, token, CloseReadMeta(d.session.value.version, d.session.value.pending), CloseList(token));
  }

  lemma ArchiveStepReaches(cfg: Config, start: State, d: Data, lock: Option<nat>, token: nat, proc: Proc, fault: Fault)
    requires proc.CloseArchiving? && Reaches(cfg, token, start, State(d, lock, map[token := proc]))
    ensures var e := CloseArchiveStep(cfg, d, lock, proc, fault);
            e.proc.Some? && Reaches(cfg, token, start, State(e.data, e.lock, map[token := e.proc.value]))
  {
    var s := State(d, lock, map[token := proc]);
    ReachesStep(cfg, token, start, s, CloseArchive(token, fault));
    var e := CloseArchiveStep(cfg, d, lock, proc, fault);
    assert s.procs[token := e.proc.value] == map[token := e.proc.value];
  }

  /** One archive call, as a step of the attempt. */
  lemma ArchiveCallReaches(cfg: Config, start: State, d: Data, d': Data, lock: Option<nat>, token: nat, version: nat, head: nat,
                           todo: seq<seq<Message>>, i: nat, fault: Fault)
    requires i < |todo| && todo[i] != []
    requires Reaches(cfg, token, start, State(d, lock, map[token := CloseArchiving(version, head, todo[i..], i > 0)]))
    requires d' == if fault.LostRequest? then d else CreateOrReuse(cfg, d, version, todo[i])
    ensures !fault.NoFault? ==> Reaches(cfg, token, start, State(d', lock, map[token := CloseReverting(i > 0)]))
    ensures fault.NoFault? ==>
              var key := SegmentKey(cfg.sessionId, todo[i]);
              && key in d'.store
              && Reaches(cfg, token, start, State(d', lock, map[token :=
                   if d'.store[key].version != version then CloseReleasing else CloseArchiving(version, head, todo[i + 1..], true)]))
  {
    OneMore(todo, i);
    ArchiveStepReaches(cfg, start, d, lock, token, CloseArchiving(version, head, todo[i..], i > 0), fault);
  }

  /** What the loop has archived, seen through the invariant. */
  lemma BatchesHeld(cfg: Config, start: State, d: Data, d': Data, lock: Option<nat>, token: nat, before: Proc, after: Proc, ids: seq<nat>)
    requires before.CloseArchiving? && d'.history == d.history
    requires Reaches(cfg, token, start, State(d, lock, map[token := before]))
    requires Reaches(cfg, token, start, State(d', lock, map[token := after]))
    requires ArchivedAs(cfg, d'.store, before.metaVersion, before.todo, ids)
    ensures Inv(cfg, start, false) ==> HoldsBatches(cfg, d'.store, before.todo)
  {
    if !Inv(cfg, start, false) {
      return;
    }
    AttemptKnows(cfg, start, d, lock, token, before);
    AttemptKnows(cfg, start, d', lock, token, after);
    BatchesInHistory(d, before.todo);
    ArchivedHolds(cfg, d', before.metaVersion, before.todo, ids);
  }

  lemma BatchesInHistory(d: Data, todo: seq<seq<Message>>)
    requires HistoryOk(d) && d.session.Some? && |Flatten(todo)| <= |d.session.value.messages|
    requires Flatten(todo) == d.session.value.messages[|d.session.value.messages| - |Flatten(todo)|..]
    ensures forall i :: 0 <= i < |todo| ==> InHistory(d.history, todo[i])
  {
    var ms, n := d.session.value.messages, |Flatten(todo)|;
    assert ms[|ms| - n..] == ms[|ms| - n..|ms| - n + n];
    forall i | 0 <= i < |todo| ensures InHistory(d.history, todo[i]) {
      TodoInHistory(d, todo, |ms| - n, i);
    }
  }

  lemma AttemptKnows(cfg: Config, start: State, d: Data, lock: Option<nat>, token: nat, proc: Proc)
    requires Inv(cfg, start, false) && Reaches(cfg, token, start, State(d, lock, map[token := proc]))
    ensures Shared(cfg, d, false) && ProcOk(cfg, d, proc, false)
  {
    var s := State(d, lock, map[token := proc]);
    ReachesKeeps(cfg, token, start, s);
    assert token in s.procs && s.procs[token] == proc;
  }

  /** The invariant stays. A closed session's suffix batches are what their archives hold;
      nothing is lost exactly when every message of the pending head was in an archive before
      the call, and so if the pending archive was the head of the list. */
  ghost predicate Concluded(cfg: Config, d: Data, d': Data, closed: bool) {
    && Shared(cfg, d', false)
    && (closed ==>
          && d.session.Some?
          && HoldsBatches(cfg, d'.store, SuffixBatches(cfg, d.session.value))
          && (NothingLost(cfg, d') <==> HeadStored(cfg, d, HeadCount(d.session.value.pending)))
          && (PendingIsHead(cfg, d) ==> NothingLost(cfg, d')))
  }

  /** What a closing attempt leaves behind, seen through the invariant. */
  lemma AttemptConcluded(cfg: Config, token: nat, d: Data, lock: Option<nat>, d': Data, closed: bool)
    requires Reaches(cfg, token, State(d, lock, map[]), State(d', lock, map[]))
    requires closed ==>
               && d.session.Some? && Plannable(cfg, d.session.value) && d'.session.None? && d'.history == d.history
               && (Inv(cfg, State(d, lock, map[]), false) ==> HoldsBatches(cfg, d'.store, SuffixBatches(cfg, d.session.value)))
               && GrowsAt(d.store, d'.store, d.session.value.version, SuffixBatches(cfg, d.session.value))
    ensures Shared(cfg, d, false) ==> Concluded(cfg, d, d', closed)
  {
    if Shared(cfg, d, false) {
      ReachesKeeps(cfg, token, State(d, lock, map[]), State(d', lock, map[]));
      if closed {
        ClosedLosesNothingExactly(cfg, d, d', d.session.value.version);
        if PendingIsHead(cfg, d) {
          HeadIsStored(cfg, d);
        }
      }
    }
  }

  lemma ArchivedStays(cfg: Config, store: map<string, Archive>, store': map<string, Archive>, version: nat, todo: seq<seq<Message>>,
                      n: nat, ids: seq<nat>)
    requires n <= |todo| && ArchivedAs(cfg, store, version, todo[..n], ids) && StoreGrows(store, store')
    ensures ArchivedAs(cfg, store', version, todo[..n], ids) && Confirmed(cfg, store', version, todo, n)
  {
    forall i | 0 <= i < n
      ensures todo[i] != [] && SegmentKey(cfg.sessionId, todo[i]) in store && store[SegmentKey(cfg.sessionId, todo[i])].version == version
    {
      assert todo[..n][i] == todo[i];
    }
  }

  /** Where the archive loop stands before batch `n`. */
  ghost predicate ArchivedUpTo(cfg: Config, first: map<string, Archive>, store: map<string, Archive>, version: nat, todo: seq<seq<Message>>,
                           faults: seq<Fault>, n: nat, ids: seq<nat>)
  {
    && n <= |todo| && GrowsAt(first, store, version, todo) && Smooth(cfg, first, version, todo, faults, n)
    && ArchivedAs(cfg, store, version, todo[..n], ids)
  }

  /** The archive call of a batch either left the store alone or inserted the batch. */
  ghost predicate IsCalled(cfg: Config, before: map<string, Archive>, after: map<string, Archive>, version: nat, batch: seq<Message>)
    requires batch != []
  {
    var key := SegmentKey(cfg.sessionId, batch);
    after == before || (key !in before && key in after && after == before[key := after[key]]
                        && after[key].version == version && after[key].messages == batch)
  }

  lemma CalledGrows(cfg: Config, first: map<string, Archive>, before: map<string, Archive>, after: map<string, Archive>, version: nat,
                    todo: seq<seq<Message>>, n: nat)
    requires n < |todo| && todo[n] != [] && GrowsAt(first, before, version, todo) && IsCalled(cfg, before, after, version, todo[n])
    ensures GrowsAt(first, after, version, todo) && StoreGrows(before, after)
  {
    if after != before {
      InsertGrows(first, before, after, SegmentKey(cfg.sessionId, todo[n]), version, todo);
    }
  }

  lemma Stops(cfg: Config, first: map<string, Archive>, before: map<string, Archive>, after: map<string, Archive>, version: nat,
              todo: seq<seq<Message>>, faults: seq<Fault>, n: nat, ids: seq<nat>, r: CloseResult)
    requires ArchivedUpTo(cfg, first, before, version, todo, faults, n, ids) && n < |todo| && todo[n] != []
    requires IsCalled(cfg, before, after, version, todo[n])
    requires if FaultAt(faults, n) then r == ArchiveFailed(n)
             else var key := SegmentKey(cfg.sessionId, todo[n]); r.VersionMismatch? && key in after && after[key].version != version
    ensures GrowsAt(first, after, version, todo) && StopsAt(cfg, first, after, version, todo, faults, r, n)
  {
    CalledGrows(cfg, first, before, after, version, todo, n);
    ArchivedStays(cfg, before, after, version, todo, n, ids);
    ClashFound(cfg, first, before, version, todo, n);
  }

  lemma GoesOn(cfg: Config, first: map<string, Archive>, before: map<string, Archive>, after: map<string, Archive>, version: nat,
               todo: seq<seq<Message>>, faults: seq<Fault>, n: nat, ids: seq<nat>)
    requires ArchivedUpTo(cfg, first, before, version, todo, faults, n, ids) && n < |todo| && todo[n] != [] && !FaultAt(faults, n)
    requires IsCalled(cfg, before, after, version, todo[n])
    requires var key := SegmentKey(cfg.sessionId, todo[n]); key in after && after[key].version == version
    ensures ArchivedUpTo(cfg, first, after, version, todo, faults, n + 1, ids + [after[SegmentKey(cfg.sessionId, todo[n])].id])
  {
    CalledGrows(cfg, first, before, after, version, todo, n);
    ArchivedStays(cfg, before, after, version, todo, n, ids);
    ClashFound(cfg, first, before, version, todo, n);
    OneMore(todo, n);
  }

  /** The archive found for a batch is at another version exactly if it was there before. */
  lemma ClashFound(cfg: Config, first: map<string, Archive>, store: map<string, Archive>, version: nat, todo: seq<seq<Message>>, i: nat)
    requires GrowsAt(first, store, version, todo) && i < |todo|
    ensures ClashAt(cfg, store, version, todo, i) <==> ClashAt(cfg, first, version, todo, i)
  {
  }

  /** A plan that could not be built says why the session cannot be planned. */
  lemma NoPlan(cfg: Config, ses: Session, why: PlanResult)
    requires !why.Plan? && !why.MalformedVersion?
    requires why.BoundaryMismatch? <==> ses.pending.Some? && !PendingUsable(Some(ses.pending.value.key), HeadCount(ses.pending), |ses.messages|)
    requires !why.BoundaryMismatch? ==> HeadCount(ses.pending) <= |ses.messages|
    requires why.MessageTooLarge? ==> IsFirstTooLarge(ses.messages[HeadCount(ses.pending)..], cfg.cap, why.message)
    ensures !Plannable(cfg, ses) && IsWhy(cfg, ses, why)
  {
  }
  /** Entering changes only the status, which the plan does not depend on. */
  lemma EnteredPlansTheSame(cfg: Config, d: Data, d': Data)
    requires d.session.Some? && d' == CloseEnterStep(d, None).data
    ensures Closable(cfg, d') == Closable(cfg, d)
    ensures SuffixBatches(cfg, d'.session.value) == SuffixBatches(cfg, d.session.value)
  {
  }

  lemma OneMore(todo: seq<seq<Message>>, i: nat)
    requires i < |todo|
    ensures todo[i..] != [] && todo[i..][0] == todo[i] && todo[i..][1..] == todo[i + 1..] && todo[..i + 1] == todo[..i] + [todo[i]]
  {
  }

  /** The plan of a session, and its batches that are still to be archived. */
  method PlanFor(cfg: Config, ses: Session) returns (plan: PlanResult, suffix: seq<seq<Message>>)
    ensures plan.Plan? <==> Plannable(cfg, ses)
    ensures plan.Plan? ==> suffix == SuffixBatches(cfg, ses) && forall i :: 0 <= i < |suffix| ==> suffix[i] != []
    ensures !plan.Plan? ==> IsWhy(cfg, ses, plan)
  {
    var pendingId := if ses.pending.Some? then Some(ses.pending.value.archiveId) else None;
    var pendingKey := if ses.pending.Some? then Some(ses.pending.value.key) else None;
    var head := HeadCount(ses.pending);
    plan := BuildClosePlan(cfg.sessionId, ses.version, pendingId, pendingKey, head, ses.messages, cfg.cap);
    if !plan.Plan? {
      NoPlan(cfg, ses, plan);
      return plan, [];
    }
    suffix := Contents(if pendingId.Some? then plan.batches[1..] else plan.batches);
    assert ses.pending.None? ==> ses.messages[head..] == ses.messages;
    SplitIsPartition(ses.messages[head..], cfg.cap);
  }

  /** Redis and Mongo as one session sees them; each method is one request. */
  class Backend {
    var session: Option<Session>
    var store: map<string, Archive>
    var nextArchive: nat
    var lock: Option<nat>
    ghost var history: seq<Message>
    ghost var trimmed: nat
    ghost var deletedHead: seq<Message>

    ghost function View(): Data
      reads this
    {
      Data(session, store, nextArchive, history, trimmed, deletedHead)
    }

    method EnterClosing() returns (ok: bool)
      modifies this`session
      ensures ok <==> old(session).Some?
      ensures View() == CloseEnterStep(old(View()), lock).data
    {
      ok := session.Some?;
      if ok {
        session := Some(session.value.(status := Closing));
      }
    }

    method RevertActive()
      modifies this`session
      ensures View() == CloseRevertStep(old(View()), lock, CloseReverting(false)).data
    {
      if session.Some? {
        session := Some(session.value.(status := Active));
      }
    }

    /** `create_or_reuse_context_archive`; `fault` says how the insert request ends. */
    method CreateOrReuseArchive(cfg: Config, version: nat, messages: seq<Message>, fault: Fault) returns (r: Option<Archive>)
      requires messages != []
      modifies this`store, this`nextArchive
      ensures r.Some? <==> fault.NoFault?
      ensures View() == if fault.LostRequest? then old(View()) else CreateOrReuse(cfg, old(View()), version, messages)
      ensures r.Some? ==> SegmentKey(cfg.sessionId, messages) in store && r.value == store[SegmentKey(cfg.sessionId, messages)]
      ensures IsCalled(cfg, old(store), store, version, messages)
    {
      if fault.LostRequest? {
        return None;
      }
      var key := SegmentKey(cfg.sessionId, messages);
      if key !in store {
        store := store[key := Archive(nextArchive, cfg.sessionId, version, messages)];
      }
      nextArchive := nextArchive + 1;
      r := if fault.NoFault? then Some(store[key]) else None;
    }

    method TerminalDelete(head: nat) returns (ok: bool)
      modifies this`session, this`deletedHead
      ensures ok <==> old(session).Some? && old(session).value.status.Closing?
      ensures View() == if ok then Delete(old(View()), head) else old(View())
    {
      ok := session.Some? && session.value.status.Closing?;
      if ok {
        deletedHead := if head <= |session.value.messages| then session.value.messages[..head] else session.value.messages;
        session := None;
      }
    }

    /** The archive loop; an archive was confirmed (the progress flag) once an id is listed. */
    method ArchiveBatches(cfg: Config, version: nat, todo: seq<seq<Message>>, faults: seq<Fault>,
                          ghost token: nat, ghost head: nat, ghost start: State)
      returns (failure: Option<CloseResult>, archiveIds: seq<nat>)
      requires forall i :: 0 <= i < |todo| ==> todo[i] != []
      requires Reaches(cfg, token, start, Attempt(token, CloseArchiving(version, head, todo, false)))
      modifies this`store, this`nextArchive
      ensures failure.None? ==>
                && Reaches(cfg, token, start, Attempt(token, CloseArchiving(version, head, [], |archiveIds| > 0)))
                && ArchivedAs(cfg, store, version, todo, archiveIds)
      ensures failure.Some? ==>
                || (failure.value == VersionMismatch && Reaches(cfg, token, start, Attempt(token, CloseReleasing)))
                || (failure.value == ArchiveFailed(|archiveIds|)
                    && Reaches(cfg, token, start, Attempt(token, CloseReverting(|archiveIds| > 0))))
      ensures StopsAt(cfg, old(store), store, version, todo, faults, if failure.Some? then failure.value else Closed(archiveIds), |archiveIds|)
      ensures GrowsAt(old(store), store, version, todo)
    {
      archiveIds := [];
      assert todo[0..] == todo;
      for i := 0 to |todo|
        invariant Reaches(cfg, token, start, Attempt(token, CloseArchiving(version, head, todo[i..], i > 0)))
        invariant ArchivedUpTo(cfg, old(store), store, version, todo, faults, i, archiveIds)
      {
        var fault := if i < |faults| then faults[i] else NoFault;
        ghost var before, d := store, View();
        var archive := CreateOrReuseArchive(cfg, version, todo[i], fault);
        ArchiveCallReaches(cfg, start, d, View(), lock, token, version, head, todo, i, fault);
        if archive.None? {
          Stops(cfg, old(store), before, store, version, todo, faults, i, archiveIds, ArchiveFailed(i));
          return Some(ArchiveFailed(i)), archiveIds;
        }
        if archive.value.version != version {
          Stops(cfg, old(store), before, store, version, todo, faults, i, archiveIds, VersionMismatch);
          return Some(VersionMismatch), archiveIds;
        }
        GoesOn(cfg, old(store), before, store, version, todo, faults, i, archiveIds);
        archiveIds := archiveIds + [archive.value.id];
      }
      assert todo[..|todo|] == todo && todo[|todo|..] == [];
      ArchivedStays(cfg, store, store, version, todo, |todo|, archiveIds);
      return None, archiveIds;
    }

    /** The loop, then the revert or the terminal delete. */
    method ArchiveAndDelete(cfg: Config, token: nat, head: nat, todo: seq<seq<Message>>, faults: seq<Fault>, ghost start: State)
      returns (failure: Option<CloseResult>, archiveIds: seq<nat>)
      requires session.Some? && session.value.status.Closing?
      requires forall i :: 0 <= i < |todo| ==> todo[i] != []
      requires Reaches(cfg, token, start, Attempt(token, CloseArchiving(session.value.version, head, todo, false)))
      modifies this`session, this`store, this`nextArchive, this`deletedHead
      ensures Reaches(cfg, token, start, Attempt(token, CloseReleasing))
      ensures failure.None? ==> session.None? && ArchivedAs(cfg, store, old(session).value.version, todo, archiveIds)
      ensures failure.Some? ==>
                && (failure.value.ArchiveFailed? || failure.value.VersionMismatch?)
                && session == FailedSession(old(session), failure.value)
      ensures StopsAt(cfg, old(store), store, old(session).value.version, todo, faults,
                      if failure.Some? then failure.value else Closed(archiveIds), |archiveIds|)
      ensures failure.None? && Inv(cfg, start, false) ==> HoldsBatches(cfg, store, todo)
      ensures GrowsAt(old(store), store, old(session).value.version, todo)
    {
      var version := session.value.version;
      ghost var first := View();
      failure, archiveIds := ArchiveBatches(cfg, version, todo, faults, token, head, start);
      if failure.None? {
        BatchesHeld(cfg, start, first, View(), lock, token, CloseArchiving(version, head, todo, false),
                    CloseArchiving(version, head, [], |archiveIds| > 0), archiveIds);
        ProcReaches(cfg, start, View(), lock, token, CloseArchiving(version, head, [], |archiveIds| > 0), CloseDelete(token));
        var deleted := TerminalDelete(head);
      } else if failure.value.ArchiveFailed? {
        ProcReaches(cfg, start, View(), lock, token, CloseReverting(|archiveIds| > 0), CloseRevert(token));
        if |archiveIds| == 0 {
          RevertActive();
        }
      }
    }

    /** The body of the attempt, from the plan to the terminal delete. */
    method RunPlan(cfg: Config, token: nat, faults: seq<Fault>, ghost start: State) returns (r: CloseResult)
      requires session.Some? && session.value.status.Closing?
      requires Reaches(cfg, token, start, Attempt(token, CloseEntered))
      modifies this`session, this`store, this`nextArchive, this`deletedHead
      ensures Reaches(cfg, token, start, Attempt(token, CloseReleasing))
      ensures r.Closed? ==> Closable(cfg, old(View())) && session.None? && ReportsArchives(cfg, old(session).value, store, r.archiveIds)
      ensures EndsAs(cfg, old(session).value, old(store), store, faults, r)
      ensures !r.Closed? ==> session == FailedSession(old(session), r)
      ensures !r.LockNotAcquired? && !r.SessionNotFound?
      ensures r.Closed? && Inv(cfg, start, false) ==> HoldsBatches(cfg, store, SuffixBatches(cfg, old(session).value))
      ensures GrowsAt(old(store), store, old(session).value.version, SuffixBatches(cfg, old(session).value))
    {
      var ses := session.value;
      var plan, suffix := PlanFor(cfg, ses);
      PlanReaches(cfg, start, View(), lock, token);
      if !plan.Plan? {
        ProcReaches(cfg, start, View(), lock, token, CloseReverting(false), CloseRevert(token));
        RevertActive();
        return PlanFailed(plan);
      }
      var failure, archiveIds := ArchiveAndDelete(cfg, token, HeadCount(ses.pending), suffix, faults, start);
      if failure.Some? {
        return failure.value;
      }
      var first := if ses.pending.Some? then [ses.pending.value.archiveId] else [];
      assert (first + archiveIds)[|first|..] == archiveIds;
      r := Closed(first + archiveIds);
      assert StopsAt(cfg, old(store), store, ses.version, suffix, faults, r, |archiveIds|);
    }

    /** The attempt while it holds the lock. */
    method CloseLocked(cfg: Config, token: nat, faults: seq<Fault>) returns (r: CloseResult)
      requires lock == Some(token)
      modifies this`session, this`store, this`nextArchive, this`deletedHead
      ensures Reaches(cfg, token, State(old(View()), None, map[]), Attempt(token, CloseReleasing))
      ensures r.Closed? ==> Closable(cfg, old(View())) && session.None? && ReportsArchives(cfg, old(session).value, store, r.archiveIds)
      ensures r.SessionNotFound? <==> old(session).None?
      ensures !r.LockNotAcquired? && (r.SessionNotFound? ==> View() == old(View()))
      ensures !r.Closed? ==> session == FailedSession(old(session), r)
      ensures old(session).Some? ==>
                && EndsAs(cfg, old(session).value, old(store), store, faults, r)
                && GrowsAt(old(store), store, old(session).value.version, SuffixBatches(cfg, old(session).value))
      ensures r.Closed? && Inv(cfg, State(old(View()), None, map[]), false) ==> HoldsBatches(cfg, store, SuffixBatches(cfg, old(session).value))
    {
      ghost var start := State(View(), None, map[]);
      EnterReaches(cfg, View(), token);
      var ok := EnterClosing();
      if !ok {
        return SessionNotFound;
      }
      EnteredPlansTheSame(cfg, start.data, View());
      r := RunPlan(cfg, token, faults, start);
    }

    /** `close_session`, with no other process between its steps. */
    method CloseSession(cfg: Config, token: nat, faults: seq<Fault>) returns (r: CloseResult)
      modifies this
      // the procedure is a run of the protocol
      ensures Reaches(cfg, token, State(old(View()), old(lock), map[]), State(View(), lock, map[]))
      // when it closes, and which archives it reports
      ensures r.Closed? ==> CanClose(cfg, old(View()), old(lock)) && session.None? && ReportsArchives(cfg, old(session).value, store, r.archiveIds)
      ensures AllNoFault(faults) && CanClose(cfg, old(View()), old(lock)) ==> r.Closed?
      // which failure it reports
      ensures r.LockNotAcquired? <==> old(lock).Some?
      ensures r.SessionNotFound? <==> old(lock).None? && old(session).None?
      ensures old(lock).None? && old(session).Some? ==> EndsAs(cfg, old(session).value, old(store), store, faults, r)
      // a failed attempt deletes nothing
      ensures !r.Closed? ==> session == FailedSession(old(session), r)
      ensures lock == old(lock)
      // what the archives hold, and when nothing is lost
      ensures old(session).Some? ==> GrowsAt(old(store), store, old(session).value.version, SuffixBatches(cfg, old(session).value))
      ensures old(session).None? ==> store == old(store)
      ensures Shared(cfg, old(View()), false) ==> Concluded(cfg, old(View()), View(), r.Closed?)
    {
      ghost var start := State(View(), lock, map[]);
      ReachesSelf(cfg, token, start);
      if lock.Some? {
        return LockNotAcquired;
      }
      lock := Some(token);
      r := CloseLocked(cfg, token, faults);
      ProcReaches(cfg, start, View(), lock, token, CloseReleasing, CloseRelease(token));
      lock := None;
      AttemptConcluded(cfg, token, start.data, lock, View(), r.Closed?);
    }

    /** The machine state while only this attempt runs. */
    ghost function Attempt(token: nat, proc: Proc): State
      reads this
    {
      State(View(), lock, map[token := proc])
    }
  }

  predicate AllNoFault(faults: seq<Fault>) {
    forall i :: 0 <= i < |faults| ==> faults[i].NoFault?
  }
}
