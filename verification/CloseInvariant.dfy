/** The invariant of the close protocol, and what processes rely on while others act. */
module CloseInvariant {
  import opened Options
  import opened CloseSplit
  import opened ArchiveKeys
  import opened CloseProtocol

  // `guarded` switches between two theorems: without it the invariant holds on every run;
  // with it, on every run whose pending writes still see the compression version they read,
  // and then a pending archive is the list head.

  ghost predicate Segment(h: seq<Message>, i: nat, ms: seq<Message>) {
    i + |ms| <= |h| && ms == h[i..i + |ms|]
  }

  ghost predicate InHistory(h: seq<Message>, ms: seq<Message>) {
    exists i: nat :: Segment(h, i, ms)
  }

  ghost predicate HistoryOk(d: Data) {
    && d.trimmed <= |d.history|
    && (forall i, j :: 0 <= i < j < |d.history| ==> d.history[i].id != d.history[j].id)
    && (forall i :: 0 <= i < |d.history| ==> NoColon(d.history[i].id))
    && (d.session.Some? ==>
          && d.session.value.messages == d.history[d.trimmed..]
          && forall i :: 0 <= i < |d.history| ==> d.history[i].id in d.session.value.ids)
  }

  ghost predicate ArchiveOk(cfg: Config, h: seq<Message>, key: string, a: Archive) {
    && a.messages != []
    && NoColon(a.sessionId)
    && key == SegmentKey(a.sessionId, a.messages)
    && (a.sessionId == cfg.sessionId ==> InHistory(h, a.messages))
  }

  ghost predicate StoreOk(cfg: Config, d: Data) {
    forall k :: k in d.store ==> ArchiveOk(cfg, d.history, k, d.store[k])
  }

  /** The key names an archive of this session with as many messages as recorded. */
  ghost predicate Fits(cfg: Config, store: map<string, Archive>, pend: Pending) {
    && pend.key in store
    && store[pend.key].sessionId == cfg.sessionId
    && |store[pend.key].messages| == pend.count > 0
  }

  /** The pending archive is exactly the head of the live list. */
  ghost predicate IsHead(cfg: Config, d: Data, pend: Pending) {
    && Fits(cfg, d.store, pend)
    && d.session.Some?
    && d.store[pend.key].messages <= d.session.value.messages
  }

  ghost predicate FoundOk(cfg: Config, d: Data, metaVersion: nat, found: Option<Pending>, guarded: bool) {
    && (d.session.Some? ==> metaVersion <= d.session.value.version)
    && (found.Some? ==>
          && Fits(cfg, d.store, found.value)
          && (guarded && d.session.Some? && metaVersion == d.session.value.version ==> IsHead(cfg, d, found.value)))
  }

  ghost predicate TicketOk(cfg: Config, d: Data, t: Ticket, guarded: bool) {
    && FoundOk(cfg, d, t.metaVersion, Some(t.pending), guarded)
    && var ms := d.store[t.pending.key].messages;
    && t.first == ms[0].id && t.last == ms[|ms| - 1].id
  }

  /** Everything between the pending head and the batches still to do is archived. */
  ghost predicate ArchivedSoFar(cfg: Config, d: Data, head: nat, todo: seq<seq<Message>>) {
    && d.session.Some?
    && var ms, n := d.session.value.messages, |Flatten(todo)|;
    && head + n <= |ms|
    && Flatten(todo) == ms[|ms| - n..]
    && forall i :: head <= i < |ms| - n ==> Stored(cfg, d.store, ms[i])
  }

  ghost predicate ClosingAt(d: Data, version: nat, pending: Option<Pending>) {
    d.session.Some? && d.session.value.status.Closing?
    && d.session.value.version == version && d.session.value.pending == pending
  }

  /** What a process knows about the stores. */
  ghost predicate ProcOk(cfg: Config, d: Data, proc: Proc, guarded: bool) {
    match proc
       case RoundReadMeta(mv, found) => FoundOk(cfg, d, mv, found, guarded)
       case RoundReadList(mv, found, v, ms) =>
         && FoundOk(cfg, d, mv, found, guarded)
         && InHistory(d.history, ms)
         && (d.session.Some? && mv == d.session.value.version ==> ms <= d.session.value.messages)
       case RoundReady(t) => TicketOk(cfg, d, t, guarded)
       case RoundLocked(t) => TicketOk(cfg, d, t, guarded)
       case RoundMarked(t) => TicketOk(cfg, d, t, guarded)
       case CloseEntered => d.session.Some? && d.session.value.status.Closing?
       case CloseReadMeta(mv, found) => ClosingAt(d, mv, found)
       case CloseArchiving(mv, head, todo, _) =>
         && d.session.Some?
         && ClosingAt(d, mv, d.session.value.pending)
         && head == HeadCount(d.session.value.pending)
         && ArchivedSoFar(cfg, d, head, todo)
       case _ => true
  }

  ghost predicate Shared(cfg: Config, d: Data, guarded: bool) {
    && NoColon(cfg.sessionId)
    && HistoryOk(d)
    && StoreOk(cfg, d)
    && (forall i :: 0 <= i < d.trimmed ==> Stored(cfg, d.store, d.history[i]))
    && (d.session.Some? && d.session.value.pending.Some? ==>
          && Fits(cfg, d.store, d.session.value.pending.value)
          && (guarded ==> IsHead(cfg, d, d.session.value.pending.value)))
    && (d.session.None? ==> Deleted(cfg, d, guarded))
  }

  ghost predicate Deleted(cfg: Config, d: Data, guarded: bool) {
    && (forall m :: m in d.deletedHead ==> m in d.history)
    && (forall m :: m in d.history && m !in d.deletedHead ==> Stored(cfg, d.store, m))
    && (guarded ==> forall m :: m in d.deletedHead ==> Stored(cfg, d.store, m))
  }

  ghost predicate LocksOk(s: State) {
    forall p :: p in s.procs && HoldsLock(s.procs[p]) ==> s.lock == Some(p)
  }

  ghost predicate Inv(cfg: Config, s: State, guarded: bool) {
    && Shared(cfg, s.data, guarded)
    && LocksOk(s)
    && forall p :: p in s.procs ==> ProcOk(cfg, s.data, s.procs[p], guarded)
  }

  // ----- what a process relies on while others act -----

  ghost predicate StoreGrows(store: map<string, Archive>, store': map<string, Archive>) {
    forall k :: k in store ==> k in store' && store'[k] == store[k]
  }

  /** How the stores may change under a process; a lock holder also finds a closing
      session untouched. */
  ghost predicate Rely(d: Data, d': Data, holder: bool) {
    && StoreGrows(d.store, d'.store)
    && d.history <= d'.history
    && (d'.session.Some? ==>
          && d.session.Some?
          && d.session.value.version <= d'.session.value.version
          && (d.session.value.version == d'.session.value.version ==> d.session.value.messages <= d'.session.value.messages))
    && (holder && d.session.Some? && d.session.value.status.Closing? ==> d'.session == d.session)
  }

  lemma InHistoryGrows(h: seq<Message>, h': seq<Message>, ms: seq<Message>)
    requires h <= h' && InHistory(h, ms)
    ensures InHistory(h', ms)
  {
    var i: nat :| Segment(h, i, ms);
    assert Segment(h', i, ms);
  }

  lemma StoredGrows(cfg: Config, store: map<string, Archive>, store': map<string, Archive>)
    requires StoreGrows(store, store')
    ensures forall m :: Stored(cfg, store, m) ==> Stored(cfg, store', m)
  {
    forall m | Stored(cfg, store, m) ensures Stored(cfg, store', m) {
      var k :| k in store && store[k].sessionId == cfg.sessionId && m in store[k].messages;
      assert k in store';
    }
  }

  /** Steps of others keep what a process knows. */
  lemma ProcKept(cfg: Config, d: Data, d': Data, proc: Proc, guarded: bool)
    requires ProcOk(cfg, d, proc, guarded) && Rely(d, d', HoldsLock(proc))
    ensures ProcOk(cfg, d', proc, guarded)
  {
    StoredGrows(cfg, d.store, d'.store);
    if proc.RoundReadList? {
      InHistoryGrows(d.history, d'.history, proc.messages);
    }
  }

  function Actor(a: Action): Option<nat> {
    match a
    case WriteMessage(_) => None
    case OtherSessionArchive(_) => None
    case LockExpires => None
    case _ => Some(a.p)
  }

  /** Every step of a process keeps what the others rely on. */
  lemma ProcStepRely(cfg: Config, d: Data, lock: Option<nat>, p: nat, proc: Proc, a: Action, q: nat)
    requires p != q && (HoldsLock(proc) ==> lock == Some(p))
    ensures var e := ProcStep(cfg, d, lock, p, proc, a);
            Rely(d, e.data, lock == Some(q)) && (lock == Some(q) ==> e.lock == Some(q))
  {
  }

  // ----- archives are history segments, and reuse finds the right one -----

  /** With distinct ids, a segment is determined by its first and last id. */
  lemma SegmentsWithSameEnds(d: Data, a: seq<Message>, b: seq<Message>)
    requires HistoryOk(d) && InHistory(d.history, a) && InHistory(d.history, b)
    requires a != [] && b != [] && a[0].id == b[0].id && a[|a| - 1].id == b[|b| - 1].id
    ensures a == b
  {
    var i: nat :| Segment(d.history, i, a);
    var j: nat :| Segment(d.history, j, b);
    assert d.history[i] == a[0] && d.history[j] == b[0];
    assert d.history[i + |a| - 1] == a[|a| - 1] && d.history[j + |b| - 1] == b[|b| - 1];
  }

  lemma ReuseHolds(cfg: Config, d: Data, ms: seq<Message>, guarded: bool)
    requires Shared(cfg, d, guarded) && ms != [] && InHistory(d.history, ms) && SegmentKey(cfg.sessionId, ms) in d.store
    ensures var a := d.store[SegmentKey(cfg.sessionId, ms)]; a.sessionId == cfg.sessionId && a.messages == ms
  {
    var key := SegmentKey(cfg.sessionId, ms);
    KeyBelongsToSession(cfg, d, key, ms);
    SegmentsWithSameEnds(d, d.store[key].messages, ms);
  }

  lemma InsertKeeps(cfg: Config, d: Data, version: nat, ms: seq<Message>, guarded: bool)
    requires Shared(cfg, d, guarded) && ms != [] && InHistory(d.history, ms) && SegmentKey(cfg.sessionId, ms) !in d.store
    ensures Shared(cfg, CreateOrReuse(cfg, d, version, ms), guarded)
  {
    StoredGrows(cfg, d.store, CreateOrReuse(cfg, d, version, ms).store);
    var i: nat :| Segment(d.history, i, ms);
    assert ms[0] == d.history[i];
  }
  /** `create_or_reuse_context_archive` ends with the batch itself under its key, also
      when an archive was there before. */
  lemma CreateOrReuseHolds(cfg: Config, d: Data, version: nat, ms: seq<Message>, guarded: bool)
    requires Shared(cfg, d, guarded) && ms != [] && InHistory(d.history, ms)
    ensures var key := SegmentKey(cfg.sessionId, ms);
            var d' := CreateOrReuse(cfg, d, version, ms);
            && StoreGrows(d.store, d'.store)
            && Shared(cfg, d', guarded)
            && d'.store[key].sessionId == cfg.sessionId && d'.store[key].messages == ms
  {
    if SegmentKey(cfg.sessionId, ms) in d.store {
      ReuseHolds(cfg, d, ms, guarded);
    } else {
      InsertKeeps(cfg, d, version, ms, guarded);
    }
  }

  /** A key of this session never names another session's archive. */
  lemma KeyBelongsToSession(cfg: Config, d: Data, key: string, ms: seq<Message>)
    requires NoColon(cfg.sessionId) && HistoryOk(d) && StoreOk(cfg, d)
    requires ms != [] && InHistory(d.history, ms) && key == SegmentKey(cfg.sessionId, ms) && key in d.store
    ensures var a := d.store[key];
            a.sessionId == cfg.sessionId && a.messages[0].id == ms[0].id
            && a.messages[|a.messages| - 1].id == ms[|ms| - 1].id
  {
    var a := d.store[key];
    var f, l := ms[0].id, ms[|ms| - 1].id;
    var f', l' := a.messages[0].id, a.messages[|a.messages| - 1].id;
    assert ArchiveOk(cfg, d.history, key, a);
    assert BatchKey(cfg.sessionId, f, l) == cfg.sessionId + ":" + (f + ":" + l);
    assert BatchKey(a.sessionId, f', l') == a.sessionId + ":" + (f' + ":" + l');
    JoinHasUniqueHead(cfg.sessionId, f + ":" + l, a.sessionId, f' + ":" + l');
    var i: nat :| Segment(d.history, i, ms);
    var j: nat :| Segment(d.history, j, a.messages);
    assert d.history[i] == ms[0] && d.history[j] == a.messages[0];
    JoinHasUniqueHead(f, l, f', l');
  }
}
