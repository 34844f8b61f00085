/** Every step of the close protocol keeps its invariant.

    A step is one action of one process, or of the outside: a message write, an archive of
    another session, the expiry of a lock. What it does to the stores comes first, then what
    the acting process knows afterwards, then what the other processes still know (they rely
    on little: archives stay, the history grows, and a closing session belongs to the holder
    of the lock). The finalize script is the one place where the boundary check of the code
    makes up for a stale pending archive. */
module CloseSteps {
  import opened Options
  import opened CloseSplit
  import opened ArchiveKeys
  import opened CloseProtocol
  import opened CloseInvariant

  /** Message ids are free of the key separator. */
  predicate Clean(a: Action) {
    a.WriteMessage? ==> NoColon(a.message.id)
  }

  /** A pending write sees the compression version its round read. The script does not
      check this; it is the guard that is missing. */
  predicate PendingWriteIsFresh(s: State, a: Action) {
    a.RoundMark? && a.p in s.procs && s.procs[a.p].RoundLocked? && s.data.session.Some? ==>
      s.procs[a.p].ticket.metaVersion == s.data.session.value.version
  }

  // ----- the stores after each step -----

  lemma WriteKeeps(cfg: Config, d: Data, m: Message, guarded: bool)
    requires Shared(cfg, d, guarded) && NoColon(m.id)
    ensures Shared(cfg, Write(d, m), guarded)
  {
    var d' := Write(d, m);
    if d' != d {
      assert d'.history[d.trimmed..] == d.history[d.trimmed..] + [m];
      forall k | k in d'.store ensures ArchiveOk(cfg, d'.history, k, d'.store[k]) {
        assert ArchiveOk(cfg, d.history, k, d.store[k]);
        if d.store[k].sessionId == cfg.sessionId {
          InHistoryGrows(d.history, d'.history, d.store[k].messages);
        }
      }
    }
  }

  lemma OtherKeeps(cfg: Config, d: Data, a: Archive, guarded: bool)
    requires Shared(cfg, d, guarded)
    ensures Shared(cfg, OtherArchive(cfg, d, a), guarded)
  {
    StoredGrows(cfg, d.store, OtherArchive(cfg, d, a).store);
  }

  /** The boundary check of the finalize script is enough: what it trims is archived,
      even when the pending write was stale. */
  lemma FinalizeTrimsArchived(cfg: Config, d: Data, t: Ticket, guarded: bool)
    requires Shared(cfg, d, guarded) && TicketOk(cfg, d, t, guarded) && CanFinalize(d, t)
    ensures d.store[t.pending.key].messages == d.session.value.messages[..t.pending.count]
    ensures forall i :: d.trimmed <= i < d.trimmed + t.pending.count ==> Stored(cfg, d.store, d.history[i])
  {
    var ms, n := d.session.value.messages, t.pending.count;
    var a := d.store[t.pending.key];
    assert ArchiveOk(cfg, d.history, t.pending.key, a);
    assert Segment(d.history, d.trimmed, ms[..n]);
    SegmentsWithSameEnds(d, a.messages, ms[..n]);
    forall i | d.trimmed <= i < d.trimmed + n ensures Stored(cfg, d.store, d.history[i]) {
      assert d.history[i] == ms[..n][i - d.trimmed];
    }
  }

  lemma FinalizeKeeps(cfg: Config, d: Data, t: Ticket, guarded: bool)
    requires Shared(cfg, d, guarded) && TicketOk(cfg, d, t, guarded) && CanFinalize(d, t)
    ensures Shared(cfg, Finalize(d, t), guarded)
  {
    FinalizeTrimsArchived(cfg, d, t, guarded);
    FinalizeKeepsHistory(d, t);
    FinalizeKeepsStore(cfg, d, t);
  }

  lemma FinalizeKeepsHistory(d: Data, t: Ticket)
    requires HistoryOk(d) && CanFinalize(d, t)
    ensures HistoryOk(Finalize(d, t))
  {
    assert d.history[d.trimmed..][t.pending.count..] == d.history[d.trimmed + t.pending.count..];
  }

  lemma FinalizeKeepsStore(cfg: Config, d: Data, t: Ticket)
    requires StoreOk(cfg, d) && CanFinalize(d, t)
    ensures StoreOk(cfg, Finalize(d, t))
  {
    var d' := Finalize(d, t);
    forall k | k in d.store ensures ArchiveOk(cfg, d'.history, k, d'.store[k]) {
      assert ArchiveOk(cfg, d.history, k, d.store[k]);
    }
  }

  lemma BatchDone(cfg: Config, d: Data, d': Data, head: nat, todo: seq<seq<Message>>)
    requires ArchivedSoFar(cfg, d, head, todo) && todo != [] && StoreGrows(d.store, d'.store) && d'.session == d.session
    requires forall m :: m in todo[0] ==> Stored(cfg, d'.store, m)
    ensures ArchivedSoFar(cfg, d', head, todo[1..])
  {
    StoredGrows(cfg, d.store, d'.store);
    var ms, n, n' := d.session.value.messages, |Flatten(todo)|, |Flatten(todo[1..])|;
    assert ms[|ms| - n..] == todo[0] + Flatten(todo[1..]);
    assert ms[|ms| - n'..] == ms[|ms| - n..][|todo[0]|..];
    forall i | |ms| - n <= i < |ms| - n' ensures Stored(cfg, d'.store, ms[i]) {
      assert ms[i] == ms[|ms| - n..][i - (|ms| - n)] == todo[0][i - (|ms| - n)];
    }
  }

  /** When all batches are done, only the pending head can be missing from the store. */
  lemma HeadIsWhatCanBeMissing(cfg: Config, d: Data, head: nat)
    requires d.trimmed <= |d.history| && d.session.Some? && d.session.value.messages == d.history[d.trimmed..]
    requires forall i :: 0 <= i < d.trimmed ==> Stored(cfg, d.store, d.history[i])
    requires ArchivedSoFar(cfg, d, head, [])
    ensures forall m :: m in d.history ==> m in d.session.value.messages[..head] || Stored(cfg, d.store, m)
  {
    var ms := d.session.value.messages;
    forall m | m in d.history ensures m in ms[..head] || Stored(cfg, d.store, m) {
      var i :| 0 <= i < |d.history| && d.history[i] == m;
      if d.trimmed + head <= i {
        assert m == ms[i - d.trimmed];
      } else if d.trimmed <= i {
        assert m == ms[..head][i - d.trimmed];
      }
    }
  }

  lemma DeleteKeeps(cfg: Config, d: Data, head: nat, guarded: bool)
    requires Shared(cfg, d, guarded) && ArchivedSoFar(cfg, d, head, [])
    requires head == HeadCount(d.session.value.pending)
    ensures Shared(cfg, Delete(d, head), guarded)
  {
    HeadIsWhatCanBeMissing(cfg, d, head);
    var ms := d.session.value.messages;
    forall m | m in ms[..head] ensures m in d.history {
      var i :| 0 <= i < head && ms[i] == m;
      assert d.history[d.trimmed + i] == m;
    }
    if guarded && head > 0 {
      assert d.store[d.session.value.pending.value.key].messages == ms[..head];
    }
  }

  // ----- the acting process after its own step -----

  ghost predicate OwnOk(cfg: Config, p: nat, e: Effect, guarded: bool) {
    && Shared(cfg, e.data, guarded)
    && (e.proc.Some? ==> ProcOk(cfg, e.data, e.proc.value, guarded) && (HoldsLock(e.proc.value) ==> e.lock == Some(p)))
  }

  /** A ticket for the first messages of a list read at the same version is a ticket
      for the head of the live list. */
  lemma PrefixTicketOk(cfg: Config, d: Data, proc: Proc, k: nat, id: nat, guarded: bool)
    requires proc.RoundReadList? && 0 < k <= |proc.messages|
    requires d.session.Some? ==> proc.metaVersion <= d.session.value.version
    requires d.session.Some? && proc.metaVersion == d.session.value.version ==> proc.messages <= d.session.value.messages
    requires var ms := proc.messages[..k];
             var key := SegmentKey(cfg.sessionId, ms);
             key in d.store && d.store[key].sessionId == cfg.sessionId && d.store[key].messages == ms
    ensures var ms := proc.messages[..k];
            TicketOk(cfg, d, TicketFor(proc, Pending(SegmentKey(cfg.sessionId, ms), k, id), ms), guarded)
  {
  }

  lemma NewPrefixStored(cfg: Config, d: Data, version: nat, list: seq<Message>, k: nat, guarded: bool)
    requires Shared(cfg, d, guarded) && InHistory(d.history, list) && 0 < k <= |list|
    ensures var d' := CreateOrReuse(cfg, d, version, list[..k]);
            var key := SegmentKey(cfg.sessionId, list[..k]);
            Shared(cfg, d', guarded) && d'.store[key].sessionId == cfg.sessionId && d'.store[key].messages == list[..k]
  {
    var i: nat :| Segment(d.history, i, list);
    assert Segment(d.history, i, list[..k]);
    CreateOrReuseHolds(cfg, d, version, list[..k], guarded);
  }

  lemma NewPrefixKeeps(cfg: Config, d: Data, lock: Option<nat>, p: nat, proc: Proc, k: nat, guarded: bool)
    requires Shared(cfg, d, guarded) && proc.RoundReadList? && ProcOk(cfg, d, proc, guarded)
    requires proc.found.None? && 0 < k <= |proc.messages|
    ensures OwnOk(cfg, p, RoundArchiveStep(cfg, d, lock, proc, k), guarded)
  {
    var ms := proc.messages[..k];
    NewPrefixStored(cfg, d, proc.version, proc.messages, k, guarded);
    var d' := CreateOrReuse(cfg, d, proc.version, ms);
    PrefixTicketOk(cfg, d', proc, k, d'.store[SegmentKey(cfg.sessionId, ms)].id, guarded);
  }

  lemma RoundArchiveKeeps(cfg: Config, d: Data, lock: Option<nat>, p: nat, proc: Proc, k: nat, guarded: bool)
    requires Shared(cfg, d, guarded) && proc.RoundReadList? && ProcOk(cfg, d, proc, guarded)
    ensures OwnOk(cfg, p, RoundArchiveStep(cfg, d, lock, proc, k), guarded)
  {
    if proc.found.Some? {
      FoundTicketKeeps(cfg, d, lock, p, proc, k, guarded);
    } else if 0 < k <= |proc.messages| {
      NewPrefixKeeps(cfg, d, lock, p, proc, k, guarded);
    }
  }

  /** A round that found a pending archive carries it on. */
  lemma FoundTicketKeeps(cfg: Config, d: Data, lock: Option<nat>, p: nat, proc: Proc, k: nat, guarded: bool)
    requires Shared(cfg, d, guarded) && proc.RoundReadList? && ProcOk(cfg, d, proc, guarded) && proc.found.Some?
    ensures OwnOk(cfg, p, RoundArchiveStep(cfg, d, lock, proc, k), guarded)
  {
  }

  lemma CloseListKeeps(cfg: Config, d: Data, lock: Option<nat>, p: nat, proc: Proc, guarded: bool)
    requires Shared(cfg, d, guarded) && proc.CloseReadMeta? && ProcOk(cfg, d, proc, guarded) && lock == Some(p)
    ensures OwnOk(cfg, p, CloseListStep(cfg, d, lock, proc), guarded)
  {
    var ms, head := d.session.value.messages, HeadCount(proc.found);
    if head <= |ms| && AllFit(ms[head..], cfg.cap) {
      NothingArchivedYet(cfg, d, head);
    }
    var e := CloseListStep(cfg, d, lock, proc);
    assert e.data == d && e.lock == lock;
    assert ProcOk(cfg, d, e.proc.value, guarded);
  }

  /** Right after planning the batches to do cover everything behind the pending head. */
  lemma NothingArchivedYet(cfg: Config, d: Data, head: nat)
    requires d.session.Some? && head <= |d.session.value.messages| && AllFit(d.session.value.messages[head..], cfg.cap)
    ensures ArchivedSoFar(cfg, d, head, Split(d.session.value.messages[head..], cfg.cap))
  {
    SplitIsPartition(d.session.value.messages[head..], cfg.cap);
  }

  lemma NextBatchInHistory(cfg: Config, d: Data, head: nat, todo: seq<seq<Message>>)
    requires HistoryOk(d) && ArchivedSoFar(cfg, d, head, todo) && todo != []
    ensures InHistory(d.history, todo[0])
  {
    var ms, n, batch := d.session.value.messages, |Flatten(todo)|, todo[0];
    assert ms[|ms| - n..] == batch + Flatten(todo[1..]);
    assert batch == ms[|ms| - n..][..|batch|];
    assert Segment(d.history, d.trimmed + (|ms| - n), batch);
  }

  lemma BatchKeeps(cfg: Config, d: Data, version: nat, head: nat, todo: seq<seq<Message>>, guarded: bool)
    requires Shared(cfg, d, guarded) && ArchivedSoFar(cfg, d, head, todo) && todo != [] && todo[0] != []
    ensures var d' := CreateOrReuse(cfg, d, version, todo[0]);
            Shared(cfg, d', guarded) && ArchivedSoFar(cfg, d', head, todo[1..])
  {
    NextBatchInHistory(cfg, d, head, todo);
    CreateOrReuseHolds(cfg, d, version, todo[0], guarded);
    BatchDone(cfg, d, CreateOrReuse(cfg, d, version, todo[0]), head, todo);
  }

  lemma CloseArchiveKeeps(cfg: Config, d: Data, lock: Option<nat>, p: nat, proc: Proc, fault: Fault, guarded: bool)
    requires Shared(cfg, d, guarded) && proc.CloseArchiving? && ProcOk(cfg, d, proc, guarded) && lock == Some(p)
    ensures OwnOk(cfg, p, CloseArchiveStep(cfg, d, lock, proc, fault), guarded)
  {
    if proc.todo != [] && proc.todo[0] != [] && !fault.LostRequest? {
      BatchKeeps(cfg, d, proc.metaVersion, proc.head, proc.todo, guarded);
    }
  }

  lemma RoundMarkKeeps(cfg: Config, d: Data, lock: Option<nat>, p: nat, proc: Proc, guarded: bool)
    requires Shared(cfg, d, guarded) && proc.RoundLocked? && ProcOk(cfg, d, proc, guarded) && lock == Some(p)
    requires guarded && d.session.Some? ==> proc.ticket.metaVersion == d.session.value.version
    ensures OwnOk(cfg, p, RoundMarkStep(d, lock, p, proc), guarded)
  {
    if d.session.Some? {
      MarkKeeps(cfg, d, proc.ticket, guarded);
    }
  }

  /** Setting a ticket's pending archive. */
  lemma MarkKeeps(cfg: Config, d: Data, t: Ticket, guarded: bool)
    requires Shared(cfg, d, guarded) && TicketOk(cfg, d, t, guarded) && d.session.Some?
    requires guarded ==> t.metaVersion == d.session.value.version
    ensures Shared(cfg, SetPending(d, t.pending), guarded) && TicketOk(cfg, SetPending(d, t.pending), t, guarded)
  {
    assert HistoryOk(SetPending(d, t.pending)) && StoreOk(cfg, SetPending(d, t.pending));
  }

  lemma RoundFinalizeKeeps(cfg: Config, d: Data, lock: Option<nat>, p: nat, proc: Proc, guarded: bool)
    requires Shared(cfg, d, guarded) && proc.RoundMarked? && ProcOk(cfg, d, proc, guarded) && lock == Some(p)
    ensures OwnOk(cfg, p, RoundFinalizeStep(d, lock, p, proc), guarded)
  {
    if CanFinalize(d, proc.ticket) {
      FinalizeKeeps(cfg, d, proc.ticket, guarded);
    }
  }

  lemma RoundListKeeps(cfg: Config, d: Data, lock: Option<nat>, p: nat, proc: Proc, guarded: bool)
    requires Shared(cfg, d, guarded) && proc.RoundReadMeta? && ProcOk(cfg, d, proc, guarded)
    ensures OwnOk(cfg, p, RoundListStep(d, lock, proc), guarded)
  {
    if d.session.Some? {
      assert Segment(d.history, d.trimmed, d.session.value.messages);
    }
  }

  lemma RoundStepKeeps(cfg: Config, d: Data, lock: Option<nat>, p: nat, proc: Proc, a: Action, guarded: bool)
    requires Shared(cfg, d, guarded) && ProcOk(cfg, d, proc, guarded) && !IsClose(proc)
    requires HoldsLock(proc) ==> lock == Some(p)
    requires guarded && a.RoundMark? && proc.RoundLocked? && d.session.Some? ==>
               proc.ticket.metaVersion == d.session.value.version
    ensures OwnOk(cfg, p, ProcStep(cfg, d, lock, p, proc, a), guarded)
  {
    if a.RoundList? && proc.RoundReadMeta? {
      RoundListKeeps(cfg, d, lock, p, proc, guarded);
    } else if a.RoundArchive? && proc.RoundReadList? {
      RoundArchiveKeeps(cfg, d, lock, p, proc, a.k, guarded);
    } else if a.RoundMark? && proc.RoundLocked? {
      RoundMarkKeeps(cfg, d, lock, p, proc, guarded);
    } else if a.RoundFinalize? && proc.RoundMarked? {
      RoundFinalizeKeeps(cfg, d, lock, p, proc, guarded);
    }
  }

  lemma CloseStepKeeps(cfg: Config, d: Data, lock: Option<nat>, p: nat, proc: Proc, a: Action, guarded: bool)
    requires Shared(cfg, d, guarded) && ProcOk(cfg, d, proc, guarded) && IsClose(proc) && lock == Some(p)
    ensures OwnOk(cfg, p, ProcStep(cfg, d, lock, p, proc, a), guarded)
  {
    if a.CloseList? && proc.CloseReadMeta? {
      CloseListKeeps(cfg, d, lock, p, proc, guarded);
    } else if a.CloseArchive? && proc.CloseArchiving? {
      CloseArchiveKeeps(cfg, d, lock, p, proc, a.fault, guarded);
    } else if a.CloseDelete? && proc.CloseArchiving? {
      CloseDeleteKeeps(cfg, d, lock, p, proc, guarded);
    } else {
      CloseRestKeeps(cfg, d, lock, p, proc, a, guarded);
    }
  }

  lemma CloseDeleteKeeps(cfg: Config, d: Data, lock: Option<nat>, p: nat, proc: Proc, guarded: bool)
    requires Shared(cfg, d, guarded) && ProcOk(cfg, d, proc, guarded) && proc.CloseArchiving? && lock == Some(p)
    ensures OwnOk(cfg, p, CloseDeleteStep(d, lock, proc), guarded)
  {
    if proc.todo == [] {
      DeleteKeeps(cfg, d, proc.head, guarded);
    }
  }

  /** Entering, reading the hash, reverting and releasing change at most the status. */
  lemma CloseRestKeeps(cfg: Config, d: Data, lock: Option<nat>, p: nat, proc: Proc, a: Action, guarded: bool)
    requires Shared(cfg, d, guarded) && ProcOk(cfg, d, proc, guarded) && IsClose(proc) && lock == Some(p)
    requires !(a.CloseList? && proc.CloseReadMeta?) && !(a.CloseArchive? && proc.CloseArchiving?) && !(a.CloseDelete? && proc.CloseArchiving?)
    ensures OwnOk(cfg, p, ProcStep(cfg, d, lock, p, proc, a), guarded)
  {
  }

  // ----- all steps, all runs -----

  lemma ActorStepKeeps(cfg: Config, s: State, a: Action, guarded: bool)
    requires Inv(cfg, s, guarded) && Actor(a).Some? && a.p in s.procs && !a.RoundStart? && !a.CloseStart?
    requires guarded ==> PendingWriteIsFresh(s, a)
    ensures Inv(cfg, Apply(cfg, s, a), guarded)
  {
    var p, proc := a.p, s.procs[a.p];
    var e := ProcStep(cfg, s.data, s.lock, p, proc, a);
    assert OwnOk(cfg, p, e, guarded) by {
      if IsClose(proc) {
        CloseStepKeeps(cfg, s.data, s.lock, p, proc, a, guarded);
      } else {
        RoundStepKeeps(cfg, s.data, s.lock, p, proc, a, guarded);
      }
    }
    forall q | q in s.procs && q != p
      ensures ProcOk(cfg, e.data, s.procs[q], guarded) && (HoldsLock(s.procs[q]) ==> e.lock == Some(q))
    {
      ProcStepRely(cfg, s.data, s.lock, p, proc, a, q);
      ProcKept(cfg, s.data, e.data, s.procs[q], guarded);
    }
  }

  lemma OutsideStepKeeps(cfg: Config, s: State, d': Data, guarded: bool)
    requires Inv(cfg, s, guarded) && Shared(cfg, d', guarded) && Rely(s.data, d', true)
    ensures Inv(cfg, s.(data := d'), guarded)
  {
    forall q | q in s.procs ensures ProcOk(cfg, d', s.procs[q], guarded) {
      ProcKept(cfg, s.data, d', s.procs[q], guarded);
    }
  }

  lemma StartKeeps(cfg: Config, s: State, a: Action, guarded: bool)
    requires Inv(cfg, s, guarded) && (a.RoundStart? || a.CloseStart?)
    ensures Inv(cfg, Apply(cfg, s, a), guarded)
  {
  }

  lemma OutsideKeeps(cfg: Config, s: State, a: Action, guarded: bool)
    requires Inv(cfg, s, guarded) && Clean(a) && Actor(a).None?
    ensures Inv(cfg, Apply(cfg, s, a), guarded)
  {
    match a
    case WriteMessage(m) =>
      WriteKeeps(cfg, s.data, m, guarded);
      OutsideStepKeeps(cfg, s, Write(s.data, m), guarded);
    case OtherSessionArchive(o) =>
      OtherKeeps(cfg, s.data, o, guarded);
      OutsideStepKeeps(cfg, s, OtherArchive(cfg, s.data, o), guarded);
    case _ =>
  }
  /** Every step keeps the invariant. */
  lemma StepKeeps(cfg: Config, s: State, a: Action, guarded: bool)
    requires Inv(cfg, s, guarded) && Clean(a)
    requires guarded ==> PendingWriteIsFresh(s, a)
    ensures Inv(cfg, Apply(cfg, s, a), guarded)
  {
    if Actor(a).None? {
      OutsideKeeps(cfg, s, a, guarded);
    } else if a.RoundStart? || a.CloseStart? {
      StartKeeps(cfg, s, a, guarded);
    } else if a.p in s.procs {
      ActorStepKeeps(cfg, s, a, guarded);
    }
  }
}
