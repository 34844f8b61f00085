/** What the invariant of the close protocol means for whole runs. */
module CloseSafety {
  import opened Options
  import opened CloseSplit
  import opened ArchiveKeys
  import opened CloseProtocol
  import opened CloseInvariant
  import opened CloseSteps

  predicate AllClean(acts: seq<Action>) {
    forall i :: 0 <= i < |acts| ==> Clean(acts[i])
  }

  /** Every pending write of the run is fresh at its moment. */
  predicate AllFresh(cfg: Config, acts: seq<Action>) {
    forall i :: 0 <= i < |acts| ==> PendingWriteIsFresh(Run(cfg, acts[..i]), acts[i])
  }

  lemma {:induction false} RunKeeps(cfg: Config, acts: seq<Action>, guarded: bool)
    requires NoColon(cfg.sessionId) && AllClean(acts) && (guarded ==> AllFresh(cfg, acts))
    ensures Inv(cfg, Run(cfg, acts), guarded)
    decreases |acts|
  {
    if acts != [] {
      var n := |acts| - 1;
      forall i | 0 <= i < n && guarded ensures PendingWriteIsFresh(Run(cfg, acts[..n][..i]), acts[..n][i]) {
        assert acts[..n][..i] == acts[..i];
      }
      RunKeeps(cfg, acts[..n], guarded);
      StepKeeps(cfg, Run(cfg, acts[..n]), acts[n], guarded);
    }
  }

  /** In every run whose pending writes are fresh, no accepted message is ever lost:
      at every moment, before, during and after close, it is live or archived. */
  lemma FreshRunsLoseNothing(cfg: Config, acts: seq<Action>)
    requires NoColon(cfg.sessionId) && AllClean(acts) && AllFresh(cfg, acts)
    ensures NothingLost(cfg, Run(cfg, acts).data)
  {
    RunKeeps(cfg, acts, true);
    SharedLosesOnlyHead(cfg, Run(cfg, acts).data, true);
  }

  lemma SharedLosesOnlyHead(cfg: Config, d: Data, guarded: bool)
    requires Shared(cfg, d, guarded)
    ensures forall m :: m in d.history ==>
              Stored(cfg, d.store, m) || (d.session.Some? && m in d.session.value.messages)
              || (!guarded && d.session.None? && m in d.deletedHead)
  {
    forall m | m in d.history && d.session.Some? && !Stored(cfg, d.store, m) ensures m in d.session.value.messages {
      var i :| 0 <= i < |d.history| && d.history[i] == m;
      assert d.trimmed <= i;
      assert d.session.value.messages[i - d.trimmed] == m;
    }
  }

  /** In every run at all: while the session lives nothing is lost, and after the
      terminal delete the only messages that can be missing are the pending head the
      close attempt took as already archived. */
  lemma OnlyThePendingHeadCanBeLost(cfg: Config, acts: seq<Action>)
    requires NoColon(cfg.sessionId) && AllClean(acts)
    ensures var d := Run(cfg, acts).data;
            && (d.session.Some? ==> NothingLost(cfg, d))
            && (d.session.None? ==>
                 (NothingLost(cfg, d) <==> forall m :: m in d.deletedHead ==> Stored(cfg, d.store, m)))
  {
    RunKeeps(cfg, acts, false);
    var d := Run(cfg, acts).data;
    SharedLosesOnlyHead(cfg, d, false);
    assert d.session.None? ==> forall m :: m in d.deletedHead ==> m in d.history;
  }

  lemma RunExtends(cfg: Config, acts: seq<Action>, a: Action)
    ensures Run(cfg, acts + [a]) == Apply(cfg, Run(cfg, acts), a)
  {
    assert (acts + [a])[..|acts|] == acts;
  }

  /** Archives are immutable: no later action removes or changes one. */
  lemma {:induction false} ArchivesAreImmutable(cfg: Config, acts: seq<Action>, more: seq<Action>)
    ensures StoreGrows(Run(cfg, acts).data.store, Run(cfg, acts + more).data.store)
    decreases |more|
  {
    if more == [] {
      assert acts + more == acts;
    } else {
      var n := |more| - 1;
      ArchivesAreImmutable(cfg, acts, more[..n]);
      assert acts + more == (acts + more[..n]) + [more[n]];
      RunExtends(cfg, acts + more[..n], more[n]);
      StepGrowsStore(cfg, Run(cfg, acts + more[..n]), more[n]);
    }
  }

  lemma StepGrowsStore(cfg: Config, s: State, a: Action)
    ensures StoreGrows(s.data.store, Apply(cfg, s, a).data.store)
  {
  }

  /** An archive found under a key is the very batch that was to be written there, so
      CREATED and REUSED are the same to the caller; archives are never changed. */
  lemma ReusedArchiveIsTheBatch(cfg: Config, acts: seq<Action>, version: nat, ms: seq<Message>)
    requires NoColon(cfg.sessionId) && AllClean(acts)
    requires ms != [] && InHistory(Run(cfg, acts).data.history, ms)
    requires SegmentKey(cfg.sessionId, ms) in Run(cfg, acts).data.store
    ensures Run(cfg, acts).data.store[SegmentKey(cfg.sessionId, ms)].messages == ms
  {
    RunKeeps(cfg, acts, false);
    CreateOrReuseHolds(cfg, Run(cfg, acts).data, version, ms, false);
  }

  // ----- what one close can lose -----

  /** The first `head` live messages are all in archives of the session. */
  ghost predicate HeadStored(cfg: Config, d: Data, head: nat) {
    d.session.Some? ==> forall i :: 0 <= i < head && i < |d.session.value.messages| ==> Stored(cfg, d.store, d.session.value.messages[i])
  }

  /** A terminal delete sent now would find the messages it takes as archived in archives. */
  ghost predicate IsSafe(cfg: Config, s: State, a: Action) {
    a.CloseDelete? && MayDelete(s, a.p) ==> HeadStored(cfg, s.data, s.procs[a.p].head)
  }
  /** A pending archive, if any, is the head of the live list. */
  ghost predicate PendingIsHead(cfg: Config, d: Data) {
    d.session.Some? && d.session.value.pending.Some? ==> IsHead(cfg, d, d.session.value.pending.value)
  }

  /** The attempt of `p` has archived all its batches and can send the terminal delete. */
  predicate MayDelete(s: State, p: nat) { p in s.procs && s.procs[p].CloseArchiving? && s.procs[p].todo == [] }

  /** From the lock to the last batch. */
  predicate IsUnderWay(proc: Proc) { proc.CloseLocked? || proc.CloseEntered? || proc.CloseReadMeta? || proc.CloseArchiving? }

  predicate UnderWay(s: State, p: nat) { p in s.procs && IsUnderWay(s.procs[p]) }

  /** In every run, the terminal delete of an attempt loses nothing exactly when every
      message it takes as already archived is in an archive when it is sent. */
  lemma DeleteLosesNothingExactly(cfg: Config, acts: seq<Action>, p: nat)
    requires NoColon(cfg.sessionId) && AllClean(acts) && MayDelete(Run(cfg, acts), p)
    ensures var s := Run(cfg, acts);
            var after := Apply(cfg, s, CloseDelete(p)).data;
            && s.data.session.Some? && after.session.None?
            && s.procs[p].head == HeadCount(s.data.session.value.pending)
            && (NothingLost(cfg, after) <==> HeadStored(cfg, s.data, s.procs[p].head))
  {
    RunKeeps(cfg, acts, false);
    var s := Run(cfg, acts);
    assert ProcOk(cfg, s.data, s.procs[p], false);
    DeletedLosesNothingExactly(cfg, s.data, s.procs[p].head);
  }

  lemma DeletedLosesNothingExactly(cfg: Config, d: Data, head: nat)
    requires Shared(cfg, d, false) && ArchivedSoFar(cfg, d, head, [])
    ensures NothingLost(cfg, Delete(d, head)) <==> HeadStored(cfg, d, head)
  {
    var ms := d.session.value.messages;
    HeadIsWhatCanBeMissing(cfg, d, head);
    if NothingLost(cfg, Delete(d, head)) {
      forall i | 0 <= i < head && i < |ms| ensures Stored(cfg, d.store, ms[i]) {
        assert d.history[d.trimmed + i] == ms[i];
      }
    }
  }

  /** Nothing but a terminal delete ends a session, and nothing is accepted after it. */
  lemma OnlyDeleteEnds(cfg: Config, s: State, a: Action)
    requires Apply(cfg, s, a).data.session.None? && !(a.CloseDelete? && MayDelete(s, a.p))
    ensures s.data.session.None? && Apply(cfg, s, a).data.history == s.data.history
  {
  }

  lemma StepLosesNothing(cfg: Config, s: State, a: Action)
    requires Inv(cfg, s, false) && Clean(a) && NothingLost(cfg, s.data) && IsSafe(cfg, s, a)
    ensures NothingLost(cfg, Apply(cfg, s, a).data)
  {
    var d' := Apply(cfg, s, a).data;
    if d'.session.Some? {
      StepKeeps(cfg, s, a, false);
      SharedLosesOnlyHead(cfg, d', false);
    } else if a.CloseDelete? && MayDelete(s, a.p) {
      assert ProcOk(cfg, s.data, s.procs[a.p], false);
      DeletedLosesNothingExactly(cfg, s.data, s.procs[a.p].head);
    } else {
      OnlyDeleteEnds(cfg, s, a);
      StepGrowsStore(cfg, s, a);
      StoredGrows(cfg, s.data.store, d'.store);
    }
  }

  /** At every moment of the run, every accepted message is live or in an archive. */
  ghost predicate NeverLoses(cfg: Config, acts: seq<Action>) {
    forall n :: 0 <= n <= |acts| ==> NothingLost(cfg, Run(cfg, acts[..n]).data)
  }

  ghost predicate AllSafe(cfg: Config, acts: seq<Action>) {
    forall i :: 0 <= i < |acts| ==> IsSafe(cfg, Run(cfg, acts[..i]), acts[i])
  }

  lemma NeverLosesExtends(cfg: Config, acts: seq<Action>, a: Action)
    ensures NeverLoses(cfg, acts + [a]) <==> NeverLoses(cfg, acts) && NothingLost(cfg, Run(cfg, acts + [a]).data)
  {
    var more := acts + [a];
    assert more[..|more|] == more;
    assert forall n :: 0 <= n <= |acts| ==> more[..n] == acts[..n];
  }

  lemma AllSafeExtends(cfg: Config, acts: seq<Action>, a: Action)
    ensures AllSafe(cfg, acts + [a]) <==> AllSafe(cfg, acts) && IsSafe(cfg, Run(cfg, acts), a)
  {
    var more := acts + [a];
    assert more[..|acts|] == acts;
    assert forall i :: 0 <= i < |acts| ==> more[..i] == acts[..i] && more[i] == acts[i];
  }

  /** A run loses no message at any moment exactly when each terminal delete is sent while
      the messages it takes as already archived are in archives. */
  lemma {:induction false} RunLosesNothingExactly(cfg: Config, acts: seq<Action>)
    requires NoColon(cfg.sessionId) && AllClean(acts)
    ensures NeverLoses(cfg, acts) <==> AllSafe(cfg, acts)
    decreases |acts|
  {
    if acts != [] {
      var before, a := acts[..|acts| - 1], acts[|acts| - 1];
      assert acts == before + [a];
      RunLosesNothingExactly(cfg, before);
      NeverLosesExtends(cfg, before, a);
      AllSafeExtends(cfg, before, a);
      RunExtends(cfg, before, a);
      if NeverLoses(cfg, before) {
        assert before[..|before|] == before;
        LastStepLosesNothingExactly(cfg, before, a);
      }
    }
  }

  lemma LastStepLosesNothingExactly(cfg: Config, acts: seq<Action>, a: Action)
    requires NoColon(cfg.sessionId) && AllClean(acts) && Clean(a) && NothingLost(cfg, Run(cfg, acts).data)
    ensures NothingLost(cfg, Apply(cfg, Run(cfg, acts), a).data) <==> IsSafe(cfg, Run(cfg, acts), a)
  {
    var s := Run(cfg, acts);
    RunKeeps(cfg, acts, false);
    if IsSafe(cfg, s, a) {
      StepLosesNothing(cfg, s, a);
    } else {
      DeleteLosesNothingExactly(cfg, acts, a.p);
    }
  }
  lemma HeadIsStored(cfg: Config, d: Data)
    requires d.session.Some? && PendingIsHead(cfg, d)
    ensures HeadStored(cfg, d, HeadCount(d.session.value.pending))
  {
    var ses := d.session.value;
    if ses.pending.Some? {
      var key := ses.pending.value.key;
      forall i | 0 <= i < HeadCount(ses.pending) && i < |ses.messages| ensures Stored(cfg, d.store, ses.messages[i]) {
        assert d.store[key].messages[i] == ses.messages[i];
      }
    }
  }

  /** Archives are only added, and the list only grows at its end, with the same pending
      archive. */
  ghost predicate HeadRely(d: Data, d': Data) {
    && StoreGrows(d.store, d'.store)
    && (d'.session.Some? ==>
          && d.session.Some? && d'.session.value.pending == d.session.value.pending
          && d.session.value.messages <= d'.session.value.messages)
  }

  lemma HeadStays(cfg: Config, d: Data, d': Data)
    requires HeadRely(d, d') && PendingIsHead(cfg, d)
    ensures PendingIsHead(cfg, d')
  {
  }

  /** A process without the lock leaves the session alone and only adds archives. */
  lemma WithoutLock(cfg: Config, d: Data, lock: Option<nat>, p: nat, proc: Proc, a: Action)
    requires !HoldsLock(proc)
    ensures HeadRely(d, ProcStep(cfg, d, lock, p, proc, a).data)
  {
  }

  /** So does a closing attempt, until it deletes or reverts. */
  lemma ClosingOn(cfg: Config, d: Data, lock: Option<nat>, p: nat, proc: Proc, a: Action)
    requires var e := ProcStep(cfg, d, lock, p, proc, a); IsUnderWay(proc) && e.proc.Some? && IsUnderWay(e.proc.value)
    ensures HeadRely(d, ProcStep(cfg, d, lock, p, proc, a).data)
  {
  }

  /** While an attempt is under way no step of anyone, its own delete and revert aside,
      takes the pending archive off the head of the list. */
  lemma HeadKept(cfg: Config, s: State, a: Action, p: nat)
    requires Inv(cfg, s, false) && UnderWay(s, p) && UnderWay(Apply(cfg, s, a), p) && PendingIsHead(cfg, s.data)
    ensures PendingIsHead(cfg, Apply(cfg, s, a).data)
  {
    assert s.lock == Some(p);
    if Actor(a).Some? && !a.RoundStart? && !a.CloseStart? && a.p in s.procs {
      ActorRely(cfg, s, a, p);
    } else {
      OutsideRely(cfg, s, a);
    }
    HeadStays(cfg, s.data, Apply(cfg, s, a).data);
  }

  lemma ActorRely(cfg: Config, s: State, a: Action, p: nat)
    requires LocksOk(s) && UnderWay(s, p) && UnderWay(Apply(cfg, s, a), p)
    requires Actor(a).Some? && !a.RoundStart? && !a.CloseStart? && a.p in s.procs
    ensures HeadRely(s.data, Apply(cfg, s, a).data)
  {
    assert s.lock == Some(p);
    if a.p == p {
      ClosingOn(cfg, s.data, s.lock, p, s.procs[p], a);
    } else {
      WithoutLock(cfg, s.data, s.lock, a.p, s.procs[a.p], a);
    }
  }

  lemma OutsideRely(cfg: Config, s: State, a: Action)
    requires Actor(a).None? || a.RoundStart? || a.CloseStart? || a.p !in s.procs
    ensures HeadRely(s.data, Apply(cfg, s, a).data)
  {
  }

  lemma {:induction false} HeadKeptOverRun(cfg: Config, acts: seq<Action>, more: seq<Action>, p: nat)
    requires NoColon(cfg.sessionId) && AllClean(acts) && AllClean(more) && PendingIsHead(cfg, Run(cfg, acts).data)
    requires forall i :: 0 <= i <= |more| ==> UnderWay(Run(cfg, acts + more[..i]), p)
    ensures PendingIsHead(cfg, Run(cfg, acts + more).data)
    decreases |more|
  {
    if more == [] {
      assert acts + more == acts;
    } else {
      var n := |more| - 1;
      forall i | 0 <= i <= n ensures UnderWay(Run(cfg, acts + more[..n][..i]), p) {
        assert more[..n][..i] == more[..i];
      }
      HeadKeptOverRun(cfg, acts, more[..n], p);
      RunKeeps(cfg, acts + more[..n], false);
      assert acts + more == (acts + more[..n]) + [more[n]] && more[..|more|] == more;
      RunExtends(cfg, acts + more[..n], more[n]);
      HeadKept(cfg, Run(cfg, acts + more[..n]), more[n], p);
    }
  }

  /** Close loses nothing: in every run, if a pending archive is the head of the list at any
      moment from the lock of an attempt on, then whatever writes, rounds, crashes, lost
      requests and other attempts do until that attempt deletes the session, every message
      ever accepted is in an archive when it is gone. */
  lemma CloseLosesNothing(cfg: Config, acts: seq<Action>, more: seq<Action>, p: nat)
    requires NoColon(cfg.sessionId) && AllClean(acts) && AllClean(more) && PendingIsHead(cfg, Run(cfg, acts).data)
    requires forall i :: 0 <= i <= |more| ==> UnderWay(Run(cfg, acts + more[..i]), p)
    requires MayDelete(Run(cfg, acts + more), p)
    ensures var after := Apply(cfg, Run(cfg, acts + more), CloseDelete(p)).data; after.session.None? && NothingLost(cfg, after)
  {
    HeadKeptOverRun(cfg, acts, more, p);
    DeleteLosesNothingExactly(cfg, acts + more, p);
    HeadIsStored(cfg, Run(cfg, acts + more).data);
  }
}
