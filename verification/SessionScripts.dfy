/** The Redis scripts of a session as they run on its stored fields, and the protocol steps they are. */
module SessionScripts {
  import opened Options
  import opened ArchiveKeys
  import opened CloseSplit
  import opened CloseProtocol

  /** What a script returns. */
  datatype Status =
    | Success
    | SessionNotFound
    | SessionClosing
    | Duplicate
    | LockNotAcquired
    | VersionConflict
    | PendingConflict
    | BoundaryMismatch

  /** Where a step finds the session and the lock. */
  ghost predicate IsAt(d: Data, session: Option<Session>) { d.session == session }

  /** The keys of one session. */
  class RedisKeys {
    var session: Option<Session>
    var lock: Option<nat>

    /** `message_write.lua`. */
    method WriteMessage(m: Message, ghost d: Data) returns (status: Status)
      requires IsAt(d, session)
      modifies this`session
      ensures session == Write(d, m).session
      ensures status.SessionNotFound? <==> old(session).None?
      ensures status.SessionClosing? <==> old(session).Some? && old(session).value.status == Closing
      ensures status.Duplicate? <==> old(session).Some? && old(session).value.status == Active && m.id in old(session).value.ids
      ensures status.Success? <==> old(session).Some? && old(session).value.status == Active && m.id !in old(session).value.ids
      ensures !status.Success? ==> session == old(session)
      ensures status.Success? ==>
                && session.Some? && session.value.messages == old(session).value.messages + [m] && session.value.ids == old(session).value.ids + {m.id}
                && session.value.(messages := [], ids := {}) == old(session).value.(messages := [], ids := {})
    {
      if session == None {
        return SessionNotFound;
      }
      var s := session.value;
      if s.status != Active {
        return SessionClosing;
      }
      if m.id in s.ids {
        return Duplicate;
      }
      session := Some(s.(messages := s.messages + [m], ids := s.ids + {m.id}));
      return Success;
    }

    /** `pending_archive_write.lua`: an empty pending archive is set, the same one accepted. */
    method WritePending(pend: Pending, owner: nat) returns (status: Status)
      modifies this`session
      ensures status.SessionNotFound? <==> old(session).None?
      ensures status.SessionClosing? <==> old(session).Some? && old(session).value.status == Closing
      ensures status.LockNotAcquired? <==> old(session).Some? && old(session).value.status == Active && lock != Some(owner)
      ensures status.Success? <==>
                && old(session).Some? && old(session).value.status == Active && lock == Some(owner)
                && (old(session).value.pending == None || old(session).value.pending == Some(pend))
      ensures status in {SessionNotFound, SessionClosing, LockNotAcquired, PendingConflict, Success}
      ensures !status.Success? ==> session == old(session)
      ensures status.Success? ==> session == Some(old(session).value.(pending := Some(pend)))
    {
      if session == None {
        return SessionNotFound;
      }
      var s := session.value;
      if s.status != Active {
        return SessionClosing;
      }
      if lock != Some(owner) {
        return LockNotAcquired;
      }
      if s.pending != None {
        return if s.pending.value.archiveId != pend.archiveId || s.pending.value.key != pend.key then PendingConflict
               else if s.pending.value.count != pend.count then PendingConflict
               else Success;
      }
      session := Some(s.(pending := Some(pend)));
      return Success;
    }

    /** The locked part of `prepare_pending_archive_and_publish`: a refused write gives the
        lock back. */
    method MarkPending(owner: nat, proc: Proc, ghost d: Data) returns (status: Status)
      requires proc.RoundLocked? && IsAt(d, session)
      modifies this
      ensures var e := RoundMarkStep(d, old(lock), owner, proc);
              && session == e.data.session && lock == e.lock
              && e.proc == if status.Success? then Some(RoundMarked(proc.ticket)) else None
    {
      status := WritePending(proc.ticket.pending, owner);
      if status != Success && lock == Some(owner) {
        lock := None;
      }
    }

    /** `compression_finalize.lua`: every check in the order of the script, then the archived
        head is trimmed, the version goes up, and the lock is given back. */
    method FinalizeCompression(t: Ticket, owner: nat, ghost d: Data) returns (status: Status)
      requires IsAt(d, session)
      modifies this
      ensures var e := RoundFinalizeStep(d, old(lock), owner, RoundMarked(t));
              session == e.data.session && lock == e.lock
      ensures status.Success? <==> old(lock) == Some(owner) && CanFinalize(d, t)
      ensures !status.Success? ==> session == old(session) && lock == old(lock)
      ensures status.Success? ==>
                && old(session).Some? && session.Some? && lock == None && t.pending.count <= |old(session).value.messages|
                && old(session).value.messages == old(session).value.messages[..t.pending.count] + session.value.messages
                && session.value.version == old(session).value.version + 1 && session.value.pending == None
                && session.value.status == old(session).value.status && session.value.ids == old(session).value.ids
      // which check fails first
      ensures status.SessionNotFound? <==> old(session).None?
      ensures status.SessionClosing? <==> old(session).Some? && old(session).value.status == Closing && old(session).value.pending == None
      ensures status.LockNotAcquired? ==> old(lock) != Some(owner)
      ensures status.VersionConflict? ==> old(lock) == Some(owner) && old(session).Some? && old(session).value.version != t.version
      ensures status.PendingConflict? ==> old(session).Some? && old(session).value.version == t.version && old(session).value.pending != Some(t.pending)
      ensures status.BoundaryMismatch? ==> old(session).Some? && old(session).value.pending == Some(t.pending) && !IsHeadOf(old(session).value.messages, t)
    {
      if session == None {
        return SessionNotFound;
      }
      var s := session.value;
      if s.status == Closing && s.pending == None {
        return SessionClosing;
      }
      if lock != Some(owner) {
        return LockNotAcquired;
      }
      if s.version != t.version {
        return VersionConflict;
      }
      if s.pending != Some(t.pending) {
        return PendingConflict;
      }
      var n := t.pending.count;
      if n == 0 || |s.messages| < n || s.messages[0].id != t.first || s.messages[n - 1].id != t.last {
        return BoundaryMismatch;
      }
      session := Some(s.(messages := s.messages[n..], version := s.version + 1, pending := None));
      lock := None;
      return Success;
    }
  }

  /** The ticket's boundary ids are those of as many messages from the head. */
  predicate IsHeadOf(ms: seq<Message>, t: Ticket) {
    0 < t.pending.count <= |ms| && ms[0].id == t.first && ms[t.pending.count - 1].id == t.last
  }

  /** The unlocked part of a round (`_run_single_compression_round`): from the session as it is
      when its hash is read and when its list is read, and the archives `d` later on. `k` is
      the length of the selected prefix, 0 if none is. */
  method PrepareRound(cfg: Config, meta: Session, list: Session, d: Data, k: nat, ghost reading: Data) returns (d': Data, ticket: Option<Ticket>)
    requires IsAt(reading, Some(list))
    ensures var read := RoundListStep(reading, None, RoundReadMeta(meta.version, meta.pending));
            && read.proc.Some? && read.proc.value.RoundReadList?
            && var e := RoundArchiveStep(cfg, d, None, read.proc.value, k);
            && d' == e.data && e.proc == (if ticket.Some? then Some(RoundReady(ticket.value)) else None)
    // the ticket: both versions as read, and the archive with its first and last message
    ensures ticket.Some? ==>
              var t := ticket.value;
              && t.metaVersion == meta.version && t.version == list.version
              && (meta.pending.Some? ==> t.pending == meta.pending.value && d' == d)
              && (meta.pending.None? ==> t.pending.count == k && 0 < k <= |list.messages|
                                         && t.first == list.messages[0].id && t.last == list.messages[k - 1].id)
  {
    if meta.pending != None {
      var pend := meta.pending.value;
      if pend.key !in d.store || d.store[pend.key].messages == [] {
        return d, None;
      }
      var ms := d.store[pend.key].messages;
      return d, Some(Ticket(meta.version, list.version, pend, ms[0].id, ms[|ms| - 1].id));
    }
    if k == 0 || |list.messages| < k {
      return d, None;
    }
    var prefix := list.messages[..k];
    var key := BatchKey(cfg.sessionId, prefix[0].id, prefix[k - 1].id);
    d' := d.(nextArchive := d.nextArchive + 1);
    if key !in d.store {
      d' := d'.(store := d.store[key := Archive(d.nextArchive, cfg.sessionId, list.version, prefix)]);
    }
    return d', Some(Ticket(meta.version, list.version, Pending(key, k, d'.store[key].id), prefix[0].id, prefix[k - 1].id));
  }
}
