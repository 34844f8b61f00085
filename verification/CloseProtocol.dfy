/** The protocol that moves a session's messages into archives and then deletes the
    live copy: message writes, compression rounds and close attempts, interleaved in
    any order, with crashes, lost requests and lost replies. One step is one Redis
    script, one Mongo call, or one purely local step of a process. */
module CloseProtocol {
  import opened Options
  import opened CloseSplit
  import opened ArchiveKeys

  datatype Status = Active | Closing

  /** The `pending_archive_*` fields of the session hash. */
  datatype Pending = Pending(key: string, count: nat, archiveId: nat)

  /** The Redis keys of one session: meta hash, message list, message-id set. */
  datatype Session = Session(
    status: Status, version: nat, pending: Option<Pending>,
    messages: seq<Message>, ids: set<string>)

  datatype Archive = Archive(id: nat, sessionId: string, version: nat, messages: seq<Message>)

  /** What a compression round carries from its unlocked reads to its locked writes. */
  datatype Ticket = Ticket(metaVersion: nat, version: nat, pending: Pending, first: string, last: string)

  /** Where a running process stands. A process that ended or crashed has none. */
  datatype Proc =
    // compression round
    | RoundReadMeta(metaVersion: nat, found: Option<Pending>)
    | RoundReadList(metaVersion: nat, found: Option<Pending>, version: nat, messages: seq<Message>)
    | RoundReady(ticket: Ticket)
    | RoundLocked(ticket: Ticket)
    | RoundMarked(ticket: Ticket)
    // close attempt
    | CloseLocked
    | CloseEntered
    | CloseReadMeta(metaVersion: nat, found: Option<Pending>)
    | CloseArchiving(metaVersion: nat, head: nat, todo: seq<seq<Message>>, persisted: bool)
    | CloseReverting(persisted: bool)
    | CloseReleasing

  predicate IsClose(proc: Proc) {
    proc.CloseLocked? || proc.CloseEntered? || proc.CloseReadMeta? || proc.CloseArchiving?
    || proc.CloseReverting? || proc.CloseReleasing?
  }

  predicate HoldsLock(proc: Proc) {
    proc.RoundLocked? || proc.RoundMarked? || IsClose(proc)
  }

  datatype Config = Config(sessionId: string, cap: nat)

  /** Redis and Mongo. The last three fields are history variables: no step reads them. */
  datatype Data = Data(
    session: Option<Session>, store: map<string, Archive>, nextArchive: nat,
    history: seq<Message>, trimmed: nat, deletedHead: seq<Message>)

  /** The stores, the session's compression lock, and the running processes. */
  datatype State = State(data: Data, lock: Option<nat>, procs: map<nat, Proc>)

  /** What one step of a process leaves behind; `None` when the process has ended. */
  datatype Effect = Effect(data: Data, lock: Option<nat>, proc: Option<Proc>)

  /** How a call to a store ends: done; never arrived; done, but the caller sees an error. */
  datatype Fault = NoFault | LostRequest | LostReply

  datatype Action =
    | WriteMessage(message: Message)
    | OtherSessionArchive(archive: Archive)
    | RoundStart(p: nat)
    | RoundList(p: nat)
    | RoundArchive(p: nat, k: nat)
    | RoundLock(p: nat)
    | RoundMark(p: nat)
    | RoundFinalize(p: nat)
    | CloseStart(p: nat)
    | CloseEnter(p: nat)
    | CloseMeta(p: nat)
    | CloseList(p: nat)
    | CloseArchive(p: nat, fault: Fault)
    | CloseRevert(p: nat)
    | CloseDelete(p: nat)
    | CloseRelease(p: nat)
    | Crash(p: nat)
    | LockExpires

  function Init(): State {
    State(Data(Some(Session(Active, 0, None, [], {})), map[], 0, [], 0, []), None, map[])
  }

  function SegmentKey(sessionId: string, ms: seq<Message>): string
    requires ms != []
  {
    BatchKey(sessionId, ms[0].id, ms[|ms| - 1].id)
  }

  // ----- store operations -----

  /** The unique index on the key decides whether an insert creates or finds. */
  function Insert(store: map<string, Archive>, key: string, a: Archive): map<string, Archive> {
    if key in store then store else store[key := a]
  }

  /** `create_or_reuse_context_archive`. */
  function CreateOrReuse(cfg: Config, d: Data, version: nat, ms: seq<Message>): Data
    requires ms != []
  {
    var a := Archive(d.nextArchive, cfg.sessionId, version, ms);
    d.(store := Insert(d.store, SegmentKey(cfg.sessionId, ms), a), nextArchive := d.nextArchive + 1)
  }

  /** `message_write.lua`. */
  function Write(d: Data, m: Message): Data {
    if d.session.Some? && d.session.value.status.Active? && m.id !in d.session.value.ids then
      var ses := d.session.value;
      d.(session := Some(ses.(messages := ses.messages + [m], ids := ses.ids + {m.id})), history := d.history + [m])
    else d
  }

  function OtherArchive(cfg: Config, d: Data, a: Archive): Data {
    if a.messages == [] || a.sessionId == cfg.sessionId || !NoColon(a.sessionId) then d
    else d.(store := Insert(d.store, SegmentKey(a.sessionId, a.messages), a))
  }

  function SetStatus(d: Data, status: Status): Data
    requires d.session.Some?
  {
    d.(session := Some(d.session.value.(status := status)))
  }

  function SetPending(d: Data, pend: Pending): Data
    requires d.session.Some?
  {
    d.(session := Some(d.session.value.(pending := Some(pend))))
  }

  /** The data checks of `compression_finalize.lua`. */
  predicate CanFinalize(d: Data, t: Ticket) {
    && d.session.Some?
    && var ses := d.session.value;
    && (ses.status.Active? || ses.pending.Some?)
    && ses.version == t.version
    && ses.pending == Some(t.pending)
    && 0 < t.pending.count <= |ses.messages|
    && ses.messages[0].id == t.first
    && ses.messages[t.pending.count - 1].id == t.last
  }

  function Finalize(d: Data, t: Ticket): Data
    requires CanFinalize(d, t)
  {
    var ses, n := d.session.value, t.pending.count;
    d.(session := Some(ses.(messages := ses.messages[n..], version := ses.version + 1, pending := None)),
       trimmed := d.trimmed + n)
  }

  function Delete(d: Data, head: nat): Data
    requires d.session.Some?
  {
    var ms := d.session.value.messages;
    d.(session := None, deletedHead := if head <= |ms| then ms[..head] else ms)
  }

  /** Compare-and-delete of the lock. */
  function Released(lock: Option<nat>, p: nat): Option<nat> {
    if lock == Some(p) then None else lock
  }

  // ----- a compression round -----

  function RoundListStep(d: Data, lock: Option<nat>, proc: Proc): Effect
    requires proc.RoundReadMeta?
  {
    if d.session.None? then Effect(d, lock, None)
    else Effect(d, lock, Some(RoundReadList(proc.metaVersion, proc.found, d.session.value.version, d.session.value.messages)))
  }

  function TicketFor(proc: Proc, pend: Pending, ms: seq<Message>): Ticket
    requires proc.RoundReadList? && ms != []
  {
    Ticket(proc.metaVersion, proc.version, pend, ms[0].id, ms[|ms| - 1].id)
  }

  /** Archive the selected prefix of `k` messages, or pick up the pending archive. */
  function RoundArchiveStep(cfg: Config, d: Data, lock: Option<nat>, proc: Proc, k: nat): Effect
    requires proc.RoundReadList?
  {
    if proc.found.Some? then
      var pend := proc.found.value;
      if pend.key !in d.store || d.store[pend.key].messages == [] then Effect(d, lock, None)
      else Effect(d, lock, Some(RoundReady(TicketFor(proc, pend, d.store[pend.key].messages))))
    else if k == 0 || |proc.messages| < k then Effect(d, lock, None)
    else
      var ms := proc.messages[..k];
      var d' := CreateOrReuse(cfg, d, proc.version, ms);
      var key := SegmentKey(cfg.sessionId, ms);
      Effect(d', lock, Some(RoundReady(TicketFor(proc, Pending(key, k, d'.store[key].id), ms))))
  }

  function RoundLockStep(d: Data, lock: Option<nat>, p: nat, proc: Proc): Effect
    requires proc.RoundReady?
  {
    if lock.Some? then Effect(d, lock, None) else Effect(d, Some(p), Some(RoundLocked(proc.ticket)))
  }

  /** `pending_archive_write.lua`; a hard failure releases the lock and ends the round. */
  function RoundMarkStep(d: Data, lock: Option<nat>, p: nat, proc: Proc): Effect
    requires proc.RoundLocked?
  {
    if d.session.None? || d.session.value.status.Closing? || lock != Some(p) then Effect(d, Released(lock, p), None)
    else if d.session.value.pending.None? then
      Effect(SetPending(d, proc.ticket.pending), lock, Some(RoundMarked(proc.ticket)))
    else if d.session.value.pending.value == proc.ticket.pending then Effect(d, lock, Some(RoundMarked(proc.ticket)))
    else Effect(d, Released(lock, p), None)
  }

  /** `compression_finalize.lua`; on refusal the round ends and leaves its lock behind. */
  function RoundFinalizeStep(d: Data, lock: Option<nat>, p: nat, proc: Proc): Effect
    requires proc.RoundMarked?
  {
    if lock != Some(p) || !CanFinalize(d, proc.ticket) then Effect(d, lock, None)
    else Effect(Finalize(d, proc.ticket), None, None)
  }

  // ----- a close attempt -----

  /** `session_close_enter.lua`. */
  function CloseEnterStep(d: Data, lock: Option<nat>): Effect {
    if d.session.None? then Effect(d, lock, Some(CloseReleasing))
    else Effect(SetStatus(d, Closing), lock, Some(CloseEntered))
  }

  function CloseMetaStep(d: Data, lock: Option<nat>): Effect {
    if d.session.None? then Effect(d, lock, Some(CloseReleasing))
    else Effect(d, lock, Some(CloseReadMeta(d.session.value.version, d.session.value.pending)))
  }

  function HeadCount(pending: Option<Pending>): nat {
    if pending.Some? then pending.value.count else 0
  }

  /** Read the list and build the close plan; the pending batch needs no archive call,
      so only the suffix batches remain to be done. */
  function CloseListStep(cfg: Config, d: Data, lock: Option<nat>, proc: Proc): Effect
    requires proc.CloseReadMeta?
  {
    if d.session.None? then Effect(d, lock, Some(CloseReleasing))
    else
      var ms, head := d.session.value.messages, HeadCount(proc.found);
      if (proc.found.Some? && (head == 0 || proc.found.value.key == "")) || |ms| < head || !AllFit(ms[head..], cfg.cap) then
        Effect(d, lock, Some(CloseReverting(false)))
      else Effect(d, lock, Some(CloseArchiving(proc.metaVersion, head, Split(ms[head..], cfg.cap), false)))
  }

  /** One iteration of the archive loop. */
  function CloseArchiveStep(cfg: Config, d: Data, lock: Option<nat>, proc: Proc, fault: Fault): Effect
    requires proc.CloseArchiving?
  {
    if proc.todo == [] || proc.todo[0] == [] then Effect(d, lock, Some(proc))
    else if fault.LostRequest? then Effect(d, lock, Some(CloseReverting(proc.persisted)))
    else
      var d' := CreateOrReuse(cfg, d, proc.metaVersion, proc.todo[0]);
      if fault.LostReply? then Effect(d', lock, Some(CloseReverting(proc.persisted)))
      else if d'.store[SegmentKey(cfg.sessionId, proc.todo[0])].version != proc.metaVersion then
        Effect(d', lock, Some(CloseReleasing))
      else Effect(d', lock, Some(proc.(todo := proc.todo[1..], persisted := true)))
  }

  /** `_maybe_revert_active` and `session_close_revert_active.lua`. */
  function CloseRevertStep(d: Data, lock: Option<nat>, proc: Proc): Effect
    requires proc.CloseReverting?
  {
    if proc.persisted || d.session.None? then Effect(d, lock, Some(CloseReleasing))
    else Effect(SetStatus(d, Active), lock, Some(CloseReleasing))
  }

  /** `session_close_terminal.lua`, sent once every batch is done. */
  function CloseDeleteStep(d: Data, lock: Option<nat>, proc: Proc): Effect
    requires proc.CloseArchiving?
  {
    if proc.todo != [] then Effect(d, lock, Some(proc))
    else if d.session.None? || d.session.value.status.Active? then Effect(d, lock, Some(CloseReleasing))
    else Effect(Delete(d, proc.head), lock, Some(CloseReleasing))
  }

  // ----- all steps -----

  function ProcStep(cfg: Config, d: Data, lock: Option<nat>, p: nat, proc: Proc, a: Action): Effect {
    match a
    case RoundList(_) => if proc.RoundReadMeta? then RoundListStep(d, lock, proc) else Effect(d, lock, Some(proc))
    case RoundArchive(_, k) => if proc.RoundReadList? then RoundArchiveStep(cfg, d, lock, proc, k) else Effect(d, lock, Some(proc))
    case RoundLock(_) => if proc.RoundReady? then RoundLockStep(d, lock, p, proc) else Effect(d, lock, Some(proc))
    case RoundMark(_) => if proc.RoundLocked? then RoundMarkStep(d, lock, p, proc) else Effect(d, lock, Some(proc))
    case RoundFinalize(_) => if proc.RoundMarked? then RoundFinalizeStep(d, lock, p, proc) else Effect(d, lock, Some(proc))
    case CloseEnter(_) => if proc.CloseLocked? then CloseEnterStep(d, lock) else Effect(d, lock, Some(proc))
    case CloseMeta(_) => if proc.CloseEntered? then CloseMetaStep(d, lock) else Effect(d, lock, Some(proc))
    case CloseList(_) => if proc.CloseReadMeta? then CloseListStep(cfg, d, lock, proc) else Effect(d, lock, Some(proc))
    case CloseArchive(_, fault) => if proc.CloseArchiving? then CloseArchiveStep(cfg, d, lock, proc, fault) else Effect(d, lock, Some(proc))
    case CloseRevert(_) => if proc.CloseReverting? then CloseRevertStep(d, lock, proc) else Effect(d, lock, Some(proc))
    case CloseDelete(_) => if proc.CloseArchiving? then CloseDeleteStep(d, lock, proc) else Effect(d, lock, Some(proc))
    case CloseRelease(_) => if proc.CloseReleasing? then Effect(d, Released(lock, p), None) else Effect(d, lock, Some(proc))
    case Crash(_) => Effect(d, lock, None)
    case _ => Effect(d, lock, Some(proc))
  }

  function Commit(s: State, p: nat, e: Effect): State {
    State(e.data, e.lock, if e.proc.Some? then s.procs[p := e.proc.value] else s.procs - {p})
  }

  /** One step. An action that is not enabled changes nothing. */
  function Apply(cfg: Config, s: State, a: Action): State {
    match a
    case WriteMessage(m) => s.(data := Write(s.data, m))
    case OtherSessionArchive(o) => s.(data := OtherArchive(cfg, s.data, o))
    case LockExpires => if s.lock.Some? && s.lock.value !in s.procs then s.(lock := None) else s
    case RoundStart(p) =>
      if p in s.procs || s.lock == Some(p) || s.data.session.None? then s
      else s.(procs := s.procs[p := RoundReadMeta(s.data.session.value.version, s.data.session.value.pending)])
    case CloseStart(p) =>
      if p in s.procs || s.lock.Some? then s
      else s.(lock := Some(p), procs := s.procs[p := CloseLocked])
    case _ =>
      if a.p in s.procs then Commit(s, a.p, ProcStep(cfg, s.data, s.lock, a.p, s.procs[a.p], a)) else s
  }

  /** The state after a run of actions from a new session. */
  function Run(cfg: Config, acts: seq<Action>): State {
    RunFrom(cfg, Init(), acts)
  }

  function RunFrom(cfg: Config, s: State, acts: seq<Action>): State
    decreases |acts|
  {
    if acts == [] then s else Apply(cfg, RunFrom(cfg, s, acts[..|acts| - 1]), acts[|acts| - 1])
  }

  /** Some archive of this session holds the message. */
  ghost predicate Stored(cfg: Config, store: map<string, Archive>, m: Message) {
    exists k :: k in store && store[k].sessionId == cfg.sessionId && m in store[k].messages
  }

  /** Every message ever accepted is in an archive or still live. */
  ghost predicate NothingLost(cfg: Config, d: Data) {
    forall m :: m in d.history ==> Stored(cfg, d.store, m) || (d.session.Some? && m in d.session.value.messages)
  }
}
