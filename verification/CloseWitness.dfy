/** Runs that show where the close protocol fails.

    Each one is the boundary of a theorem of `CloseSafety`: a stale pending write, a version
    clash that no later attempt gets past, and ids that contain the key separator. They are
    built step by step, each lemma extending the run of the one before. */
module CloseWitness {
  import opened Options
  import opened CloseSplit
  import opened ArchiveKeys
  import opened CloseProtocol
  import opened CloseInvariant
  import opened CloseSafety
  import opened CloseSteps
  import opened CloseSession

  const CFG := Config("s", 1)
  const M1 := Message("a", "first", 1)
  const M2 := Message("b", "second", 1)
  const LIST: seq<Message> := [M1, M2]
  const IDS: set<string> := {"a", "b"}

  function KeyOf(m: Message): string {
    SegmentKey(CFG.sessionId, [m])
  }

  lemma Do(acts: seq<Action>, a: Action) returns (acts': seq<Action>)
    requires AllClean(acts) && Clean(a)
    ensures AllClean(acts') && Run(CFG, acts') == Apply(CFG, Run(CFG, acts), a)
  {
    RunExtends(CFG, acts, a);
    acts' := acts + [a];
  }

  function TwoMessages(): Data {
    Data(Some(Session(Active, 0, None, LIST, IDS)), map[], 0, LIST, 0, [])
  }

  lemma WriteTwo() returns (acts: seq<Action>)
    ensures AllClean(acts) && Run(CFG, acts) == State(TwoMessages(), None, map[])
  {
    acts := Do([], WriteMessage(M1));
    assert [] + [M1] == [M1] && {} + {"a"} == {"a"};
    assert Run(CFG, acts).data == Data(Some(Session(Active, 0, None, [M1], {"a"})), map[], 0, [M1], 0, []);
    acts := Do(acts, WriteMessage(M2));
    assert [M1] + [M2] == LIST && {"a"} + {"b"} == IDS;
  }

  // ----- a stale pending write loses a message -----

  function Ticket1(): Ticket {
    Ticket(0, 0, Pending(KeyOf(M1), 1, 0), "a", "a")
  }

  /** Both rounds read the list before either holds the lock, and archive its head. */
  lemma TwoRoundsRead() returns (acts: seq<Action>)
    ensures AllClean(acts)
    ensures Run(CFG, acts) == State(TwoMessages(), None, map[1 := RoundReadList(0, None, 0, LIST), 2 := RoundReadList(0, None, 0, LIST)])
  {
    acts := WriteTwo();
    acts := Do(acts, RoundStart(1));
    acts := Do(acts, RoundList(1));
    assert Run(CFG, acts).procs == map[1 := RoundReadList(0, None, 0, LIST)];
    acts := Do(acts, RoundStart(2));
    acts := Do(acts, RoundList(2));
    assert Run(CFG, acts).procs == map[1 := RoundReadList(0, None, 0, LIST), 2 := RoundReadList(0, None, 0, LIST)];
  }

  function HeadArchived(): map<string, Archive> {
    map[KeyOf(M1) := Archive(0, CFG.sessionId, 0, [M1])]
  }

  lemma TwoRoundsArchive() returns (acts: seq<Action>)
    ensures AllClean(acts)
    ensures Run(CFG, acts) == State(TwoMessages().(store := HeadArchived(), nextArchive := 2), None,
                                    map[1 := RoundReady(Ticket1()), 2 := RoundReady(Ticket1())])
  {
    acts := TwoRoundsRead();
    assert LIST[..1] == [M1];
    acts := Do(acts, RoundArchive(1, 1));
    assert Run(CFG, acts) == State(TwoMessages().(store := HeadArchived(), nextArchive := 1), None,
                                   map[1 := RoundReady(Ticket1()), 2 := RoundReadList(0, None, 0, LIST)]);
    acts := Do(acts, RoundArchive(2, 1));
    assert Run(CFG, acts).procs == map[1 := RoundReady(Ticket1()), 2 := RoundReady(Ticket1())];
  }

  function OneTrimmed(pending: Option<Pending>, status: Status): Data {
    Data(Some(Session(status, 1, pending, [M2], IDS)), HeadArchived(), 2, LIST, 1, [])
  }

  lemma SecondRoundFinishes() returns (acts: seq<Action>)
    ensures AllClean(acts)
    ensures Run(CFG, acts) == State(OneTrimmed(None, Active), None, map[1 := RoundReady(Ticket1())])
  {
    acts := TwoRoundsArchive();
    acts := Do(acts, RoundLock(2));
    acts := Do(acts, RoundMark(2));
    assert Run(CFG, acts).procs[2] == RoundMarked(Ticket1());
    acts := Do(acts, RoundFinalize(2));
    assert LIST[1..] == [M2];
    assert Run(CFG, acts).procs == map[1 := RoundReady(Ticket1())];
  }

  function StaleHead(status: Status): Data {
    OneTrimmed(Some(Ticket1().pending), status)
  }

  /** The first round's pending write is accepted although the list has moved on. */
  lemma FirstRoundMarksStale() returns (acts: seq<Action>)
    ensures AllClean(acts)
    ensures Run(CFG, acts) == State(StaleHead(Active), Some(1), map[1 := RoundMarked(Ticket1())])
  {
    acts := SecondRoundFinishes();
    acts := Do(acts, RoundLock(1));
    assert Run(CFG, acts) == State(OneTrimmed(None, Active), Some(1), map[1 := RoundLocked(Ticket1())]);
    acts := Do(acts, RoundMark(1));
  }

  lemma FirstRoundGivesUp() returns (acts: seq<Action>)
    ensures AllClean(acts) && Run(CFG, acts) == State(StaleHead(Active), None, map[])
  {
    acts := FirstRoundMarksStale();
    acts := Do(acts, RoundFinalize(1));
    assert Run(CFG, acts).procs == map[];
    acts := Do(acts, LockExpires);
  }

  lemma CloseEnters() returns (acts: seq<Action>)
    ensures AllClean(acts) && Run(CFG, acts) == State(StaleHead(Closing), Some(3), map[3 := CloseEntered])
  {
    acts := FirstRoundGivesUp();
    acts := Do(acts, CloseStart(3));
    assert Run(CFG, acts) == State(StaleHead(Active), Some(3), map[3 := CloseLocked]);
    acts := Do(acts, CloseEnter(3));
  }

  lemma CloseTakesStaleHead() returns (acts: seq<Action>)
    ensures AllClean(acts)
    ensures Run(CFG, acts) == State(StaleHead(Closing), Some(3), map[3 := CloseArchiving(1, 1, [], false)])
  {
    acts := CloseEnters();
    acts := Do(acts, CloseMeta(3));
    assert Run(CFG, acts) == State(StaleHead(Closing), Some(3), map[3 := CloseReadMeta(1, Some(Ticket1().pending))]);
    acts := Do(acts, CloseList(3));
    assert [M2][1..] == [];
  }

  lemma SecondMessageIsNotStored()
    ensures !Stored(CFG, HeadArchived(), M2)
  {
    assert M2.id != M1.id;
  }

  /** A run, with clean ids and no store failure at all, after which a message is gone:
      the pending-archive script does not compare the compression version. */
  lemma StalePendingWriteLosesMessages() returns (acts: seq<Action>)
    ensures AllClean(acts) && !NothingLost(CFG, Run(CFG, acts).data)
  {
    acts := CloseTakesStaleHead();
    acts := Do(acts, CloseDelete(3));
    var d := Run(CFG, acts).data;
    assert d == Delete(StaleHead(Closing), 1);
    SecondMessageIsNotStored();
    assert d.history[1] == M2;
  }

  // ----- a version clash that no fault-free attempt can get past -----

  const BATCHES: seq<seq<Message>> := [[M1], [M2]]

  lemma SplitOfList()
    ensures Split(LIST, 1) == BATCHES && LIST[0..] == LIST
  {
    assert Fill(LIST[1..], 1) == 1 && Fill(LIST, 1) == 1;
    assert LIST[..1] == [M1] && LIST[1..] == [M2];
    assert [M2][1..] == [] && [M2][..1] == [M2];
    assert Split([M2], 1) == [[M2]] + Split([M2][1..], 1);
  }

  lemma AttemptStarts(before: seq<Action>, d: Data, p: nat) returns (acts: seq<Action>)
    requires AllClean(before) && Run(CFG, before) == State(d, None, map[])
    requires d.session == Some(Session(Active, 0, None, LIST, IDS))
    ensures AllClean(acts)
    ensures Run(CFG, acts) == State(SetStatus(d, Closing), Some(p), map[p := CloseArchiving(0, 0, BATCHES, false)])
  {
    acts := Do(before, CloseStart(p));
    acts := Do(acts, CloseEnter(p));
    assert Run(CFG, acts).procs == map[p := CloseEntered];
    acts := Do(acts, CloseMeta(p));
    assert Run(CFG, acts).procs == map[p := CloseReadMeta(0, None)];
    SplitOfList();
    acts := Do(acts, CloseList(p));
    assert Run(CFG, acts).procs == map[p := CloseArchiving(0, 0, BATCHES, false)];
  }

  function BothArchived(): map<string, Archive> {
    map[KeyOf(M1) := Archive(0, CFG.sessionId, 0, [M1]), KeyOf(M2) := Archive(1, CFG.sessionId, 0, [M2])]
  }

  lemma KeysDiffer()
    ensures KeyOf(M1) != KeyOf(M2)
  {
    assert KeyOf(M1)[2] == 'a' && KeyOf(M2)[2] == 'b';
  }

  function Archived(status: Status): Data {
    TwoMessages().(session := Some(Session(status, 0, None, LIST, IDS)), store := BothArchived(), nextArchive := 2)
  }

  lemma FirstBatchArchived() returns (acts: seq<Action>)
    ensures AllClean(acts)
    ensures Run(CFG, acts) == State(SetStatus(TwoMessages(), Closing).(store := HeadArchived(), nextArchive := 1), Some(4),
                                    map[4 := CloseArchiving(0, 0, BATCHES[1..], true)])
  {
    acts := WriteTwo();
    acts := AttemptStarts(acts, TwoMessages(), 4);
    acts := Do(acts, CloseArchive(4, NoFault));
    assert Run(CFG, acts).data.store == HeadArchived();
    assert Run(CFG, acts).procs == map[4 := CloseArchiving(0, 0, BATCHES[1..], true)];
  }

  lemma SecondBatchArchived() returns (acts: seq<Action>)
    ensures AllClean(acts) && Run(CFG, acts) == State(Archived(Closing), Some(4), map[4 := CloseArchiving(0, 0, [], true)])
  {
    acts := FirstBatchArchived();
    KeysDiffer();
    acts := Do(acts, CloseArchive(4, NoFault));
    assert Run(CFG, acts).data.store == BothArchived();
    assert BATCHES[1..][1..] == [];
    assert Run(CFG, acts).procs == map[4 := CloseArchiving(0, 0, [], true)];
  }

  /** The first attempt archives both batches and crashes. */
  lemma FirstAttemptCrashes() returns (acts: seq<Action>)
    ensures AllClean(acts) && Run(CFG, acts) == State(Archived(Closing), None, map[])
  {
    acts := SecondBatchArchived();
    acts := Do(acts, Crash(4));
    assert Run(CFG, acts).procs == map[];
    acts := Do(acts, LockExpires);
  }

  /** The second attempt meets a Mongo failure first and makes the session active again:
      its progress flags know nothing of the archives of the first. */
  lemma SecondAttemptReverts() returns (acts: seq<Action>)
    ensures AllClean(acts) && Run(CFG, acts) == State(Archived(Active), None, map[])
  {
    acts := SecondAttemptFails();
    acts := Do(acts, CloseRevert(5));
    assert Run(CFG, acts) == State(Archived(Active), Some(5), map[5 := CloseReleasing]);
    acts := Do(acts, CloseRelease(5));
    assert Run(CFG, acts).procs == map[];
  }

  lemma SecondAttemptFails() returns (acts: seq<Action>)
    ensures AllClean(acts) && Run(CFG, acts) == State(Archived(Closing), Some(5), map[5 := CloseReverting(false)])
  {
    acts := FirstAttemptCrashes();
    acts := Do(acts, CloseStart(5));
    acts := Do(acts, CloseEnter(5));
    assert Run(CFG, acts) == State(Archived(Closing), Some(5), map[5 := CloseEntered]);
    acts := Do(acts, CloseMeta(5));
    assert Run(CFG, acts).procs == map[5 := CloseReadMeta(0, None)];
    acts := SecondAttemptPlans(acts);
    acts := Do(acts, CloseArchive(5, LostRequest));
    assert Run(CFG, acts).procs == map[5 := CloseReverting(false)];
  }

  lemma SecondAttemptPlans(before: seq<Action>) returns (acts: seq<Action>)
    requires AllClean(before) && Run(CFG, before) == State(Archived(Closing), Some(5), map[5 := CloseReadMeta(0, None)])
    ensures AllClean(acts) && Run(CFG, acts) == State(Archived(Closing), Some(5), map[5 := CloseArchiving(0, 0, BATCHES, false)])
  {
    SplitOfList();
    acts := Do(before, CloseList(5));
    assert Run(CFG, acts).procs == map[5 := CloseArchiving(0, 0, BATCHES, false)];
  }

  lemma RoundTakesHead() returns (acts: seq<Action>)
    ensures AllClean(acts)
    ensures Run(CFG, acts) == State(Archived(Active).(nextArchive := 3), None, map[6 := RoundReady(Ticket1())])
  {
    acts := SecondAttemptReverts();
    acts := Do(acts, RoundStart(6));
    acts := Do(acts, RoundList(6));
    assert Run(CFG, acts) == State(Archived(Active), None, map[6 := RoundReadList(0, None, 0, LIST)]);
    KeysDiffer();
    assert LIST[..1] == [M1];
    acts := Do(acts, RoundArchive(6, 1));
    assert Run(CFG, acts).procs == map[6 := RoundReady(Ticket1())];
  }

  lemma RoundMarksHead() returns (acts: seq<Action>)
    ensures AllClean(acts)
    ensures Run(CFG, acts) == State(SetPending(Archived(Active).(nextArchive := 3), Ticket1().pending), Some(6), map[6 := RoundMarked(Ticket1())])
  {
    acts := RoundTakesHead();
    acts := Do(acts, RoundLock(6));
    assert Run(CFG, acts).procs == map[6 := RoundLocked(Ticket1())];
    acts := Do(acts, RoundMark(6));
    assert Run(CFG, acts).procs == map[6 := RoundMarked(Ticket1())];
  }

  /** A run to an idle, active session that plans fine but that no fault-free attempt can
      close: compression has moved the version past the archive its batch will find. */
  lemma RevertAfterArchiveBlocksClose() returns (acts: seq<Action>)
    ensures AllClean(acts)
    ensures var s := Run(CFG, acts);
            && s.procs == map[] && s.lock.None? && s.data.session.Some?
            && s.data.session.value.status.Active? && Plannable(CFG, s.data.session.value)
            && !Closable(CFG, s.data)
  {
    acts := RoundMarksHead();
    acts := Do(acts, RoundFinalize(6));
    assert LIST[1..] == [M2];
    var s := Run(CFG, acts);
    assert s.procs == map[];
    assert s.data.session == Some(Session(Active, 1, None, [M2], IDS)) && s.data.store == BothArchived();
    ArchivedAtOldVersion(s.data);
  }

  lemma ArchivedAtOldVersion(d: Data)
    requires d.session == Some(Session(Active, 1, None, [M2], IDS)) && d.store == BothArchived()
    ensures Plannable(CFG, d.session.value) && !Closable(CFG, d)
  {
    SplitOfList();
    var todo := Split([M2][0..], 1);
    assert [M2][0..] == [M2] && todo[0] == [M2];
    assert SegmentKey(CFG.sessionId, todo[0]) in d.store;
    assert ClashAt(CFG, d.store, 1, todo, 0);
  }

  /** Such a clash outlasts every fault-free attempt: the version cannot change, and the
      archive stays. */
  lemma ClashPersists(cfg: Config, d: Data, d': Data, r: CloseResult)
    requires d.session.Some? && Plannable(cfg, d.session.value) && !Closable(cfg, d)
    requires d'.session == FailedSession(d.session, r) && StoreGrows(d.store, d'.store)
    ensures d'.session.Some? && Plannable(cfg, d'.session.value) && !Closable(cfg, d')
  {
    var ses := d.session.value;
    var todo := Split(ses.messages[HeadCount(ses.pending)..], cfg.cap);
    var i :| 0 <= i < |todo| && ClashAt(cfg, d.store, ses.version, todo, i);
    assert ClashAt(cfg, d'.store, ses.version, todo, i);
  }

  // ----- ids with a colon -----

  const C1 := Message("x:y", "", 1)
  const C2 := Message("z", "", 1)
  const C3 := Message("x", "", 1)
  const C4 := Message("y:z", "", 1)

  /** Two different batches of one session under one key: the second is taken as already
      archived, and its messages are in no archive. The id check of `AllClean` is needed. */
  lemma CollidingBatchIsNotStored(d: Data, version: nat)
    requires d.store == map[] && NoColon(CFG.sessionId)
    ensures var first, second := [C1, C2], [C3, C4];
            var d' := CreateOrReuse(CFG, CreateOrReuse(CFG, d, version, first), version, second);
            && SegmentKey(CFG.sessionId, first) == SegmentKey(CFG.sessionId, second)
            && d'.store[SegmentKey(CFG.sessionId, second)].messages == first
            && !Stored(CFG, d'.store, C3) && !Stored(CFG, d'.store, C4)
  {
    var first, second := [C1, C2], [C3, C4];
    KeyCollisions(CFG.sessionId, "x:y", "z", "x", "y:z");
    assert Overlaps("x:y", "z", "x", "y:z");
    assert C3.id != C1.id && C3.id != C2.id && C4.id != C1.id && C4.id != C2.id;
  }
}
