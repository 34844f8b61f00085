/** The extraction task document of one archive, and the consumers and admin actions that
    change it, interleaved one database call at a time. */
module ExtractionTask {
  import opened Options

  datatype Status = Pending | Processing | Completed | Failed

  /** The durable extraction result is opaque here. */
  type Result = string

  datatype Task = Task(
    status: Status, attempts: nat, result: Option<Result>, lastError: Option<string>, completedTime: Option<int>)

  const NEW_TASK := Task(Pending, 0, None, None, None)

  predicate Terminal(t: Task) { t.status.Completed? || t.status.Failed? }

  // ----- the conditional updates of the repository -----

  datatype Update =
    | UpsertPending
    | ToProcessing
    | BumpAttempt
    | Complete(now: int)
    | SetResult(result: Result)
    | Fail(error: string)
    | Reset(clear: bool)
    | AdminFail(error: string)

  /** The filter of the update matches the document. */
  predicate Applies(doc: Option<Task>, u: Update) {
    if u.UpsertPending? then doc.None?
    else doc.Some? && match u
      case UpsertPending => false
      case ToProcessing => doc.value.status.Pending?
      case BumpAttempt => doc.value.status.Processing?
      case Complete(_) => doc.value.status.Processing?
      case SetResult(_) => doc.value.status.Processing?
      case Fail(_) => doc.value.status.Processing?
      case Reset(_) => doc.value.status.Failed?
      case AdminFail(_) => doc.value.status.Pending? || doc.value.status.Failed?
  }

  function Updated(doc: Option<Task>, u: Update): Option<Task> {
    if !Applies(doc, u) then doc
    else match u
      case UpsertPending => Some(NEW_TASK)
      case ToProcessing => Some(doc.value.(status := Processing, attempts := doc.value.attempts + 1, lastError := None))
      case BumpAttempt => Some(doc.value.(attempts := doc.value.attempts + 1))
      case Complete(now) => Some(doc.value.(status := Completed, lastError := None, completedTime := Some(now)))
      case SetResult(r) => Some(doc.value.(result := Some(r)))
      case Fail(e) => Some(doc.value.(status := Failed, lastError := Some(e)))
      case Reset(clear) =>
        Some(doc.value.(status := Pending, lastError := None, result := if clear then None else doc.value.result))
      case AdminFail(e) => Some(doc.value.(status := Failed, lastError := Some(e)))
  }

  /** The stored document, updated in place. */
  class TaskStore {
    var doc: Option<Task>

    constructor ()
      ensures doc == None
    {
      doc := None;
    }

    method UpsertPendingTask() returns (task: Task)
      modifies this
      ensures doc == Updated(old(doc), UpsertPending) && doc == Some(task)
    {
      if doc.None? {
        doc := Some(NEW_TASK);
      }
      task := doc.value;
    }

    /** `find_one_and_update`: the document after the update, or nothing if the filter
        does not match. */
    method FindOneAndUpdate(u: Update) returns (after: Option<Task>)
      requires !u.UpsertPending?
      modifies this
      ensures doc == Updated(old(doc), u)
      ensures after == if Applies(old(doc), u) then doc else None
      // field by field
      ensures after.Some? <==> old(doc).Some? && (match old(doc).value.status
                                                   case Pending => u.ToProcessing? || u.AdminFail?
                                                   case Processing => u.BumpAttempt? || u.Complete? || u.SetResult? || u.Fail?
                                                   case Failed => u.Reset? || u.AdminFail?
                                                   case Completed => false)
      ensures after.None? ==> doc == old(doc)
      ensures after.Some? ==>
                (var t, before := after.value, old(doc).value;
                 && t.status == (if u.ToProcessing? then Processing else if u.Complete? then Completed
                                 else if u.Fail? || u.AdminFail? then Failed else if u.Reset? then Pending else before.status)
                 && t.attempts == before.attempts + (if u.ToProcessing? || u.BumpAttempt? then 1 else 0)
                 && t.result == (if u.SetResult? then Some(u.result) else if u == Reset(true) then None else before.result)
                 && t.lastError == (if u.Fail? || u.AdminFail? then Some(u.error)
                                    else if u.BumpAttempt? || u.SetResult? then before.lastError else None)
                 && t.completedTime == (if u.Complete? then Some(u.now) else before.completedTime))
    {
      if doc.None? {
        return None;
      }
      var t := doc.value;
      match u {
        case ToProcessing =>
          if !t.status.Pending? { return None; }
          doc := Some(t.(status := Processing, lastError := None, attempts := t.attempts + 1));
        case BumpAttempt =>
          if !t.status.Processing? { return None; }
          doc := Some(t.(attempts := t.attempts + 1));
        case Complete(now) =>
          if !t.status.Processing? { return None; }
          doc := Some(t.(status := Completed, lastError := None, completedTime := Some(now)));
        case SetResult(r) =>
          if !t.status.Processing? { return None; }
          doc := Some(t.(result := Some(r)));
        case Fail(e) =>
          if !t.status.Processing? { return None; }
          doc := Some(t.(status := Failed, lastError := Some(e)));
        case Reset(clear) =>
          if !t.status.Failed? { return None; }
          t := t.(status := Pending, lastError := None);
          if clear {
            t := t.(result := None);
          }
          doc := Some(t);
        case AdminFail(e) =>
          if !t.status.Pending? && !t.status.Failed? { return None; }
          doc := Some(t.(status := Failed, lastError := Some(e)));
      }
      after := doc;
    }

    /** `process_archive_created_event` when nothing else touches the document: the offset
        is committed exactly when the task has ended, and an aborted attempt leaves it
        processing with one more attempt counted. */
    method ProcessArchiveCreatedEvent(decision: Decision, now: int) returns (commit: bool)
      modifies this
      ensures doc.Some? && (commit <==> Terminal(doc.value))
      ensures old(doc).Some? && Terminal(old(doc).value) ==> doc == old(doc)
      ensures !(old(doc).Some? && Terminal(old(doc).value)) ==>
                (var before := if old(doc).None? then NEW_TASK else old(doc).value;
                 && doc.value.attempts == before.attempts + 1 && doc.value.result == before.result
                 && doc.value.status == match decision case Succeeded => Completed case FailedWith(_) => Failed case Aborted => Processing)
      // the procedure is the consumer of the step machine, running alone
      ensures var e := Alone(old(doc), Arrived, decision, now, 7);
              doc == e.doc && (commit <==> e.proc.Some?) && (e.proc.Some? ==> e.proc.value == Committing(doc.value))
    {
      AloneEnds(doc, decision, now);
      var task := UpsertPendingTask();
      if Terminal(task) {
        return true;
      }
      var after := FindOneAndUpdate(if task.status.Pending? then ToProcessing else BumpAttempt);
      match decision {
        case Aborted =>
          return false;
        case Succeeded =>
          after := FindOneAndUpdate(Complete(now));
          return true;
        case FailedWith(e) =>
          after := FindOneAndUpdate(Fail(e));
          return true;
      }
    }
  }

  /** How a pipeline run ends. */
  datatype Decision = Succeeded | FailedWith(error: string) | Aborted

  // ----- processes -----

  /** Where a process stands; snapshots are documents it has read. */
  datatype Proc =
    // consumer of one record
    | Arrived
    | Inserted
    | Loaded(task: Task)
    | Raced(fromPending: bool)
    | Rebump(task: Task)
    | Running(task: Task)
    | Checking(decision: Decision)
    | Writing(decision: Decision)
    | Committing(seen: Task)
    // admin retry or rebuild
    | AdminArrived(rebuild: bool)
    | AdminLoaded(rebuild: bool)
    | AdminReset
    | AdminFailing

  predicate IsConsumer(p: Proc) {
    !p.AdminArrived? && !p.AdminLoaded? && !p.AdminReset? && !p.AdminFailing?
  }

  const RETRY_CODES := {"llm_timeout", "llm_request_failed", "llm_invalid_output", "entity_alignment_failed",
                        "graph_query_failed", "graph_write_failed", "retrieval_index_write_failed", "kafka_publish_failed"}
  const REBUILD_CODES := {"reconciliation_plan_conflict"}

  /** What the environment decides for a process's next call. */
  datatype Choice =
    | Go
    | Extract(result: Result)
    | SyncComplete(now: int)
    | SyncFail(error: string)
    | Decide(decision: Decision)
    | Publish(ok: bool)

  /** The document and the process after a move; no process when it has ended. */
  datatype Effect = Effect(doc: Option<Task>, proc: Option<Proc>)

  function Stay(doc: Option<Task>, p: Proc): Effect { Effect(doc, Some(p)) }

  function Advance(doc: Option<Task>, p: Proc, m: Choice, now: int): Effect {
    match p
    case Arrived => Effect(Updated(doc, UpsertPending), Some(Inserted))
    case Inserted => if doc.None? then Effect(doc, None) else Effect(doc, Some(Loaded(doc.value)))
    case Loaded(task) => LoadedMove(doc, task)
    case Raced(fromPending) => RacedMove(doc, fromPending)
    case Rebump(task) =>
      var after := Updated(doc, BumpAttempt);
      Effect(after, Some(Running(if Applies(doc, BumpAttempt) then after.value else task)))
    case Running(task) => RunningMove(doc, task, m)
    case Checking(decision) => CheckingMove(doc, decision)
    case Writing(decision) => WritingMove(doc, decision, now)
    case Committing(_) => Effect(doc, None)
    case AdminArrived(rebuild) =>
      if doc.Some? && doc.value.status.Failed? && doc.value.lastError.Some?
         && doc.value.lastError.value in (if rebuild then REBUILD_CODES else RETRY_CODES)
      then Effect(doc, Some(AdminLoaded(rebuild)))
      else Effect(doc, None)
    case AdminLoaded(rebuild) =>
      if Applies(doc, Reset(rebuild)) then Effect(Updated(doc, Reset(rebuild)), Some(AdminReset)) else Effect(doc, None)
    case AdminReset => if m.Publish? && m.ok then Effect(doc, None) else Effect(doc, Some(AdminFailing))
    case AdminFailing => Effect(Updated(doc, AdminFail("kafka_publish_failed")), None)
  }

  /** The branch on the status that was read. */
  function LoadedMove(doc: Option<Task>, task: Task): Effect {
    if Terminal(task) then Effect(doc, Some(Committing(task)))
    else
      var u := if task.status.Pending? then ToProcessing else BumpAttempt;
      var after := Updated(doc, u);
      Effect(after, Some(if Applies(doc, u) then Running(after.value) else Raced(task.status.Pending?)))
  }

  /** The reload after an update that did not apply. */
  function RacedMove(doc: Option<Task>, fromPending: bool): Effect {
    if doc.None? then Effect(doc, None)
    else if Terminal(doc.value) then Effect(doc, Some(Committing(doc.value)))
    else if !fromPending then Effect(doc, Some(Running(doc.value)))
    else if doc.value.status.Processing? then Effect(doc, Some(Rebump(doc.value)))
    else Effect(doc, None)
  }

  /** One call of the pipeline: a new extraction result is stored only if the task was
      loaded without one; index sync may end the task itself; finally a decision. */
  function RunningMove(doc: Option<Task>, task: Task, m: Choice): Effect {
    match m
    case Extract(r) =>
      if task.result.Some? then Stay(doc, Running(task))
      else if Applies(doc, SetResult(r)) then Effect(Updated(doc, SetResult(r)), Some(Running(task.(result := Some(r)))))
      else Effect(doc, None)
    case SyncComplete(now) => Effect(Updated(doc, Complete(now)), Some(Running(task)))
    case SyncFail(e) => Effect(Updated(doc, Fail(e)), Some(Running(task)))
    case Decide(d) => if d.Aborted? then Effect(doc, None) else Effect(doc, Some(Checking(d)))
    case _ => Stay(doc, Running(task))
  }

  /** The reload before the terminal write. */
  function CheckingMove(doc: Option<Task>, d: Decision): Effect {
    if doc.Some? && ((d.Succeeded? && doc.value.status.Completed?) || (d.FailedWith? && doc.value.status.Failed?))
    then Effect(doc, Some(Committing(doc.value)))
    else Effect(doc, Some(Writing(d)))
  }

  function WritingMove(doc: Option<Task>, d: Decision, now: int): Effect {
    var u := if d.FailedWith? then Fail(d.error) else Complete(now);
    if Applies(doc, u) then Effect(Updated(doc, u), Some(Committing(Updated(doc, u).value))) else Effect(doc, None)
  }

  datatype State = State(doc: Option<Task>, procs: map<nat, Proc>)

  const START := State(None, map[])

  datatype Step =
    | Deliver(p: nat)
    | AdminAction(p: nat, rebuild: bool)
    | Move(p: nat, choice: Choice, now: int)
    | Crash(p: nat)

  function Apply(s: State, a: Step): State {
    match a
    case Deliver(p) => if p in s.procs then s else s.(procs := s.procs[p := Arrived])
    case AdminAction(p, rebuild) => if p in s.procs then s else s.(procs := s.procs[p := AdminArrived(rebuild)])
    case Move(p, choice, now) =>
      if p !in s.procs then s
      else
        var e := Advance(s.doc, s.procs[p], choice, now);
        State(e.doc, if e.proc.Some? then s.procs[p := e.proc.value] else s.procs - {p})
    case Crash(p) => s.(procs := s.procs - {p})
  }

  ghost predicate Next(s: State, a: Step, t: State) { t == Apply(s, a) }

  ghost predicate Run(states: seq<State>, steps: seq<Step>) {
    && |states| == |steps| + 1 && states[0] == START
    && forall i :: 0 <= i < |steps| ==> Next(states[i], steps[i], states[i + 1])
  }

  // ----- one consumer alone -----

  /** Up to `n` moves of a process that nothing interferes with, until it ends or is about
      to commit. */
  function Alone(doc: Option<Task>, p: Proc, d: Decision, now: int, n: nat): Effect
    decreases n
  {
    if n == 0 || p.Committing? then Effect(doc, Some(p))
    else
      var e := Advance(doc, p, Decide(d), now);
      if e.proc.None? then e else Alone(e.doc, e.proc.value, d, now, n - 1)
  }

  lemma AloneEnds(doc: Option<Task>, d: Decision, now: int)
    ensures var task := Updated(doc, UpsertPending).value;
            Alone(doc, Arrived, d, now, 7) ==
            if Terminal(task) then Effect(Some(task), Some(Committing(task)))
            else
              var begun := Updated(Some(task), if task.status.Pending? then ToProcessing else BumpAttempt);
              if d.Aborted? then Effect(begun, None)
              else
                var ended := Updated(begun, if d.FailedWith? then Fail(d.error) else Complete(now));
                Effect(ended, Some(Committing(ended.value)))
  {
    var inserted := Updated(doc, UpsertPending);
    var task := inserted.value;
    assert Alone(inserted, Inserted, d, now, 6) == Alone(inserted, Loaded(task), d, now, 5);
    if !Terminal(task) {
      var begun := Updated(inserted, if task.status.Pending? then ToProcessing else BumpAttempt);
      assert Alone(inserted, Loaded(task), d, now, 5) == Alone(begun, Running(begun.value), d, now, 4);
      if !d.Aborted? {
        assert Alone(begun, Running(begun.value), d, now, 4) == Alone(begun, Checking(d), d, now, 3);
        assert Alone(begun, Checking(d), d, now, 3) == Alone(begun, Writing(d), d, now, 2);
        var ended := Updated(begun, if d.FailedWith? then Fail(d.error) else Complete(now));
        assert Alone(begun, Writing(d), d, now, 2) == Alone(ended, Committing(ended.value), d, now, 1);
      }
    }
  }

  // ----- one consumer among others -----

  /** What a consumer makes of the document at each of its calls, the task it hands to the
      pipeline, and where it ends. */
  datatype Course = Course(written: seq<Option<Task>>, ran: Option<Task>, end: Option<Proc>)

  /** Up to `n` moves from call `i` on, `docs(i)` being the document when call `i` is made,
      whatever others have done to it. */
  function CourseFrom(docs: nat -> Option<Task>, i: nat, p: Proc, d: Decision, now: int, n: nat): Course
    decreases n
  {
    if n == 0 || p.Committing? then Course([], None, Some(p))
    else
      var e := Advance(docs(i), p, Decide(d), now);
      var rest := if e.proc.None? then Course([], None, None) else CourseFrom(docs, i + 1, e.proc.value, d, now, n - 1);
      Course([e.doc] + rest.written, if p.Running? then Some(p.task) else rest.ran, rest.end)
  }

  /** One move, then the course from where it leads. */
  function Then(doc: Option<Task>, rest: Course): Course { rest.(written := [doc] + rest.written) }

  lemma CourseMoves(docs: nat -> Option<Task>, i: nat, p: Proc, d: Decision, now: int, n: nat)
    requires 0 < n && !p.Committing?
    ensures var e := Advance(docs(i), p, Decide(d), now);
            var rest := if e.proc.None? then Course([], None, None)
                        else if e.proc.value.Committing? then Course([], None, e.proc)
                        else CourseFrom(docs, i + 1, e.proc.value, d, now, n - 1);
            CourseFrom(docs, i, p, d, now, n) == Then(e.doc, if p.Running? then rest.(ran := Some(p.task)) else rest)
  {
  }

  /** `process_archive_created_event` with other consumers and admin actions between its
      calls: the course of the step machine. */
  method ProcessAmongOthers(docs: nat -> Option<Task>, d: Decision, now: int) returns (r: Course)
    ensures r == CourseFrom(docs, 0, Arrived, d, now, 8)
  {
    CourseMoves(docs, 0, Arrived, d, now, 8);
    CourseMoves(docs, 1, Inserted, d, now, 7);
    var inserted := if docs(0) == None then Some(Task(Pending, 0, None, None, None)) else docs(0);
    var read := docs(1);
    if read == None {
      return Then(inserted, Course([read], None, None));
    }
    var rest := BranchOnStatus(docs, read.value, d, now);
    r := Then(inserted, Then(read, rest));
  }

  method BranchOnStatus(docs: nat -> Option<Task>, task: Task, d: Decision, now: int) returns (r: Course)
    ensures r == CourseFrom(docs, 2, Loaded(task), d, now, 6)
  {
    CourseMoves(docs, 2, Loaded(task), d, now, 6);
    var doc := docs(2);
    if task.status == Completed || task.status == Failed {
      return Course([doc], None, Some(Committing(task)));
    }
    var begun := BeginAttempt(doc, task);
    var rest;
    if begun != None {
      rest := EndAttempt(docs, 3, begun.value, d, now, 5);
      return Then(begun, rest);
    }
    rest := AfterRace(docs, task.status == Pending, d, now);
    r := Then(doc, rest);
  }

  /** `mark_processing_from_pending` or `bump_processing_attempt`, by the status that was read. */
  method BeginAttempt(doc: Option<Task>, task: Task) returns (begun: Option<Task>)
    requires task.status == Pending || task.status == Processing
    ensures LoadedMove(doc, task) ==
            if begun.Some? then Effect(begun, Some(Running(begun.value))) else Effect(doc, Some(Raced(task.status == Pending)))
  {
    if doc == None || doc.value.status != task.status {
      return None;
    }
    var t := doc.value.(attempts := doc.value.attempts + 1);
    if task.status == Pending {
      t := t.(status := Processing, lastError := None);
    }
    return Some(t);
  }

  /** Another consumer was faster: the task is loaded again. */
  method AfterRace(docs: nat -> Option<Task>, fromPending: bool, d: Decision, now: int) returns (r: Course)
    ensures r == CourseFrom(docs, 3, Raced(fromPending), d, now, 5)
  {
    CourseMoves(docs, 3, Raced(fromPending), d, now, 5);
    var reloaded := docs(3);
    if reloaded == None {
      return Course([reloaded], None, None);
    }
    if reloaded.value.status == Completed || reloaded.value.status == Failed {
      return Course([reloaded], None, Some(Committing(reloaded.value)));
    }
    var rest;
    if !fromPending {
      rest := EndAttempt(docs, 4, reloaded.value, d, now, 4);
    } else if reloaded.value.status == Processing {
      rest := BumpReloaded(docs, reloaded.value, d, now);
    } else {
      return Course([reloaded], None, None);
    }
    r := Then(reloaded, rest);
  }

  method BumpReloaded(docs: nat -> Option<Task>, reloaded: Task, d: Decision, now: int) returns (r: Course)
    ensures r == CourseFrom(docs, 4, Rebump(reloaded), d, now, 4)
  {
    CourseMoves(docs, 4, Rebump(reloaded), d, now, 4);
    var doc, running := docs(4), reloaded;
    if doc != None && doc.value.status == Processing {
      running := doc.value.(attempts := doc.value.attempts + 1);
      doc := Some(running);
    }
    var rest := EndAttempt(docs, 5, running, d, now, 3);
    r := Then(doc, rest);
  }

  /** From the decision to the commit: an end that is already there is accepted. */
  method EndAttempt(docs: nat -> Option<Task>, i: nat, task: Task, d: Decision, now: int, ghost n: nat) returns (r: Course)
    requires 3 <= n
    ensures r == CourseFrom(docs, i, Running(task), d, now, n)
  {
    CourseMoves(docs, i, Running(task), d, now, n);
    if d == Aborted {
      return Course([docs(i)], Some(task), None);
    }
    CourseMoves(docs, i + 1, Checking(d), d, now, n - 1);
    CourseMoves(docs, i + 2, Writing(d), d, now, n - 2);
    var wanted := if d == Succeeded then Completed else Failed;
    var reloaded := docs(i + 1);
    if reloaded != None && reloaded.value.status == wanted {
      return Then(docs(i), Course([reloaded], Some(task), Some(Committing(reloaded.value))));
    }
    var doc := docs(i + 2);
    if doc == None || doc.value.status != Processing {
      return Then(docs(i), Then(reloaded, Course([doc], Some(task), None)));
    }
    var ended := doc.value.(status := wanted);
    if d == Succeeded {
      ended := ended.(lastError := None, completedTime := Some(now));
    } else {
      ended := ended.(lastError := Some(d.error));
    }
    r := Then(docs(i), Then(reloaded, Course([Some(ended)], Some(task), Some(Committing(ended)))));
  }
}
