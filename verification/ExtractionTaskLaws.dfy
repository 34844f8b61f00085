/** What every interleaving of consumers, pipeline runs and admin actions keeps of the task
    document, and when an offset may be committed. */
module ExtractionTaskLaws {
  import opened Options
  import opened ExtractionTask

  // ----- the document -----

  predicate TaskOk(t: Task) {
    && (t.lastError.Some? <==> t.status.Failed?)
    && (t.completedTime.Some? <==> t.status.Completed?)
    && (t.attempts == 0 ==> t.status.Pending? && t.result.None?)
  }

  predicate DocOk(doc: Option<Task>) { doc.Some? ==> TaskOk(doc.value) }

  /** What one step may do to the document: it stays, attempts do not fall, and a completed
      task does not change at all. */
  predicate Onward(d: Option<Task>, e: Option<Task>) {
    d.Some? ==> e.Some? && d.value.attempts <= e.value.attempts && (d.value.status.Completed? ==> e == d)
  }

  predicate Attempted(doc: Option<Task>) { doc.Some? && 0 < doc.value.attempts }

  /** The update a process makes with its next call, if any. */
  function UpdateBy(doc: Option<Task>, p: Proc, c: Choice, now: int): Option<Update> {
    match p
    case Arrived => Some(UpsertPending)
    case Loaded(t) => if Terminal(t) then None else Some(if t.status.Pending? then ToProcessing else BumpAttempt)
    case Rebump(_) => Some(BumpAttempt)
    case Running(t) =>
      (match c
       case Extract(r) => if t.result.Some? then None else Some(SetResult(r))
       case SyncComplete(at) => Some(Complete(at))
       case SyncFail(e) => Some(Fail(e))
       case _ => None)
    case Writing(d) => Some(if d.FailedWith? then Fail(d.error) else Complete(now))
    case AdminLoaded(rebuild) => Some(Reset(rebuild))
    case AdminFailing => Some(AdminFail("kafka_publish_failed"))
    case _ => None
  }

  lemma AdvanceUpdates(doc: Option<Task>, p: Proc, c: Choice, now: int)
    ensures Advance(doc, p, c, now).doc == if UpdateBy(doc, p, c, now).Some? then Updated(doc, UpdateBy(doc, p, c, now).value) else doc
  {
  }

  /** Each update keeps the document well-formed and moves it onward; the admin's failure
      mark relies on the task having been attempted. */
  lemma UpdatesKeep(doc: Option<Task>, u: Update)
    requires DocOk(doc) && (u.AdminFail? ==> Attempted(doc))
    ensures DocOk(Updated(doc, u)) && Onward(doc, Updated(doc, u))
  {
  }

  // ----- what a process knows -----

  predicate PhaseOk(doc: Option<Task>, p: Proc) {
    p.AdminReset? || p.AdminFailing? ==> Attempted(doc)
  }

  ghost predicate Inv(s: State) {
    DocOk(s.doc) && forall p :: p in s.procs ==> PhaseOk(s.doc, s.procs[p])
  }

  lemma AdvanceKeeps(doc: Option<Task>, p: Proc, c: Choice, now: int)
    requires DocOk(doc) && PhaseOk(doc, p)
    ensures var e := Advance(doc, p, c, now);
            DocOk(e.doc) && Onward(doc, e.doc) && (e.proc.Some? ==> PhaseOk(e.doc, e.proc.value))
  {
    AdvanceUpdates(doc, p, c, now);
    var u := UpdateBy(doc, p, c, now);
    if u.Some? {
      UpdatesKeep(doc, u.value);
    }
  }

  lemma NextKeeps(s: State, a: Step, t: State)
    requires Inv(s) && Next(s, a, t)
    ensures Inv(t) && Onward(s.doc, t.doc)
  {
    if a.Move? && a.p in s.procs {
      AdvanceKeeps(s.doc, s.procs[a.p], a.choice, a.now);
      forall q | q in t.procs ensures PhaseOk(t.doc, t.procs[q]) {
        if q != a.p {
          assert PhaseOk(s.doc, s.procs[q]);
        }
      }
    }
  }

  lemma {:induction false} RunKeeps(states: seq<State>, steps: seq<Step>, n: nat)
    requires Run(states, steps) && n <= |steps|
    ensures Inv(states[n])
  {
    if n > 0 {
      RunKeeps(states, steps, n - 1);
      NextKeeps(states[n - 1], steps[n - 1], states[n]);
    }
  }

  /** At every point of every run: an error is recorded exactly for a failed task, a
      completion time exactly for a completed one, and only a task still pending can have
      no attempt. */
  lemma TaskStaysWellFormed(states: seq<State>, steps: seq<Step>, n: nat)
    requires Run(states, steps) && n < |states| && states[n].doc.Some?
    ensures TaskOk(states[n].doc.value)
  {
    RunKeeps(states, steps, n);
  }

  /** Over any stretch of a run the document stays, its attempts never fall, and once
      completed it never changes again. */
  lemma {:induction false} TaskMovesOnward(states: seq<State>, steps: seq<Step>, i: nat, j: nat)
    requires Run(states, steps) && i <= j < |states|
    ensures Onward(states[i].doc, states[j].doc)
    decreases j - i
  {
    if i < j {
      TaskMovesOnward(states, steps, i, j - 1);
      RunKeeps(states, steps, j - 1);
      assert Next(states[j - 1], steps[j - 1], states[j]);
      NextKeeps(states[j - 1], steps[j - 1], states[j]);
      OnwardOn(states[i].doc, states[j - 1].doc, states[j].doc);
    }
  }

  lemma OnwardOn(a: Option<Task>, b: Option<Task>, c: Option<Task>)
    requires Onward(a, b) && Onward(b, c)
    ensures Onward(a, c)
  {
  }

  predicate HasResult(doc: Option<Task>) { doc.Some? && doc.value.result.Some? }

  /** A rebuild's reset of a failed task. */
  predicate Rebuilds(s: State, a: Step) {
    a.Move? && a.p in s.procs && s.procs[a.p] == AdminLoaded(true) && s.doc.Some? && s.doc.value.status.Failed?
  }

  /** An extraction result disappears only when a rebuild resets the failed task. */
  lemma ResultClearedOnlyByRebuild(s: State, a: Step)
    requires HasResult(s.doc)
    ensures HasResult(Apply(s, a).doc) <==> !Rebuilds(s, a)
  {
    if a.Move? && a.p in s.procs {
      AdvanceUpdates(s.doc, s.procs[a.p], a.choice, a.now);
    }
  }

  // ----- when a stored result is replaced -----

  /** A process that loaded the task without a result stores another one while the task is
      being processed. */
  predicate Replaces(s: State, a: Step) {
    && a.Move? && a.choice.Extract? && a.p in s.procs && s.procs[a.p].Running? && s.procs[a.p].task.result.None?
    && s.doc.Some? && s.doc.value.status.Processing? && s.doc.value.result != Some(a.choice.result)
  }

  predicate SameResult(d: Option<Task>, e: Option<Task>) { d.Some? && e.Some? && d.value.result == e.value.result }

  /** Exactly which steps a stored result survives unchanged. */
  lemma ResultSurvivesExactly(s: State, a: Step)
    requires HasResult(s.doc)
    ensures SameResult(s.doc, Apply(s, a).doc) <==> !Rebuilds(s, a) && !Replaces(s, a)
  {
    if a.Move? && a.p in s.procs {
      AdvanceUpdates(s.doc, s.procs[a.p], a.choice, a.now);
    }
  }

  /** Over any stretch of any run, with any number of consumers, a stored result is the same
      all along exactly when no step rebuilds the task or replaces the result. */
  lemma {:induction false} ResultStaysExactly(states: seq<State>, steps: seq<Step>, i: nat, j: nat)
    requires Run(states, steps) && i <= j < |states| && HasResult(states[i].doc)
    ensures (forall k :: i <= k <= j ==> SameResult(states[i].doc, states[k].doc))
            <==> forall k :: i <= k < j ==> !Rebuilds(states[k], steps[k]) && !Replaces(states[k], steps[k])
    decreases j - i
  {
    if i < j {
      ResultStaysExactly(states, steps, i, j - 1);
      assert Next(states[j - 1], steps[j - 1], states[j]);
      if SameResult(states[i].doc, states[j - 1].doc) {
        ResultSurvivesExactly(states[j - 1], steps[j - 1]);
      }
    }
  }

  // ----- the commit gate -----

  /** The document was `t` at some point up to `n`. */
  ghost predicate Seen(states: seq<State>, n: nat, t: Task)
    requires n < |states|
  {
    exists i :: 0 <= i <= n && states[i].doc == Some(t)
  }

  ghost predicate SnapshotOk(states: seq<State>, n: nat, p: Proc)
    requires n < |states|
  {
    && (p.Loaded? ==> Seen(states, n, p.task))
    && (p.Committing? ==> Seen(states, n, p.seen) && Terminal(p.seen))
  }

  lemma AdvanceSnapshot(doc: Option<Task>, p: Proc, c: Choice, now: int)
    ensures var e := Advance(doc, p, c, now);
            && (e.proc.Some? && e.proc.value.Loaded? ==> doc == Some(e.proc.value.task))
            && (e.proc.Some? && e.proc.value.Committing? ==>
                  && Terminal(e.proc.value.seen)
                  && (doc == Some(e.proc.value.seen) || e.doc == Some(e.proc.value.seen) || p == Loaded(e.proc.value.seen)))
  {
  }

  lemma {:induction false} SnapshotsAreSeen(states: seq<State>, steps: seq<Step>, n: nat, p: nat)
    requires Run(states, steps) && n < |states| && p in states[n].procs
    ensures SnapshotOk(states, n, states[n].procs[p])
  {
    if n > 0 {
      var s, a, t := states[n - 1], steps[n - 1], states[n];
      assert Next(s, a, t);
      if p in s.procs {
        SnapshotsAreSeen(states, steps, n - 1, p);
      }
      if a.Move? && a.p == p && p in s.procs {
        AdvanceSnapshot(s.doc, s.procs[p], a.choice, a.now);
        assert states[n - 1].doc == s.doc && states[n].doc == t.doc;
      }
    }
  }

  /** A record's offset is committed only after its task was, at some point of the run,
      completed or failed; and if it was completed, it still is. */
  lemma CommitOnlyAfterTerminal(states: seq<State>, steps: seq<Step>, n: nat, p: nat)
    requires Run(states, steps) && n < |states| && p in states[n].procs && states[n].procs[p].Committing?
    ensures var seen := states[n].procs[p].seen;
            && Terminal(seen) && Seen(states, n, seen)
            && (seen.status.Completed? ==> states[n].doc == Some(seen))
  {
    SnapshotsAreSeen(states, steps, n, p);
    var seen := states[n].procs[p].seen;
    var i :| 0 <= i <= n && states[i].doc == Some(seen);
    TaskMovesOnward(states, steps, i, n);
  }

  // ----- the result is written once -----

  /** A record is delivered only while no other consumer works on the archive. */
  ghost predicate OneConsumer(s: State, a: Step) {
    a.Deliver? ==> forall p :: p in s.procs ==> !IsConsumer(s.procs[p])
  }

  ghost predicate OneConsumerRun(states: seq<State>, steps: seq<Step>) {
    Run(states, steps) && forall i :: 0 <= i < |steps| ==> OneConsumer(states[i], steps[i])
  }

  predicate KnowsResult(doc: Option<Task>, p: Proc) {
    p.Running? && doc.Some? && doc.value.status.Processing? ==> doc.value.result == p.task.result
  }

  ghost predicate SoleInv(s: State) {
    && (forall p, q :: p in s.procs && q in s.procs && p != q ==> !(IsConsumer(s.procs[p]) && IsConsumer(s.procs[q])))
    && (forall p :: p in s.procs ==> KnowsResult(s.doc, s.procs[p]))
    && (forall p :: p in s.procs && s.procs[p].Rebump? ==> KnowsTask(s.doc, s.procs[p].task))
  }

  predicate KnowsTask(doc: Option<Task>, t: Task) {
    doc.Some? && doc.value.status.Processing? ==> doc.value.result == t.result
  }

  /** An admin's move never touches a task that is being processed. */
  lemma AdminLeavesProcessing(doc: Option<Task>, p: Proc, c: Choice, now: int)
    requires !IsConsumer(p)
    ensures var e := Advance(doc, p, c, now).doc; e.Some? && e.value.status.Processing? ==> e == doc
    ensures var e := Advance(doc, p, c, now).proc; e.Some? ==> !IsConsumer(e.value)
  {
  }

  lemma ConsumerKnows(doc: Option<Task>, p: Proc, c: Choice, now: int)
    requires IsConsumer(p) && KnowsResult(doc, p) && (p.Rebump? ==> KnowsTask(doc, p.task))
    ensures var e := Advance(doc, p, c, now);
            e.proc.Some? ==> KnowsResult(e.doc, e.proc.value) && (e.proc.value.Rebump? ==> KnowsTask(e.doc, e.proc.value.task))
  {
  }

  lemma NextKeepsSole(s: State, a: Step, t: State)
    requires SoleInv(s) && OneConsumer(s, a) && Next(s, a, t)
    ensures SoleInv(t)
  {
    if a.Move? && a.p in s.procs {
      var p := s.procs[a.p];
      if IsConsumer(p) {
        ConsumerKnows(s.doc, p, a.choice, a.now);
      } else {
        AdminLeavesProcessing(s.doc, p, a.choice, a.now);
      }
      forall q | q in t.procs
        ensures KnowsResult(t.doc, t.procs[q]) && (t.procs[q].Rebump? ==> KnowsTask(t.doc, t.procs[q].task))
      {
        if q != a.p && IsConsumer(s.procs[q]) {
          assert !IsConsumer(p);
        }
      }
    }
  }

  lemma {:induction false} RunKeepsSole(states: seq<State>, steps: seq<Step>, n: nat)
    requires OneConsumerRun(states, steps) && n <= |steps|
    ensures SoleInv(states[n])
  {
    if n > 0 {
      RunKeepsSole(states, steps, n - 1);
      NextKeepsSole(states[n - 1], steps[n - 1], states[n]);
    }
  }

  /** With one consumer a running process knows the stored result, and so never replaces it. */
  lemma SoleNeverReplaces(s: State, a: Step)
    requires SoleInv(s) && HasResult(s.doc)
    ensures !Replaces(s, a)
  {
    if a.Move? && a.p in s.procs {
      assert KnowsResult(s.doc, s.procs[a.p]);
    }
  }

  /** With one consumer at a time, an extraction result once stored stays the same until a
      rebuild, so every redelivery works on the same candidates. */
  lemma {:induction false} ResultIsWrittenOnce(states: seq<State>, steps: seq<Step>, i: nat, j: nat)
    requires OneConsumerRun(states, steps) && i <= j < |states| && HasResult(states[i].doc)
    requires forall k :: i <= k < j ==> !Rebuilds(states[k], steps[k])
    ensures HasResult(states[j].doc) && states[j].doc.value.result == states[i].doc.value.result
    decreases j - i
  {
    if i < j {
      ResultIsWrittenOnce(states, steps, i, j - 1);
      RunKeepsSole(states, steps, j - 1);
      SoleNeverReplaces(states[j - 1], steps[j - 1]);
      ResultSurvivesExactly(states[j - 1], steps[j - 1]);
      assert Next(states[j - 1], steps[j - 1], states[j]);
    }
  }

  lemma Extended(states: seq<State>, steps: seq<Step>, a: Step)
    requires Run(states, steps)
    ensures Run(states + [Apply(states[|steps|], a)], steps + [a])
  {
    var more, longer := states + [Apply(states[|steps|], a)], steps + [a];
    forall i | 0 <= i < |longer| ensures Next(more[i], longer[i], more[i + 1]) {
      if i < |steps| {
        assert Next(states[i], steps[i], states[i + 1]);
      }
    }
  }

  lemma Extend(states: seq<State>, steps: seq<Step>, a: Step) returns (states': seq<State>, steps': seq<Step>)
    requires Run(states, steps)
    ensures Run(states', steps') && |steps'| == |steps| + 1 && states' == states + [Apply(states[|steps|], a)]
  {
    Extended(states, steps, a);
    states', steps' := states + [Apply(states[|steps|], a)], steps + [a];
  }

  /** Two records of the archive are delivered and both loaded without a result. */
  lemma TwoConsumersLoad() returns (states: seq<State>, steps: seq<Step>, once: Task, twice: Task)
    ensures Run(states, steps) && |steps| == 8
    ensures once.result.None? && twice.result.None? && twice.status.Processing?
    ensures states[8] == State(Some(twice), map[1 := Running(once), 2 := Running(twice)])
  {
    once := NEW_TASK.(status := Processing, attempts := 1);
    twice := once.(attempts := 2);
    states, steps := [START], [];
    states, steps := Extend(states, steps, Deliver(1));
    states, steps := Extend(states, steps, Move(1, Go, 0));
    states, steps := Extend(states, steps, Move(1, Go, 0));
    states, steps := Extend(states, steps, Move(1, Go, 0));
    assert states[4] == State(Some(once), map[1 := Running(once)]);
    states, steps := Extend(states, steps, Deliver(2));
    states, steps := Extend(states, steps, Move(2, Go, 0));
    states, steps := Extend(states, steps, Move(2, Go, 0));
    states, steps := Extend(states, steps, Move(2, Go, 0));
  }

  /** With two consumers it is not: the second extraction replaces the first. */
  lemma TwoConsumersReplaceTheResult() returns (states: seq<State>, steps: seq<Step>)
    ensures Run(states, steps) && |steps| == 10
    ensures HasResult(states[9].doc) && states[9].doc.value.result == Some("one")
    ensures HasResult(states[10].doc) && states[10].doc.value.result == Some("two")
  {
    var once, twice;
    states, steps, once, twice := TwoConsumersLoad();
    states, steps := Extend(states, steps, Move(1, Extract("one"), 0));
    states, steps := Extend(states, steps, Move(2, Extract("two"), 0));
  }

  // ----- what an admin may do -----

  /** A retry is admitted exactly for a task that failed on a model, alignment, store, index or
      publishing error, a rebuild exactly for one that failed on a plan conflict. */
  lemma AdminProceedsExactly(doc: Option<Task>, rebuild: bool, m: Choice, now: int)
    ensures Advance(doc, AdminArrived(rebuild), m, now).doc == doc
    ensures Advance(doc, AdminArrived(rebuild), m, now).proc.Some? <==>
            && doc.Some? && doc.value.status == Failed && doc.value.lastError.Some?
            && var code := doc.value.lastError.value;
               if rebuild then code == "reconciliation_plan_conflict"
               else || code == "llm_timeout" || code == "llm_request_failed" || code == "llm_invalid_output"
                    || code == "entity_alignment_failed" || code == "graph_query_failed" || code == "graph_write_failed"
                    || code == "retrieval_index_write_failed" || code == "kafka_publish_failed"
  {
  }

  /** An admitted action makes the failed task pending again; only a rebuild drops its result. If
      publishing then fails, the task is failed once more, with that error. */
  lemma AdminResets(t: Task, rebuild: bool, ok: bool, now: int)
    requires t.status == Failed
    ensures var e := Advance(Some(t), AdminLoaded(rebuild), Go, now);
            && e.doc == Some(Task(Pending, t.attempts, if rebuild then None else t.result, None, t.completedTime)) && e.proc == Some(AdminReset)
            && (Advance(e.doc, AdminReset, Publish(ok), now).proc.None? <==> ok)
            && Advance(e.doc, AdminFailing, Go, now) ==
               Effect(Some(Task(Failed, t.attempts, if rebuild then None else t.result, Some("kafka_publish_failed"), t.completedTime)), None)
  {
  }

  /** What the calls of a running pipeline write: a new extraction result only if the task was
      loaded without one, and an end only to a task that is still processing. */
  lemma PipelineWrites(doc: Option<Task>, task: Task, result: Result, error: string, time: int, now: int)
    ensures var e := Advance(doc, Running(task), Extract(result), now);
            if task.result != None then e == Effect(doc, Some(Running(task)))
            else if doc != None && doc.value.status == Processing
            then e == Effect(Some(doc.value.(result := Some(result))), Some(Running(task.(result := Some(result)))))
            else e == Effect(doc, None)
    ensures var e := Advance(doc, Running(task), SyncComplete(time), now);
            && e.proc == Some(Running(task))
            && e.doc == if doc != None && doc.value.status == Processing
                        then Some(doc.value.(status := Completed, lastError := None, completedTime := Some(time))) else doc
    ensures var e := Advance(doc, Running(task), SyncFail(error), now);
            && e.proc == Some(Running(task))
            && e.doc == if doc != None && doc.value.status == Processing
                        then Some(doc.value.(status := Failed, lastError := Some(error))) else doc
  {
  }
}
