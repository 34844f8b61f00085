/** Which stored memories a retrieval request may see (`validate_memory_for_request`), and
    the candidates that recall passes on. */
module MemoryValidator {
  import opened Options

  datatype MemoryType = Fact | Preference | Event | Profile

  datatype Status = Active | Conflicted | Superseded | Other

  datatype Snapshot = Snapshot(memoryId: nat, user: string, memoryType: MemoryType, status: Status)

  /** The memory types asked for, if any; an empty choice asks for all. */
  datatype Request = Request(user: string, types: Option<set<MemoryType>>, includeConflicted: bool, includeHistory: bool)

  datatype Verdict = Valid | WrongUser | TypeOrStatus

  /** `memory_status_allowed`, case by case. */
  predicate StatusAllowed(s: Status, includeConflicted: bool, includeHistory: bool) {
    if !includeConflicted && !includeHistory then s.Active?
    else if includeConflicted && !includeHistory then s in {Active, Conflicted}
    else if !includeConflicted && includeHistory then s in {Active, Superseded}
    else s in {Active, Conflicted, Superseded}
  }

  predicate TypeAllowed(t: MemoryType, types: Option<set<MemoryType>>) {
    types.None? || types.value == {} || t in types.value
  }

  function Validate(m: Snapshot, r: Request): Verdict {
    if m.user != r.user then WrongUser
    else if !TypeAllowed(m.memoryType, r.types) then TypeOrStatus
    else if !StatusAllowed(m.status, r.includeConflicted, r.includeHistory) then TypeOrStatus
    else Valid
  }

  /** What a request may be shown: its own user's memories, of a type asked for, active or
      of a status asked for. */
  predicate Visible(m: Snapshot, r: Request) {
    && m.user == r.user
    && (r.types.Some? && r.types.value != {} ==> m.memoryType in r.types.value)
    && (m.status.Active? || (m.status.Conflicted? && r.includeConflicted) || (m.status.Superseded? && r.includeHistory))
  }

  lemma ValidIsVisible(m: Snapshot, r: Request)
    ensures Validate(m, r).Valid? <==> Visible(m, r)
  {
  }

  datatype Source = Bm25 | Graph | Vector

  /** A validated candidate; scores that do not apply are absent. */
  datatype Candidate = Candidate(
    memoryId: nat, minRank: Option<nat>, normalized: Option<real>, graphScore: Option<real>, sources: set<Source>, memory: Snapshot)

  predicate DistinctIds(cs: seq<Candidate>) { forall i, j :: 0 <= i < j < |cs| ==> cs[i].memoryId != cs[j].memoryId }

  predicate HasId(cs: seq<Candidate>, id: nat) { exists i :: 0 <= i < |cs| && cs[i].memoryId == id }

  /** Every candidate is a memory the request may see. */
  predicate AllVisible(cs: seq<Candidate>, r: Request) { forall i :: 0 <= i < |cs| ==> Visible(cs[i].memory, r) }
}
