/** The task records, the transition table and the effect of one repository call on them. */
module TaskTable {
  import opened Wrappers
  import opened Json

  type TaskId = string

  datatype Status = Queued | Running | Completed | Failed | Cancelled

  const TERMINAL_STATES: set<Status> := {Completed, Failed, Cancelled}

  function ValidTransitions(s: Status): set<Status> {
    match s
    case Queued => {Running, Cancelled}
    case Running => {Completed, Failed}
    case Completed => {}
    case Failed => {}
    case Cancelled => {}
  }

  datatype Record = Record(taskType: string, payload: Dict, status: Status,
                           result: Option<Dict>, error: Option<string>)

  type Table = map<TaskId, Record>

  function NewRecord(taskType: string, payload: Dict): Record {
    Record(taskType, payload, Queued, None, None)
  }

  predicate Accepts(r: Record, status: Status) {
    status in ValidTransitions(r.status)
  }

  function UpdateRecord(r: Record, status: Status, result: Option<Dict>, error: Option<string>): Record {
    if !Accepts(r, status) then r
    else r.(status := status,
            result := if result.Some? then result else r.result,
            error := if error.Some? then error else r.error)
  }

  /** What `update_status` does to the table; an unknown id is a `KeyError` and changes nothing. */
  function Update(t: Table, id: TaskId, status: Status, result: Option<Dict>, error: Option<string>): Table {
    if id in t then t[id := UpdateRecord(t[id], status, result, error)] else t
  }

  lemma CancelsQueued(t: Table, id: TaskId)
    requires id in t && t[id].status == Queued
    ensures Update(t, id, Cancelled, None, None) == t[id := t[id].(status := Cancelled)]
  {
  }

  lemma CancelsNew(t: Table, id: TaskId, taskType: string, payload: Dict)
    ensures Update(t[id := Record(taskType, payload, Queued, None, None)], id, Cancelled, None, None)
         == t[id := Record(taskType, payload, Cancelled, None, None)]
  {
    var t' := t[id := Record(taskType, payload, Queued, None, None)];
    CancelsQueued(t', id);
    hide Update;
    assert t'[id := Record(taskType, payload, Cancelled, None, None)] == t[id := Record(taskType, payload, Cancelled, None, None)];
  }

  /** How a handler call can end. */
  datatype Outcome =
    | Returned(value: Option<Dict>)
    | TimedOut
    | DomainFailure(message: string, code: string, details: Json)
    | Unexpected(message: string)

  const TIMEOUT_MESSAGE := "Task exceeded configured timeout"

  function FinalStatus(o: Outcome): Status {
    if o.Returned? then Completed else Failed
  }

  function FinalResult(o: Outcome): Option<Dict> {
    match o
    case Returned(value) => value
    case TimedOut => None
    case DomainFailure(_, code, details) => Some(map["code" := JStr(code), "details" := details])
    case Unexpected(_) => Some(map["code" := JStr("INTERNAL")])
  }

  function FinalError(o: Outcome): Option<string> {
    match o
    case Returned(_) => None
    case TimedOut => Some(TIMEOUT_MESSAGE)
    case DomainFailure(message, _, _) => Some(message)
    case Unexpected(message) => Some(message)
  }

  /** The record the service may show for a task, by its status. */
  ghost predicate WellFormed(r: Record) {
    && (r.status in {Queued, Running, Cancelled} ==> r.result.None? && r.error.None?)
    && (r.status == Completed ==> r.error.None?)
    && (r.status == Failed ==> r.error.Some?)
  }

  /** How an unfinished record has to look once its handler has ended, said case by case. */
  ghost predicate Shows(before: Record, after: Record, o: Outcome) {
    && after.taskType == before.taskType && after.payload == before.payload
    && match o
       case Returned(value) =>
         after.status == Completed && after.result == (if value.Some? then value else before.result) && after.error == before.error
       case TimedOut =>
         after.status == Failed && after.result == before.result && after.error == Some("Task exceeded configured timeout")
       case DomainFailure(message, code, details) =>
         && after.status == Failed && after.error == Some(message)
         && after.result == Some(map["code" := JStr(code), "details" := details])
       case Unexpected(message) =>
         after.status == Failed && after.error == Some(message) && after.result == Some(map["code" := JStr("INTERNAL")])
  }

  /** The only records a worker run alone can change are unfinished ones, and it leaves them finished. */
  ghost function DispatchedTable(t: Table, id: TaskId, outcome: Outcome): Table {
    if id !in t || t[id].status in TERMINAL_STATES then t
    else t[id := t[id].(status := FinalStatus(outcome),
                        result := if FinalResult(outcome).Some? then FinalResult(outcome) else t[id].result,
                        error := if FinalError(outcome).Some? then FinalError(outcome) else t[id].error)]
  }

  /** Marking a task running and then finishing it shows the outcome, or leaves a finished task and every other one. */
  lemma WorkerRunAlone(t: Table, id: TaskId, o: Outcome)
    requires id in t && t[id].status != Cancelled
    ensures var after := Update(Update(t, id, Running, None, None), id, FinalStatus(o), FinalResult(o), FinalError(o));
            && after.Keys == t.Keys && (forall other <- t :: other != id ==> after[other] == t[other])
            && if t[id].status in {Queued, Running} then Shows(t[id], after[id], o) else after[id] == t[id]
    ensures Update(Update(t, id, Running, None, None), id, FinalStatus(o), FinalResult(o), FinalError(o))
         == DispatchedTable(t, id, o)
  {
    var first := UpdateRecord(t[id], Running, None, None);
    assert first.status == if t[id].status == Queued then Running else t[id].status;
  }
}
