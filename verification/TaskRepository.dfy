/** The in-memory repository, the service and one uninterrupted worker, as the objects they are. */
module TaskRepository {
  import opened Wrappers
  import opened Json
  import opened TaskTable

  class AsyncTask {
    const taskId: TaskId
    const taskType: string
    const payload: Dict
    var status: Status
    var result: Option<Dict>
    var error: Option<string>

    constructor (taskId: TaskId, taskType: string, payload: Dict)
      ensures this.taskId == taskId && Value() == NewRecord(taskType, payload)
    {
      this.taskId, this.taskType, this.payload := taskId, taskType, payload;
      status, result, error := Queued, None, None;
    }

    function Value(): Record
      reads this
    {
      Record(taskType, payload, status, result, error)
    }

    /** The accepted branch of an update: absent arguments leave their field alone. */
    method Move(status: Status, result: Option<Dict>, error: Option<string>)
      requires Accepts(Value(), status)
      modifies this
      ensures Value() == UpdateRecord(old(Value()), status, result, error)
    {
      this.status := status;
      if result.Some? { this.result := result; }
      if error.Some? { this.error := error; }
    }
  }

  class AsyncTaskRepository {
    var store: map<TaskId, AsyncTask>

    /** No two ids share a task object, so an update reaches one record only. */
    ghost predicate Valid()
      reads this
    {
      forall id <- store :: store[id].taskId == id
    }

    ghost function View(): Table
      reads this, store.Values
    {
      map id | id in store :: store[id].Value()
    }

    lemma ViewAt(id: TaskId)
      ensures id in View() <==> id in store
      ensures id in store ==> View()[id] == store[id].Value()
    {
    }

    constructor ()
      ensures Valid() && View() == map[] && store == map[]
    {
      store := map[];
    }

    method Create(id: TaskId, taskType: string, payload: Dict) returns (task: AsyncTask)
      requires Valid()
      modifies this
      ensures Valid() && fresh(task) && store == old(store)[id := task]
      ensures View() == old(View())[id := Record(taskType, payload, Queued, None, None)]
    {
      task := new AsyncTask(id, taskType, payload);
      store := store[id := task];
    }

    method Get(id: TaskId) returns (task: AsyncTask?)
      ensures task == null <==> id !in store
      ensures task != null ==> task == store[id]
    {
      task := if id in store then store[id] else null;
    }

    method UpdateStatus(id: TaskId, status: Status, result: Option<Dict>, error: Option<string>)
      returns (r: Result<AsyncTask, string>)
      requires Valid()
      modifies store.Values
      ensures Valid() && store == old(store)
      ensures r == Failure("KeyError") <==> id !in store
      ensures r.Failure? <==> id !in store
      ensures r.Success? ==> r.value == store[id]
      ensures View() == Update(old(View()), id, status, result, error)
    {
      ghost var before := View();
      if id !in store {
        return Failure("KeyError");
      }
      var task := store[id];
      if status !in ValidTransitions(task.status) {
        assert before[id := before[id]] == before;
        return Success(task);
      }
      task.Move(status, result, error);
      assert View() == before[id := task.Value()];
      return Success(task);
    }
  }

  datatype Message = Message(id: TaskId, taskType: string, payload: Dict, softTimeLimit: Option<int>)

  /** The message broker: what was published, and which ids were revoked (with or without a kill signal). */
  class Broker {
    var published: seq<Message>
    var revoked: seq<(TaskId, bool)>

    constructor ()
      ensures published == [] && revoked == []
    {
      published, revoked := [], [];
    }

    /** `up` is the environment's choice: publishing fails when the broker cannot be reached. */
    method Publish(m: Message, up: bool)
      modifies this`published
      ensures published == if up then old(published) + [m] else old(published)
    {
      if up { published := published + [m]; }
    }

    method Revoke(id: TaskId, terminate: bool)
      modifies this`revoked
      ensures revoked == old(revoked) + [(id, terminate)]
    {
      revoked := revoked + [(id, terminate)];
    }
  }

  datatype SubmitReply = SubmitReply(id: TaskId, status: Status)

  class AsyncTaskService {
    const repository: AsyncTaskRepository
    const broker: Broker
    const taskTimeout: Option<int>

    constructor (repository: AsyncTaskRepository, broker: Broker, taskTimeoutSeconds: int)
      ensures this.repository == repository && this.broker == broker
      ensures taskTimeout == if taskTimeoutSeconds > 0 then Some(taskTimeoutSeconds) else None
    {
      this.repository, this.broker := repository, broker;
      this.taskTimeout := if taskTimeoutSeconds > 0 then Some(taskTimeoutSeconds) else None;
    }

    /** A failed publish leaves the new record cancelled, so no caller waits on it for ever. */
    method Submit(taskType: string, payload: Dict, idempotencyKey: Option<string>, uuid: string, brokerUp: bool)
      returns (r: Result<SubmitReply, string>)
      requires repository.Valid()
      modifies repository, repository.store.Values, broker
      ensures repository.Valid()
      ensures var id := if idempotencyKey.None? || idempotencyKey.value == "" then uuid else idempotencyKey.value;
              && repository.View()
                 == old(repository.View())[id := Record(taskType, payload, if brokerUp then Queued else Cancelled, None, None)]
              && broker.published == old(broker.published) +
                   (if brokerUp then [Message(id, taskType, payload, taskTimeout)] else [])
              && r == if brokerUp then Success(SubmitReply(id, Queued)) else Failure("Task broker unavailable")
      ensures broker.revoked == old(broker.revoked)
    {
      hide Update, UpdateRecord, ValidTransitions, AsyncTaskRepository.View;
      var id := TaskIdFor(idempotencyKey, uuid);
      CancelsNew(repository.View(), id, taskType, payload);
      var task := repository.Create(id, taskType, payload);
      broker.Publish(Message(id, taskType, payload, taskTimeout), brokerUp);
      if !brokerUp {
        var _ := repository.UpdateStatus(id, Cancelled, None, None);
        return Failure("Task broker unavailable");
      }
      repository.ViewAt(id);
      return Success(SubmitReply(task.taskId, task.status));
    }

    /** Only a queued task is cancelled; a running one is left to its worker. */
    method Cancel(id: TaskId) returns (r: Result<Record, string>)
      requires repository.Valid()
      modifies repository.store.Values, broker
      ensures repository.Valid() && repository.store == old(repository.store)
      ensures var before := old(repository.View());
              repository.View() == if id in before && before[id].status == Queued then before[id := before[id].(status := Cancelled)] else before
      ensures r == if id in repository.View() then Success(repository.View()[id]) else Failure("KeyError")
      ensures broker.published == old(broker.published)
      ensures broker.revoked == old(broker.revoked) +
                (if id !in old(repository.View()) then []
                 else if old(repository.View())[id].status == Queued then [(id, false)]
                 else if old(repository.View())[id].status == Running then [(id, true)] else [])
    {
      hide Update, UpdateRecord, ValidTransitions, AsyncTaskRepository.View;
      repository.ViewAt(id);
      if id in repository.View() && repository.View()[id].status == Queued { CancelsQueued(repository.View(), id); }
      var task := repository.Get(id);
      if task == null {
        return Failure("KeyError");
      }
      if task.status == Queued {
        broker.Revoke(id, false);
        var _ := repository.UpdateStatus(id, Cancelled, None, None);
      } else if task.status == Running {
        broker.Revoke(id, true);
      }
      task := repository.Get(id);
      repository.ViewAt(id);
      return Success(task.Value());
    }
  }

  /** An empty key is falsy and falls back to the fresh id. */
  function TaskIdFor(idempotencyKey: Option<string>, uuid: string): TaskId {
    if idempotencyKey.Some? && idempotencyKey.value != "" then idempotencyKey.value else uuid
  }

  datatype DispatchResult = Skipped | Ran | MissingTask

  /** One worker run that nothing interleaves with; `outcome` is how the handler ends if it is called. */
  method DispatchTask(repository: AsyncTaskRepository, id: TaskId, outcome: Outcome) returns (r: DispatchResult)
    requires repository.Valid()
    modifies repository.store.Values
    ensures repository.Valid() && repository.store == old(repository.store)
    ensures repository.View() == DispatchedTable(old(repository.View()), id, outcome)
    ensures var before, after := old(repository.View()), repository.View();
            && after.Keys == before.Keys && (forall other <- before :: other != id ==> after[other] == before[other])
            && (id in before ==> if before[id].status in {Queued, Running} then Shows(before[id], after[id], outcome)
                                 else after[id] == before[id])
    ensures r == if id !in repository.View() then MissingTask
                 else if old(repository.View())[id].status == Cancelled then Skipped else Ran
  {
    hide Shows, UpdateRecord, ValidTransitions;
    var task := repository.Get(id);
    if task != null && task.status == Cancelled {
      return Skipped;
    }
    var running := repository.UpdateStatus(id, Running, None, None);
    if running.Failure? {
      return MissingTask;
    }
    WorkerRunAlone(old(repository.View()), id, outcome);
    match outcome {
      case Returned(value) =>
        var _ := repository.UpdateStatus(id, Completed, value, None);
      case TimedOut =>
        var _ := repository.UpdateStatus(id, Failed, None, Some(TIMEOUT_MESSAGE));
      case DomainFailure(message, code, details) =>
        var _ := repository.UpdateStatus(id, Failed, Some(map["code" := JStr(code), "details" := details]), Some(message));
      case Unexpected(message) =>
        var _ := repository.UpdateStatus(id, Failed, Some(map["code" := JStr("INTERNAL")]), Some(message));
    }
    return Ran;
  }
}
