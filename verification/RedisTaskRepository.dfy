/** The Redis repository: tasks kept as JSON objects under prefixed keys, updated by editing the object. */
module RedisTaskRepository {
  import opened Wrappers
  import opened Json
  import opened TaskTable
  import Memory = TaskRepository

  const KEY_PREFIX := "bible_atlas:task:"

  function Key(id: TaskId): string {
    KEY_PREFIX + id
  }

  /** `datetime.isoformat` and `datetime.fromisoformat`; exact when they are inverse on every time. */
  datatype IsoCodec = IsoCodec(iso: int -> string, fromIso: string -> int) {
    ghost predicate Exact() {
      forall t: int :: fromIso(iso(t)) == t
    }
  }

  datatype Task = Task(id: TaskId, record: Record, createdAt: int, updatedAt: int)

  function StatusName(s: Status): string {
    match s
    case Queued => "queued"
    case Running => "running"
    case Completed => "completed"
    case Failed => "failed"
    case Cancelled => "cancelled"
  }

  function StatusOf(name: string): Option<Status> {
    if name == "queued" then Some(Queued)
    else if name == "running" then Some(Running)
    else if name == "completed" then Some(Completed)
    else if name == "failed" then Some(Failed)
    else if name == "cancelled" then Some(Cancelled)
    else None
  }

  function TaskToDict(c: IsoCodec, t: Task): Dict {
    map["task_id" := JStr(t.id),
        "task_type" := JStr(t.record.taskType),
        "status" := JStr(StatusName(t.record.status)),
        "payload" := JObj(t.record.payload),
        "result" := if t.record.result.Some? then JObj(t.record.result.value) else JNull,
        "error" := if t.record.error.Some? then JStr(t.record.error.value) else JNull,
        "created_at" := JStr(c.iso(t.createdAt)),
        "updated_at" := JStr(c.iso(t.updatedAt))]
  }

  /** `data.get(key)`. */
  function Lookup(d: Dict, key: string): Json {
    if key in d then d[key] else JNull
  }

  function DictOr(j: Json, default: Dict): Dict {
    if j.JObj? then j.fields else default
  }

  predicate HasTextFields(d: Dict) {
    && Lookup(d, "task_id").JStr? && Lookup(d, "task_type").JStr?
    && Lookup(d, "status").JStr? && StatusOf(Lookup(d, "status").s).Some?
    && Lookup(d, "created_at").JStr? && Lookup(d, "updated_at").JStr?
    && (Lookup(d, "payload").JNull? || Lookup(d, "payload").JObj?)
    && (Lookup(d, "result").JNull? || Lookup(d, "result").JObj?)
    && (Lookup(d, "error").JNull? || Lookup(d, "error").JStr?)
  }

  /** A missing or null payload reads as the empty dict. */
  function TaskFromDict(c: IsoCodec, d: Dict): Option<Task> {
    if !HasTextFields(d) then None
    else
      Some(Task(d["task_id"].s,
                Record(d["task_type"].s,
                       DictOr(Lookup(d, "payload"), map[]),
                       StatusOf(d["status"].s).value,
                       if Lookup(d, "result").JObj? then Some(Lookup(d, "result").fields) else None,
                       if Lookup(d, "error").JStr? then Some(Lookup(d, "error").s) else None),
                c.fromIso(d["created_at"].s), c.fromIso(d["updated_at"].s)))
  }

  /** Serialising and deserialising a task is the identity. */
  lemma TaskRoundTrip(c: IsoCodec, t: Task)
    requires c.Exact()
    ensures TaskFromDict(c, TaskToDict(c, t)) == Some(t)
  {
    var d := TaskToDict(c, t);
    assert StatusOf(StatusName(t.record.status)) == Some(t.record.status);
    assert d["created_at"] == JStr(c.iso(t.createdAt)) && d["updated_at"] == JStr(c.iso(t.updatedAt));
    assert HasTextFields(d);
  }

  /** The stored object has these eight keys, the statuses spelled as the transition table spells them. */
  lemma StoredObject(c: IsoCodec, t: Task)
    ensures var d := TaskToDict(c, t);
            && d.Keys == {"task_id", "task_type", "status", "payload", "result", "error", "created_at", "updated_at"}
            && d["task_id"] == JStr(t.id) && d["task_type"] == JStr(t.record.taskType) && d["payload"] == JObj(t.record.payload)
            && d["status"] == JStr(match t.record.status
                                   case Queued => "queued" case Running => "running" case Completed => "completed"
                                   case Failed => "failed" case Cancelled => "cancelled")
            && d["created_at"] == JStr(c.iso(t.createdAt)) && d["updated_at"] == JStr(c.iso(t.updatedAt))
            && (d["result"].JNull? <==> t.record.result.None?) && (d["error"].JNull? <==> t.record.error.None?)
  {
  }

  /** An object without a payload, a result or an error, or with a null for one, reads as a task without it. */
  lemma MissingReadsAsNone(c: IsoCodec, d: Dict, t: Task)
    requires TaskFromDict(c, d) == Some(t)
    ensures "payload" !in d || d["payload"] == JNull ==> t.record.payload == map[]
    ensures "result" !in d || d["result"] == JNull ==> t.record.result.None?
    ensures "error" !in d || d["error"] == JNull ==> t.record.error.None?
  {
  }

  /** The in-place edit of the decoded object that an accepted update makes. */
  function EditDict(c: IsoCodec, d: Dict, status: Status, result: Option<Dict>, error: Option<string>, now: int): Dict {
    var d1 := d["status" := JStr(StatusName(status))]["updated_at" := JStr(c.iso(now))];
    var d2 := if result.Some? then d1["result" := JObj(result.value)] else d1;
    if error.Some? then d2["error" := JStr(error.value)] else d2
  }

  lemma EditedTask(c: IsoCodec, d: Dict, status: Status, result: Option<Dict>, error: Option<string>, now: int)
    requires c.Exact() && TaskFromDict(c, d).Some?
    requires Accepts(TaskFromDict(c, d).value.record, status)
    ensures var t := TaskFromDict(c, d).value;
            TaskFromDict(c, EditDict(c, d, status, result, error, now))
              == Some(t.(record := UpdateRecord(t.record, status, result, error), updatedAt := now))
  {
    var e := EditDict(c, d, status, result, error, now);
    assert StatusOf(StatusName(status)) == Some(status);
    assert Lookup(e, "task_id") == Lookup(d, "task_id") && Lookup(e, "task_type") == Lookup(d, "task_type");
    assert Lookup(e, "payload") == Lookup(d, "payload") && Lookup(e, "created_at") == Lookup(d, "created_at");
    assert e["updated_at"] == JStr(c.iso(now)) && e["status"] == JStr(StatusName(status));
    assert HasTextFields(e);
  }

  type Store = map<string, Json>

  ghost predicate Stored(c: IsoCodec, store: Store, k: string) {
    && k in store && store[k].JObj?
    && TaskFromDict(c, store[k].fields).Some?
    && Key(TaskFromDict(c, store[k].fields).value.id) == k
  }

  ghost predicate ValidStore(c: IsoCodec, store: Store) {
    && c.Exact()
    && forall k <- store :: KEY_PREFIX <= k ==> Stored(c, store, k)
  }

  ghost function TaskAt(c: IsoCodec, store: Store, id: TaskId): Task
    requires ValidStore(c, store) && Key(id) in store
  {
    assert Stored(c, store, Key(id));
    TaskFromDict(c, store[Key(id)].fields).value
  }

  ghost function Ids(store: Store): set<TaskId> {
    set k <- store | KEY_PREFIX <= k :: k[|KEY_PREFIX|..]
  }

  /** What the stored objects say, in the in-memory repository's terms. */
  ghost function ViewOf(c: IsoCodec, store: Store): Table
    requires ValidStore(c, store)
  {
    map id | id in Ids(store) && Key(id) in store :: TaskAt(c, store, id).record
  }

  lemma KeyInjective(a: TaskId, b: TaskId)
    ensures Key(a) == "bible_atlas:task:" + a
    ensures Key(a)[|KEY_PREFIX|..] == a
    ensures Key(a) == Key(b) ==> a == b
  {
    assert Key(a)[|KEY_PREFIX|..] == a && Key(b)[|KEY_PREFIX|..] == b;
  }

  lemma ViewHas(c: IsoCodec, store: Store, id: TaskId)
    requires ValidStore(c, store)
    ensures id in ViewOf(c, store) <==> Key(id) in store
    ensures id in ViewOf(c, store) ==> ViewOf(c, store)[id] == TaskAt(c, store, id).record && TaskAt(c, store, id).id == id
  {
    KeyInjective(id, id);
    if Key(id) in store {
      assert Stored(c, store, Key(id));
      KeyInjective(TaskAt(c, store, id).id, id);
    }
  }

  /** What is stored under a task's key can be edited in place. */
  lemma TaskStored(c: IsoCodec, store: Store, id: TaskId)
    requires ValidStore(c, store) && Key(id) in store
    ensures c.Exact() && store[Key(id)].JObj?
    ensures var d := store[Key(id)].fields;
            && TaskFromDict(c, d) == Some(TaskAt(c, store, id))
            && "status" in d && d["status"].JStr? && StatusOf(d["status"].s) == Some(TaskAt(c, store, id).record.status)
  {
    assert Stored(c, store, Key(id));
  }

  /** One write under a task's key moves that task's record and no other. */
  lemma WroteOne(c: IsoCodec, store: Store, id: TaskId, d: Dict)
    requires ValidStore(c, store) && TaskFromDict(c, d).Some? && TaskFromDict(c, d).value.id == id
    ensures var store' := store[Key(id) := JObj(d)];
            && ValidStore(c, store')
            && ViewOf(c, store') == ViewOf(c, store)[id := TaskFromDict(c, d).value.record]
  {
    var store' := store[Key(id) := JObj(d)];
    forall k <- store' | KEY_PREFIX <= k ensures Stored(c, store', k) {
      if k != Key(id) { assert Stored(c, store, k); }
    }
    var view, view' := ViewOf(c, store)[id := TaskFromDict(c, d).value.record], ViewOf(c, store');
    forall other: TaskId ensures (other in view' <==> other in view) && (other in view ==> view'[other] == view[other]) {
      ViewHas(c, store, other);
      ViewHas(c, store', other);
      KeyInjective(other, id);
    }
  }

  class RedisAsyncTaskRepository {
    const codec: IsoCodec
    var store: Store

    constructor (codec: IsoCodec)
      requires codec.Exact()
      ensures Valid() && View() == map[] && this.codec == codec
    {
      this.codec := codec;
      store := map[];
    }

    ghost predicate Valid()
      reads this
    {
      ValidStore(codec, store)
    }

    ghost function View(): Table
      requires Valid()
      reads this
    {
      ViewOf(codec, store)
    }

    method Create(id: TaskId, taskType: string, payload: Dict, now: int) returns (t: Task)
      requires Valid()
      modifies this
      ensures Valid() && View() == old(View())[id := NewRecord(taskType, payload)]
      ensures t == Task(id, NewRecord(taskType, payload), now, now)
    {
      t := Task(id, NewRecord(taskType, payload), now, now);
      TaskRoundTrip(codec, t);
      WroteOne(codec, store, id, TaskToDict(codec, t));
      store := store[Key(id) := JObj(TaskToDict(codec, t))];
    }

    method Get(id: TaskId) returns (t: Option<Task>)
      requires Valid()
      ensures t.Some? <==> id in View()
      ensures t.Some? ==> t.value.id == id && t.value.record == View()[id]
    {
      ViewHas(codec, store, id);
      if Key(id) !in store {
        return None;
      }
      assert Stored(codec, store, Key(id));
      t := TaskFromDict(codec, store[Key(id)].fields);
    }

    method UpdateStatus(id: TaskId, status: Status, result: Option<Dict>, error: Option<string>, now: int)
      returns (r: Result<Task, string>)
      requires Valid()
      modifies this
      ensures Valid() && View() == Update(old(View()), id, status, result, error)
      ensures r.Success? <==> id in old(View())
      ensures r.Failure? ==> r.error == "KeyError"
      ensures r.Success? ==> r.value.id == id && r.value.record == View()[id]
    {
      hide TaskFromDict, HasTextFields, EditDict, ValidStore, ViewOf, StatusOf;
      ViewHas(codec, store, id);
      if Key(id) !in store {
        return Failure("KeyError");
      }
      TaskStored(codec, store, id);
      var data := store[Key(id)].fields;
      var current := StatusOf(data["status"].s).value;
      if status !in ValidTransitions(current) {
        assert View()[id := View()[id]] == View();
        return Success(TaskFromDict(codec, data).value);
      }
      EditedTask(codec, data, status, result, error, now);
      data := EditDict(codec, data, status, result, error, now);
      WroteOne(codec, store, id, data);
      store := store[Key(id) := JObj(data)];
      return Success(TaskFromDict(codec, data).value);
    }
  }

  datatype Call =
    | CallCreate(id: TaskId, taskType: string, payload: Dict)
    | CallGet(id: TaskId)
    | CallUpdate(id: TaskId, status: Status, result: Option<Dict>, error: Option<string>)

  /** What a caller sees of a reply: nothing (`KeyError` or no task), or the id and the record. */
  datatype Reply = Nothing | Found(id: TaskId, record: Record)

  ghost function AfterCall(t: Table, c: Call): Table {
    match c
    case CallCreate(id, taskType, payload) => t[id := NewRecord(taskType, payload)]
    case CallGet(id) => t
    case CallUpdate(id, status, result, error) => Update(t, id, status, result, error)
  }

  ghost function ReplyTo(t: Table, c: Call): Reply {
    var after := AfterCall(t, c);
    if c.id in after then Found(c.id, after[c.id]) else Nothing
  }

  ghost function Replies(t: Table, calls: seq<Call>): seq<Reply>
    decreases |calls|
  {
    if calls == [] then []
    else [ReplyTo(t, calls[0])] + Replies(AfterCall(t, calls[0]), calls[1..])
  }

  lemma RepliesFrom(t: Table, calls: seq<Call>, n: nat)
    requires n <= |calls|
    ensures Replies(t, calls[n..])
         == (if n == |calls| then []
             else [ReplyTo(t, calls[n])] + Replies(AfterCall(t, calls[n]), calls[n + 1..]))
  {
    assert n < |calls| ==> calls[n..][1..] == calls[n + 1..];
  }

  method CallMemory(m: Memory.AsyncTaskRepository, c: Call) returns (reply: Reply)
    requires m.Valid()
    modifies m, m.store.Values
    ensures m.Valid() && fresh(m.store.Values - old(m.store.Values))
    ensures m.View() == AfterCall(old(m.View()), c) && reply == ReplyTo(old(m.View()), c)
  {
    match c {
      case CallCreate(id, taskType, payload) =>
        var task := m.Create(id, taskType, payload);
        assert m.View()[id] == task.Value();
        return Found(task.taskId, task.Value());
      case CallGet(id) =>
        var task := m.Get(id);
        if task == null {
          return Nothing;
        }
        assert m.View()[id] == task.Value();
        return Found(task.taskId, task.Value());
      case CallUpdate(id, status, result, error) =>
        var r := m.UpdateStatus(id, status, result, error);
        if r.Failure? {
          return Nothing;
        }
        assert m.View()[id] == r.value.Value();
        return Found(r.value.taskId, r.value.Value());
    }
  }

  method CallRedis(m: RedisAsyncTaskRepository, c: Call, now: int) returns (reply: Reply)
    requires m.Valid()
    modifies m
    ensures m.Valid()
    ensures m.View() == AfterCall(old(m.View()), c) && reply == ReplyTo(old(m.View()), c)
  {
    match c {
      case CallCreate(id, taskType, payload) =>
        var t := m.Create(id, taskType, payload, now);
        return Found(t.id, t.record);
      case CallGet(id) =>
        var t := m.Get(id);
        return if t.None? then Nothing else Found(t.value.id, t.value.record);
      case CallUpdate(id, status, result, error) =>
        var t := m.UpdateStatus(id, status, result, error, now);
        return if t.Failure? then Nothing else Found(t.value.id, t.value.record);
    }
  }

  /**
   For every sequential history of calls, whatever the clock shows, both repositories give the
   replies the table prescribes, and so the same ones.
   */
  method ReplayBoth(codec: IsoCodec, calls: seq<Call>, clock: nat -> int)
    returns (memory: seq<Reply>, redis: seq<Reply>)
    requires codec.Exact()
    ensures memory == redis == Replies(map[], calls)
  {
    hide *;
    var m := new Memory.AsyncTaskRepository();
    var r := new RedisAsyncTaskRepository(codec);
    memory, redis := [], [];
    for n := 0 to |calls|
      invariant m.Valid() && fresh(m) && fresh(m.store.Values)
      invariant r.Valid() && fresh(r)
      invariant m.View() == r.View()
      invariant memory == redis && memory + Replies(m.View(), calls[n..]) == Replies(map[], calls)
    {
      RepliesFrom(m.View(), calls, n);
      ghost var later := Replies(AfterCall(m.View(), calls[n]), calls[n + 1..]);
      var a := CallMemory(m, calls[n]);
      var b := CallRedis(r, calls[n], clock(n));
      assert memory + ([a] + later) == (memory + [a]) + later;
      memory, redis := memory + [a], redis + [b];
    }
    RepliesFrom(m.View(), calls, |calls|);
  }
}
