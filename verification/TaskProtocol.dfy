/**
 Submitters, cancellers and workers interleaved over one task table.
 Each repository call is one atomic step; everything between two calls may be interleaved
 with any step of any other actor. Delivery is at least once: a published task may be
 delivered any number of times, and a crashed or killed worker is one that takes no further step.
 */
module TaskProtocol {
  import opened Wrappers
  import opened Json
  import opened TaskTable

  datatype SubmitPc = ToPublish | ToCompensate | SubmitEnded
  datatype CancelPc = ToRead | ToUpdate | CancelEnded
  datatype WorkerPc = AtGuard | AtRunning | AtHandler | AtFinish(outcome: Outcome) | InTry | AtLateFail | Ended

  datatype SubmitCall = SubmitCall(id: TaskId, pc: SubmitPc)
  datatype CancelCall = CancelCall(id: TaskId, pc: CancelPc)
  datatype Worker = Worker(id: TaskId, pc: WorkerPc)

  datatype Sys = Sys(table: Table, published: set<TaskId>, submits: map<nat, SubmitCall>,
                     cancels: map<nat, CancelCall>, workers: map<nat, Worker>)

  const INIT := Sys(map[], {}, map[], map[], map[])

  datatype Event =
    | Creates(call: nat, id: TaskId, taskType: string, payload: Dict)
    | Publishes(call: nat)
    | PublishFails(call: nat, sent: bool)
    | Compensates(call: nat)
    | CancelStarts(call: nat, id: TaskId)
    | CancelReads(call: nat)
    | CancelUpdates(call: nat)
    | Delivers(worker: nat, id: TaskId)
    | GuardReads(worker: nat)
    | MarksRunning(worker: nat)
    | HandlerRuns(worker: nat, outcome: Outcome)
    | Finishes(worker: nat)
    | LateTimeout(worker: nat)
    | LateFails(worker: nat)

  function GuardPc(t: Table, id: TaskId): WorkerPc {
    if id in t && t[id].status == Cancelled then Ended else AtRunning
  }

  function SubmitStep(s: Sys, e: Event): Option<Sys>
    requires e.Publishes? || e.PublishFails? || e.Compensates?
  {
    if e.call !in s.submits then None
    else
      var c := s.submits[e.call];
      match e
      case Publishes(_) =>
        if !c.pc.ToPublish? then None
        else Some(s.(published := s.published + {c.id}, submits := s.submits[e.call := c.(pc := SubmitEnded)]))
      case PublishFails(_, sent) =>
        if !c.pc.ToPublish? then None
        else Some(s.(published := if sent then s.published + {c.id} else s.published,
                     submits := s.submits[e.call := c.(pc := ToCompensate)]))
      case Compensates(_) =>
        if !c.pc.ToCompensate? then None
        else Some(s.(table := Update(s.table, c.id, Cancelled, None, None),
                     submits := s.submits[e.call := c.(pc := SubmitEnded)]))
  }

  function CancelStep(s: Sys, e: Event): Option<Sys>
    requires e.CancelReads? || e.CancelUpdates?
  {
    if e.call !in s.cancels then None
    else
      var c := s.cancels[e.call];
      match e
      case CancelReads(_) =>
        if !c.pc.ToRead? then None
        else
          var queued := c.id in s.table && s.table[c.id].status == Queued;
          Some(s.(cancels := s.cancels[e.call := c.(pc := if queued then ToUpdate else CancelEnded)]))
      case CancelUpdates(_) =>
        if !c.pc.ToUpdate? then None
        else Some(s.(table := Update(s.table, c.id, Cancelled, None, None),
                     cancels := s.cancels[e.call := c.(pc := CancelEnded)]))
  }

  predicate IsWorkerStep(e: Event) {
    e.GuardReads? || e.MarksRunning? || e.HandlerRuns? || e.Finishes? || e.LateTimeout? || e.LateFails?
  }

  /** An update on a missing id raises, which ends the worker. */
  function WorkerStep(s: Sys, e: Event): Option<Sys>
    requires IsWorkerStep(e)
  {
    if e.worker !in s.workers then None
    else
      var w := s.workers[e.worker];
      var known := w.id in s.table;
      match e
      case GuardReads(_) =>
        if !w.pc.AtGuard? then None else Some(At(s, e.worker, GuardPc(s.table, w.id)))
      case MarksRunning(_) =>
        if !w.pc.AtRunning? then None
        else Some(At(s.(table := Update(s.table, w.id, Running, None, None)), e.worker, if known then AtHandler else Ended))
      case HandlerRuns(_, outcome) =>
        if !w.pc.AtHandler? then None else Some(At(s, e.worker, AtFinish(outcome)))
      case Finishes(_) =>
        if !w.pc.AtFinish? then None
        else
          var o := w.pc.outcome;
          Some(At(s.(table := Update(s.table, w.id, FinalStatus(o), FinalResult(o), FinalError(o))), e.worker,
                  if o.Returned? && known then InTry else Ended))
      case LateTimeout(_) =>
        if !w.pc.InTry? then None else Some(At(s, e.worker, AtLateFail))
      case LateFails(_) =>
        if !w.pc.AtLateFail? then None
        else Some(At(s.(table := Update(s.table, w.id, Failed, None, Some(TIMEOUT_MESSAGE))), e.worker, Ended))
  }

  function At(s: Sys, worker: nat, pc: WorkerPc): Sys
    requires worker in s.workers
  {
    s.(workers := s.workers[worker := s.workers[worker].(pc := pc)])
  }

  /** The successor state, or None where the event is not enabled. */
  function Next(s: Sys, e: Event): Option<Sys> {
    match e
    case Creates(call, id, taskType, payload) =>
      if call in s.submits then None
      else Some(s.(table := s.table[id := NewRecord(taskType, payload)],
                   submits := s.submits[call := SubmitCall(id, ToPublish)]))
    case CancelStarts(call, id) =>
      if call in s.cancels then None
      else Some(s.(cancels := s.cancels[call := CancelCall(id, ToRead)]))
    case Delivers(worker, id) =>
      if worker in s.workers || id !in s.published then None
      else Some(s.(workers := s.workers[worker := Worker(id, AtGuard)]))
    case Publishes(_) => SubmitStep(s, e)
    case PublishFails(_, _) => SubmitStep(s, e)
    case Compensates(_) => SubmitStep(s, e)
    case CancelReads(_) => CancelStep(s, e)
    case CancelUpdates(_) => CancelStep(s, e)
    case _ => WorkerStep(s, e)
  }

  /** A run: any finite interleaving, from the empty system. */
  datatype Run = Run(states: seq<Sys>, events: seq<Event>) {
    ghost predicate Valid() {
      && |states| == |events| + 1
      && states[0] == INIT
      && forall i | 0 <= i < |events| :: Next(states[i], events[i]) == Some(states[i + 1])
    }

    /** No submit reuses the id of an existing task. */
    ghost predicate DistinctIds()
      requires Valid()
    {
      forall i | 0 <= i < |events| :: FreshCreate(states[i], events[i])
    }

    lemma Step(i: nat)
      requires Valid() && i < |events|
      ensures Next(states[i], events[i]) == Some(states[i + 1])
    {
    }

    ghost predicate Has(i: nat, id: TaskId) {
      i < |states| && id in states[i].table
    }

    ghost predicate WorksOn(i: nat, w: nat, id: TaskId) {
      i < |states| && w in states[i].workers && states[i].workers[w].id == id
    }
  }

  ghost predicate FreshCreate(s: Sys, e: Event) {
    e.Creates? ==> e.id !in s.table
  }

  // ---------------------------------------------------------------- one step

  ghost predicate IsEdge(before: Record, after: Record) {
    || before == after
    || (after.taskType == before.taskType && after.payload == before.payload && Follows(before.status, after.status))
  }

  lemma StepEdge(s: Sys, e: Event, s': Sys, id: TaskId)
    requires Next(s, e) == Some(s') && id in s.table
    requires e.Creates? ==> e.id != id
    ensures id in s'.table && IsEdge(s.table[id], s'.table[id])
    ensures s'.table[id].status == s.table[id].status ==> s'.table[id] == s.table[id]
  {
  }

  /** Without any assumption on ids: a finished record changes exactly when its id is created again. */
  lemma TerminalChangesIff(s: Sys, e: Event, s': Sys, id: TaskId)
    requires Next(s, e) == Some(s') && id in s.table && s.table[id].status in TERMINAL_STATES
    ensures id in s'.table
    ensures s'.table[id] != s.table[id] <==> e.Creates? && e.id == id
  {
  }

  function PcRank(pc: WorkerPc): nat {
    match pc
    case AtGuard => 0
    case AtRunning => 1
    case AtHandler => 2
    case AtFinish(_) => 3
    case InTry => 4
    case AtLateFail => 5
    case Ended => 6
  }

  /** A step leaves every worker where it is, except the one that takes it, which moves forward. */
  lemma WorkerFrame(s: Sys, e: Event, s': Sys, w: nat)
    requires Next(s, e) == Some(s') && w in s.workers
    ensures w in s'.workers && s'.workers[w].id == s.workers[w].id
    ensures IsWorkerStep(e) && e.worker == w ==> PcRank(s.workers[w].pc) < PcRank(s'.workers[w].pc)
    ensures !(IsWorkerStep(e) && e.worker == w) ==> s'.workers[w] == s.workers[w]
  {
  }

  /** How a worker comes to be where it is: it was there already, or its own last step put it there. */
  lemma WorkerArrives(s: Sys, e: Event, s': Sys, w: nat)
    requires Next(s, e) == Some(s') && w in s'.workers && s'.workers[w].pc != AtGuard
    ensures w in s.workers && s.workers[w].id == s'.workers[w].id
    ensures var before, after := s.workers[w], s'.workers[w];
            || before == after
            || (after.pc.AtRunning? && e == GuardReads(w)
                && (after.id in s.table ==> s.table[after.id].status != Cancelled))
            || (after.pc.AtHandler? && e == MarksRunning(w) && before.pc.AtRunning?)
            || (after.pc.AtFinish? && e == HandlerRuns(w, after.pc.outcome))
            || PcRank(after.pc) > 3
  {
  }

  // ---------------------------------------------------------------- the invariant

  ghost predicate PastRunning(pc: WorkerPc) {
    pc.AtHandler? || pc.AtFinish? || pc.InTry? || pc.AtLateFail?
  }

  ghost predicate WorkerOk(s: Sys, w: Worker) {
    && w.id in s.published
    && w.id in s.table
    && (PastRunning(w.pc) ==> s.table[w.id].status != Queued)
    && (w.pc.InTry? || w.pc.AtLateFail? ==> s.table[w.id].status in TERMINAL_STATES)
  }

  ghost predicate Inv(s: Sys) {
    && s.published <= s.table.Keys
    && (forall id <- s.table :: WellFormed(s.table[id]))
    && (forall c <- s.submits :: s.submits[c].id in s.table)
    && (forall w <- s.workers :: WorkerOk(s, s.workers[w]))
  }

  lemma InvStepRecords(s: Sys, e: Event, s': Sys, id: TaskId)
    requires Inv(s) && FreshCreate(s, e) && Next(s, e) == Some(s') && id in s'.table
    ensures WellFormed(s'.table[id])
  {
    if id in s.table {
      assert WellFormed(s.table[id]);
    }
    if e.LateFails? && e.worker in s.workers {
      assert WorkerOk(s, s.workers[e.worker]);
    }
  }

  lemma InvStepWorkers(s: Sys, e: Event, s': Sys, w: nat)
    requires Inv(s) && FreshCreate(s, e) && Next(s, e) == Some(s') && w in s'.workers
    ensures WorkerOk(s', s'.workers[w])
  {
    var id := s'.workers[w].id;
    if w in s.workers {
      assert WorkerOk(s, s.workers[w]);
      WorkerFrame(s, e, s', w);
    }
    StepEdge(s, e, s', id);
  }

  lemma InvStep(s: Sys, e: Event, s': Sys)
    requires Inv(s) && FreshCreate(s, e) && Next(s, e) == Some(s')
    ensures Inv(s')
  {
    assert s'.published <= s'.table.Keys && forall c <- s'.submits :: s'.submits[c].id in s'.table;
    hide Next;
    forall id <- s'.table ensures WellFormed(s'.table[id]) { InvStepRecords(s, e, s', id); }
    forall w <- s'.workers ensures WorkerOk(s', s'.workers[w]) { InvStepWorkers(s, e, s', w); }
  }

  lemma InvHolds(run: Run, i: nat)
    requires run.Valid() && run.DistinctIds() && i < |run.states|
    ensures Inv(run.states[i])
  {
    if i > 0 {
      InvHolds(run, i - 1);
      InvStep(run.states[i - 1], run.events[i - 1], run.states[i]);
    }
  }

  // ---------------------------------------------------------------- status histories

  /** Every status a task was seen to take, one entry for its creation and one for each accepted update. */
  ghost function History(run: Run, id: TaskId, n: nat): seq<Status>
    requires n < |run.states|
  {
    if n == 0 then []
    else
      var before := History(run, id, n - 1);
      if run.Has(n, id) && (!run.Has(n - 1, id) || run.states[n].table[id].status != run.states[n - 1].table[id].status)
      then before + [run.states[n].table[id].status]
      else before
  }

  ghost predicate Follows(before: Status, after: Status) {
    (before == Queued && after in {Running, Cancelled}) || (before == Running && after in {Completed, Failed})
  }

  ghost predicate IsPath(h: seq<Status>) {
    && (h != [] ==> h[0] == Queued)
    && forall i | 0 < i < |h| :: Follows(h[i - 1], h[i])
  }

  function Rank(s: Status): nat {
    match s case Queued => 0 case Running => 1 case _ => 2
  }

  lemma StepAppears(s: Sys, e: Event, s': Sys, id: TaskId)
    requires Next(s, e) == Some(s') && id in s'.table && id !in s.table
    ensures s'.table[id].status == Queued
  {
  }

  lemma NewPath()
    ensures IsPath([]) && IsPath([Queued])
  {
  }

  lemma PathExtends(h: seq<Status>, s: Status)
    requires IsPath(h) && h != []
    ensures Follows(h[|h| - 1], s) ==> IsPath(h + [s])
  {
    hide Follows;
    var longer := h + [s];
    forall i | 0 < i < |longer| && Follows(h[|h| - 1], s) ensures Follows(longer[i - 1], longer[i]) {
      if i < |h| { assert Follows(h[i - 1], h[i]); }
    }
  }

  lemma {:induction false} HistoryInvariant(run: Run, id: TaskId, n: nat)
    requires run.Valid() && run.DistinctIds() && n < |run.states|
    ensures var h := History(run, id, n);
            && IsPath(h)
            && (h == [] <==> !run.Has(n, id))
            && (h != [] ==> h[|h| - 1] == run.states[n].table[id].status && |h| <= 1 + Rank(h[|h| - 1]))
  {
    if n == 0 {
      NewPath();
    } else {
      HistoryInvariant(run, id, n - 1);
      run.Step(n - 1);
      assert FreshCreate(run.states[n - 1], run.events[n - 1]);
      hide Next, IsPath;
      NewPath();
      if run.Has(n, id) && run.Has(n - 1, id) && History(run, id, n - 1) != [] {
        PathExtends(History(run, id, n - 1), run.states[n].table[id].status);
      }
      if run.Has(n, id) && !run.Has(n - 1, id) {
        StepAppears(run.states[n - 1], run.events[n - 1], run.states[n], id);
      }
      if run.Has(n - 1, id) {
        StepEdge(run.states[n - 1], run.events[n - 1], run.states[n], id);
      }
    }
  }

  /** In every run each status history is a path of the table with at most two accepted updates. */
  lemma HistoryIsPath(run: Run, id: TaskId, n: nat)
    requires run.Valid() && run.DistinctIds() && n < |run.states|
    ensures IsPath(History(run, id, n)) && |History(run, id, n)| <= 1 + 2
  {
    HistoryInvariant(run, id, n);
  }

  lemma TerminalStays(run: Run, id: TaskId, i: nat)
    requires run.Valid() && run.DistinctIds() && i < |run.events|
    requires run.Has(i, id) && run.states[i].table[id].status in TERMINAL_STATES
    ensures run.Has(i + 1, id) && run.states[i + 1].table[id] == run.states[i].table[id]
  {
    assert FreshCreate(run.states[i], run.events[i]);
    TerminalChangesIff(run.states[i], run.events[i], run.states[i + 1], id);
  }

  /** Once finished, a record never changes again. */
  lemma {:induction false} TerminalForever(run: Run, id: TaskId, i: nat, j: nat)
    requires run.Valid() && run.DistinctIds() && i <= j < |run.states|
    requires run.Has(i, id) && run.states[i].table[id].status in TERMINAL_STATES
    ensures run.Has(j, id) && run.states[j].table[id] == run.states[i].table[id]
    decreases j
  {
    if i < j {
      TerminalForever(run, id, i, j - 1);
      TerminalStays(run, id, j - 1);
    }
  }

  // ---------------------------------------------------------------- what a finished record holds

  /** A worker keeps its task, and carries an outcome only because its handler produced it. */
  lemma {:induction false} OutcomeComesFromHandler(run: Run, i: nat, w: nat) returns (k: nat)
    requires run.Valid() && i < |run.states|
    requires w in run.states[i].workers && run.states[i].workers[w].pc.AtFinish?
    ensures k < i && run.events[k] == HandlerRuns(w, run.states[i].workers[w].pc.outcome)
    ensures run.WorksOn(k, w, run.states[i].workers[w].id)
  {
    hide Next;
    run.Step(i - 1);
    WorkerArrives(run.states[i - 1], run.events[i - 1], run.states[i], w);
    if run.states[i - 1].workers[w] == run.states[i].workers[w] {
      k := OutcomeComesFromHandler(run, i - 1, w);
    } else {
      k := i - 1;
    }
  }

  /** Step `f` is the finishing update of worker `w` on task `id`, carrying outcome `o`. */
  ghost predicate FinishedBy(run: Run, f: nat, w: nat, id: TaskId, o: Outcome) {
    && f < |run.events| && f < |run.states|
    && run.events[f] == Finishes(w)
    && w in run.states[f].workers && run.states[f].workers[w] == Worker(id, AtFinish(o))
  }

  /** The record shows the outcome and nothing of any other. */
  ghost predicate Holds(r: Record, o: Outcome) {
    Shows(r.(status := Running, result := None, error := None), r, o)
  }

  lemma AcceptedFinish(s: Sys, e: Event, s': Sys, id: TaskId)
    requires Inv(s) && FreshCreate(s, e) && Next(s, e) == Some(s')
    requires id in s'.table && s'.table[id].status in {Completed, Failed}
    requires id in s.table ==> s.table[id] != s'.table[id]
    ensures e.Finishes? && e.worker in s.workers && s.workers[e.worker].pc.AtFinish? && s.workers[e.worker].id == id
    ensures id in s.table && s.table[id].status == Running && Holds(s'.table[id], s.workers[e.worker].pc.outcome)
  {
    if id in s.table {
      assert WellFormed(s.table[id]);
    }
    assert e.LateFails? ==> WorkerOk(s, s.workers[e.worker]);
  }

  lemma {:induction false} FinishingStep(run: Run, i: nat, id: TaskId) returns (f: nat, w: nat, o: Outcome)
    requires run.Valid() && run.DistinctIds() && i < |run.states|
    requires run.Has(i, id) && run.states[i].table[id].status in {Completed, Failed}
    ensures f < i && FinishedBy(run, f, w, id, o) && Holds(run.states[i].table[id], o)
    ensures run.Has(f, id) && run.states[f].table[id].status == Running
  {
    hide Next;
    var s, e := run.states[i - 1], run.events[i - 1];
    run.Step(i - 1);
    assert FreshCreate(s, e);
    InvHolds(run, i - 1);
    if id in s.table && s.table[id] == run.states[i].table[id] {
      f, w, o := FinishingStep(run, i - 1, id);
    } else {
      AcceptedFinish(s, e, run.states[i], id);
      f, w, o := i - 1, e.worker, s.workers[e.worker].pc.outcome;
    }
  }

  /**
   A completed record is exactly what one handler execution returned, with no error; a failed one
   is exactly how one handler execution failed, with an error; any other record has neither.
   */
  lemma RecordHoldsOneOutcome(run: Run, i: nat, id: TaskId)
    requires run.Valid() && run.DistinctIds() && run.Has(i, id)
    ensures var r := run.states[i].table[id];
            && (r.status == Completed ==>
                  && r.error.None?
                  && exists k: nat, w: nat, value: Option<Dict> ::
                       k < i && run.events[k] == HandlerRuns(w, Returned(value)) && run.WorksOn(k, w, id) && r.result == value)
            && (r.status == Failed ==>
                  exists k: nat, w: nat, o: Outcome ::
                    k < i && run.events[k] == HandlerRuns(w, o) && !o.Returned? && run.WorksOn(k, w, id) && Holds(r, o))
            && (r.status in {Queued, Running, Cancelled} ==> r.result.None? && r.error.None?)
  {
    InvHolds(run, i);
    if run.states[i].table[id].status in {Completed, Failed} {
      var f, w, o := FinishingStep(run, i, id);
      var k := OutcomeComesFromHandler(run, f, w);
      assert k < i && run.events[k] == HandlerRuns(w, o) && run.WorksOn(k, w, id);
    }
  }

  /** Of several deliveries of a task that is not cancelled, the first to finish decides it for good. */
  lemma FirstFinishWins(run: Run, f: nat, w: nat, id: TaskId, o: Outcome, j: nat)
    requires run.Valid() && run.DistinctIds() && FinishedBy(run, f, w, id, o)
    requires forall g: nat, v: nat, p: Outcome | g < f :: !FinishedBy(run, g, v, id, p)
    requires run.Has(f, id) && run.states[f].table[id].status != Cancelled
    requires f < j < |run.states|
    ensures run.Has(j, id) && Holds(run.states[j].table[id], o)
  {
    InvHolds(run, f);
    assert WorkerOk(run.states[f], run.states[f].workers[w]);
    assert Next(run.states[f], run.events[f]) == Some(run.states[f + 1]);
    if run.states[f].table[id].status != Running {
      var g, v, p := FinishingStep(run, f, id);
      assert false;
    }
    assert WellFormed(run.states[f].table[id]);
    assert Holds(run.states[f + 1].table[id], o);
    TerminalForever(run, id, f + 1, j);
  }

  /** Every repository call of a worker finds its task: no delivery dies on a missing record. */
  lemma WorkersFindTheirTask(run: Run, i: nat)
    requires run.Valid() && run.DistinctIds() && i < |run.events| && IsWorkerStep(run.events[i])
    ensures run.events[i].worker in run.states[i].workers
    ensures run.Has(i, run.states[i].workers[run.events[i].worker].id)
  {
    InvHolds(run, i);
    assert Next(run.states[i], run.events[i]) == Some(run.states[i + 1]);
    assert WorkerOk(run.states[i], run.states[i].workers[run.events[i].worker]);
  }

  // ---------------------------------------------------------------- cancellation

  lemma {:induction false} WorkersMoveForward(run: Run, w: nat, i: nat, j: nat)
    requires run.Valid() && i <= j < |run.states| && w in run.states[i].workers
    ensures w in run.states[j].workers && run.states[j].workers[w].id == run.states[i].workers[w].id
    ensures PcRank(run.states[i].workers[w].pc) <= PcRank(run.states[j].workers[w].pc)
    decreases j
  {
    hide Next;
    if i < j {
      WorkersMoveForward(run, w, i, j - 1);
      run.Step(j - 1);
      WorkerFrame(run.states[j - 1], run.events[j - 1], run.states[j], w);
    }
  }

  /** A worker whose guard read comes after the cancel never calls the handler, before or after. */
  lemma GuardAfterCancelSkips(run: Run, id: TaskId, c: nat, g: nat, w: nat, k: nat)
    requires run.Valid() && run.DistinctIds()
    requires run.Has(c, id) && run.states[c].table[id].status == Cancelled
    requires c <= g < |run.events| && run.events[g] == GuardReads(w) && run.WorksOn(g, w, id)
    requires k < |run.events|
    ensures !(run.events[k].HandlerRuns? && run.events[k].worker == w)
  {
    TerminalForever(run, id, c, g);
    assert Next(run.states[g], run.events[g]) == Some(run.states[g + 1]);
    assert Next(run.states[k], run.events[k]) == Some(run.states[k + 1]);
    if run.events[k].HandlerRuns? && run.events[k].worker == w {
      if k < g {
        WorkersMoveForward(run, w, k, g);
      } else if k > g {
        WorkersMoveForward(run, w, g + 1, k);
      }
      assert false;
    }
  }

  lemma {:induction false} GuardPassedAt(run: Run, i: nat, w: nat) returns (g: nat)
    requires run.Valid() && i < |run.states|
    requires w in run.states[i].workers && run.states[i].workers[w].pc.AtRunning?
    ensures g < i && run.events[g] == GuardReads(w) && run.WorksOn(g, w, run.states[i].workers[w].id)
    ensures run.Has(g, run.states[i].workers[w].id) ==>
              run.states[g].table[run.states[i].workers[w].id].status != Cancelled
  {
    hide Next;
    run.Step(i - 1);
    WorkerArrives(run.states[i - 1], run.events[i - 1], run.states[i], w);
    if run.states[i - 1].workers[w] == run.states[i].workers[w] {
      g := GuardPassedAt(run, i - 1, w);
    } else {
      g := i - 1;
    }
  }

  lemma {:induction false} MarkedRunningAt(run: Run, i: nat, w: nat) returns (r: nat)
    requires run.Valid() && i < |run.states|
    requires w in run.states[i].workers && run.states[i].workers[w].pc.AtHandler?
    ensures r < i && run.events[r] == MarksRunning(w) && run.WorksOn(r, w, run.states[i].workers[w].id)
    ensures run.states[r].workers[w].pc.AtRunning?
  {
    hide Next;
    run.Step(i - 1);
    WorkerArrives(run.states[i - 1], run.events[i - 1], run.states[i], w);
    if run.states[i - 1].workers[w] == run.states[i].workers[w] {
      r := MarkedRunningAt(run, i - 1, w);
    } else {
      r := i - 1;
    }
  }

  ghost predicate CancelLandsAt(run: Run, c: nat, id: TaskId) {
    && c < |run.events|
    && (run.events[c].CancelUpdates? || run.events[c].Compensates?)
    && run.Has(c, id) && run.states[c].table[id].status == Queued
    && run.Has(c + 1, id) && run.states[c + 1].table[id].status == Cancelled
  }

  lemma CancellingStep(s: Sys, e: Event, s': Sys, id: TaskId)
    requires FreshCreate(s, e) && Next(s, e) == Some(s') && id in s.table && s.table[id].status != Cancelled
    ensures id in s'.table
    ensures s'.table[id].status == Cancelled ==> s.table[id].status == Queued && (e.CancelUpdates? || e.Compensates?)
  {
  }

  lemma {:induction false} CancelBetween(run: Run, id: TaskId, a: nat, b: nat) returns (c: nat)
    requires run.Valid() && run.DistinctIds() && a <= b < |run.states|
    requires run.Has(a, id) && run.states[a].table[id].status != Cancelled
    requires run.Has(b, id) && run.states[b].table[id].status == Cancelled
    ensures a <= c < b && CancelLandsAt(run, c, id)
    decreases b - a
  {
    hide Next;
    run.Step(a);
    assert FreshCreate(run.states[a], run.events[a]);
    CancellingStep(run.states[a], run.events[a], run.states[a + 1], id);
    if run.states[a + 1].table[id].status == Cancelled {
      c := a;
    } else {
      c := CancelBetween(run, id, a + 1, b);
    }
  }

  lemma StartedStays(run: Run, id: TaskId, i: nat)
    requires run.Valid() && run.DistinctIds() && i < |run.events|
    requires run.Has(i, id) && run.states[i].table[id].status in {Running, Completed, Failed}
    ensures run.Has(i + 1, id) && run.states[i + 1].table[id].status in {Running, Completed, Failed}
  {
    assert FreshCreate(run.states[i], run.events[i]);
    StepEdge(run.states[i], run.events[i], run.states[i + 1], id);
  }

  lemma {:induction false} StartedIsNeverCancelled(run: Run, id: TaskId, i: nat, j: nat)
    requires run.Valid() && run.DistinctIds() && i <= j < |run.states|
    requires run.Has(i, id) && run.states[i].table[id].status in {Running, Completed, Failed}
    ensures run.Has(j, id) && run.states[j].table[id].status in {Running, Completed, Failed}
    decreases j
  {
    hide Next;
    if i < j {
      StartedIsNeverCancelled(run, id, i, j - 1);
      StartedStays(run, id, j - 1);
    }
  }

  /** The record was already cancelled when this worker marked it running, if it is cancelled at any time. */
  lemma CancelledBeforeRunningMark(run: Run, id: TaskId, r: nat, w: nat, m: nat)
    requires run.Valid() && run.DistinctIds()
    requires r < |run.events| && run.events[r] == MarksRunning(w) && run.WorksOn(r, w, id)
    requires run.Has(m, id) && run.states[m].table[id].status == Cancelled
    ensures run.Has(r, id) && run.states[r].table[id].status == Cancelled
  {
    WorkersFindTheirTask(run, r);
    assert Next(run.states[r], run.events[r]) == Some(run.states[r + 1]);
    if run.states[r].table[id].status != Cancelled {
      if m <= r {
        TerminalForever(run, id, m, r);
      } else {
        StartedIsNeverCancelled(run, id, r + 1, m);
      }
      assert false;
    }
  }

  /**
   A handler runs for a task that is cancelled only if the cancel landed between that worker's
   guard read and its "running" update.
   */
  lemma HandlerOfCancelledTask(run: Run, id: TaskId, k: nat, w: nat, m: nat) returns (g: nat, c: nat, r: nat)
    requires run.Valid() && run.DistinctIds()
    requires k < |run.events| && run.events[k].HandlerRuns? && run.events[k].worker == w && run.WorksOn(k, w, id)
    requires run.Has(m, id) && run.states[m].table[id].status == Cancelled
    ensures g < c < r < k
    ensures run.events[g] == GuardReads(w) && CancelLandsAt(run, c, id) && run.events[r] == MarksRunning(w)
    ensures run.WorksOn(r, w, id)
  {
    assert Next(run.states[k], run.events[k]) == Some(run.states[k + 1]);
    r := MarkedRunningAt(run, k, w);
    g := GuardPassedAt(run, r, w);
    WorkersFindTheirTask(run, g);
    CancelledBeforeRunningMark(run, id, r, w, m);
    c := CancelBetween(run, id, g, r);
  }

  /** Such a worker never alters any stored record, at any of its steps. */
  lemma CancelledWorkIsInert(run: Run, id: TaskId, k: nat, w: nat, m: nat, i: nat)
    requires run.Valid() && run.DistinctIds()
    requires k < |run.events| && run.events[k].HandlerRuns? && run.events[k].worker == w && run.WorksOn(k, w, id)
    requires run.Has(m, id) && run.states[m].table[id].status == Cancelled
    requires i < |run.events| && IsWorkerStep(run.events[i]) && run.events[i].worker == w
    ensures run.states[i + 1].table == run.states[i].table
  {
    hide Next;
    var _, c, r := HandlerOfCancelledTask(run, id, k, w, m);
    run.Step(i);
    if i < r {
      run.Step(r);
      WorkersFindTheirTask(run, i);
      WorkersMoveForward(run, w, i, i + 1);
      WorkersMoveForward(run, w, i + 1, r);
      MarkNeedsGuardPassed(run.states[r], w, run.states[r + 1]);
      EarlyStepIsInert(run.states[i], run.events[i], run.states[i + 1]);
    } else {
      WorkersMoveForward(run, w, r, i);
      TerminalForever(run, id, c + 1, i);
      StepOnTerminalIsInert(run.states[i], run.events[i], run.states[i + 1]);
    }
  }

  lemma MarkNeedsGuardPassed(s: Sys, w: nat, s': Sys)
    requires Next(s, MarksRunning(w)) == Some(s')
    ensures w in s.workers && s.workers[w].pc.AtRunning?
  {
  }

  lemma EarlyStepIsInert(s: Sys, e: Event, s': Sys)
    requires Next(s, e) == Some(s') && IsWorkerStep(e)
    requires e.worker in s'.workers && PcRank(s'.workers[e.worker].pc) <= PcRank(AtRunning)
    ensures s'.table == s.table
  {
  }

  lemma StepOnTerminalIsInert(s: Sys, e: Event, s': Sys)
    requires Next(s, e) == Some(s') && IsWorkerStep(e) && e.worker in s.workers
    requires s.workers[e.worker].id in s.table && s.table[s.workers[e.worker].id].status in TERMINAL_STATES
    ensures s'.table == s.table
  {
    var id := s.workers[e.worker].id;
    assert s.table[id := s.table[id]] == s.table;
  }

  // ---------------------------------------------------------------- reused ids

  /** With a reused id the absorption is lost: a cancelled task is queued again. */
  lemma ReusedIdRevives(id: TaskId) returns (run: Run)
    ensures run.Valid() && !run.DistinctIds()
    ensures run.Has(3, id) && run.states[3].table[id].status == Cancelled
    ensures run.Has(4, id) && run.states[4].table[id].status == Queued
  {
    var events := [Creates(0, id, "import", map[]), PublishFails(0, false), Compensates(0), Creates(1, id, "import", map[])];
    var s1 := Next(INIT, events[0]).value;
    var s2 := Next(s1, events[1]).value;
    var s3 := Next(s2, events[2]).value;
    var s4 := Next(s3, events[3]).value;
    run := Run([INIT, s1, s2, s3, s4], events);
    assert !FreshCreate(run.states[3], run.events[3]);
  }

  // ---------------------------------------------------------------- a worker alone

  /**
   Four consecutive steps of one worker, each of them possible, do to the table what the uninterrupted
   worker method promises. Only a worker whose handler returned is still in reach of a late timeout.
   */
  lemma UninterruptedWorker(s: Sys, w: nat, o: Outcome)
    requires w in s.workers && s.workers[w].pc.AtGuard? && s.workers[w].id in s.table
    requires s.table[s.workers[w].id].status != Cancelled
    ensures var id := s.workers[w].id;
            var s1 := Next(s, GuardReads(w));
            && s1.Some? && s1.value.table == s.table
            && var s2 := Next(s1.value, MarksRunning(w));
            && s2.Some?
            && var s3 := Next(s2.value, HandlerRuns(w, o));
            && s3.Some? && s3.value.table == s2.value.table
            && var s4 := Next(s3.value, Finishes(w));
            && s4.Some? && s4.value.table == DispatchedTable(s.table, id, o)
            && s4.value.table.Keys == s.table.Keys && (forall other <- s.table :: other != id ==> s4.value.table[other] == s.table[other])
            && (if s.table[id].status in {Queued, Running} then Shows(s.table[id], s4.value.table[id], o)
                else s4.value.table[id] == s.table[id])
            && s4.value.workers[w].pc == (if o.Returned? then InTry else Ended)
  {
    hide Update, Shows, DispatchedTable, FinalStatus, FinalResult, FinalError;
    var id := s.workers[w].id;
    WorkerRunAlone(s.table, id, o);
    UpdateKeeps(s.table, id, Running, None, None);
  }

  lemma UpdateKeeps(t: Table, id: TaskId, status: Status, result: Option<Dict>, error: Option<string>)
    ensures Update(t, id, status, result, error).Keys == t.Keys
  {
  }

  /** A late timeout fails what is still running and changes no finished task; then the worker has ended. */
  lemma LateTimeoutEnds(s: Sys, w: nat)
    requires w in s.workers && s.workers[w].pc.InTry?
    ensures var s1 := Next(s, LateTimeout(w));
            && s1.Some? && s1.value.table == s.table
            && var s2 := Next(s1.value, LateFails(w));
            && s2.Some? && s2.value.workers[w].pc == Ended
            && s2.value.table == Update(s.table, s.workers[w].id, Failed, None, Some("Task exceeded configured timeout"))
  {
    hide Update;
  }

  /** A worker that finds its task cancelled, alone or not, ends without a step of its own on the table. */
  lemma CancelledDeliveryEnds(s: Sys, w: nat)
    requires w in s.workers && s.workers[w].pc.AtGuard?
    requires s.workers[w].id in s.table && s.table[s.workers[w].id].status == Cancelled
    ensures var s1 := Next(s, GuardReads(w));
            s1.Some? && s1.value.table == s.table && s1.value.workers[w].pc == Ended
  {
  }

  /** A cancel that nothing interleaves with cancels a queued task, and leaves the table otherwise. */
  lemma UninterruptedCancel(s: Sys, call: nat, id: TaskId)
    requires call !in s.cancels
    ensures var s1 := Next(s, CancelStarts(call, id));
            && s1.Some? && s1.value.table == s.table
            && var s2 := Next(s1.value, CancelReads(call));
            && s2.Some? && s2.value.table == s.table
            && if id in s.table && s.table[id].status == Queued then
                 var s3 := Next(s2.value, CancelUpdates(call));
                 s3.Some? && s3.value.table == s.table[id := s.table[id].(status := Cancelled)]
               else Next(s2.value, CancelUpdates(call)).None?
  {
    hide Update;
    if id in s.table && s.table[id].status == Queued { CancelsQueued(s.table, id); }
  }

  /** A submit that nothing interleaves with leaves a queued and published task, or a cancelled one when publishing fails. */
  lemma UninterruptedSubmit(s: Sys, call: nat, id: TaskId, taskType: string, payload: Dict, sent: bool)
    requires call !in s.submits
    ensures var s1 := Next(s, Creates(call, id, taskType, payload));
            && s1.Some? && s1.value.table == s.table[id := Record(taskType, payload, Queued, None, None)]
            && s1.value.published == s.published
            && (var s2 := Next(s1.value, Publishes(call));
                s2.Some? && s2.value.table == s1.value.table && s2.value.published == s.published + {id})
            && (var s2 := Next(s1.value, PublishFails(call, sent));
                && s2.Some? && s2.value.published == s.published + (if sent then {id} else {})
                && var s3 := Next(s2.value, Compensates(call));
                   s3.Some? && s3.value.table == s.table[id := Record(taskType, payload, Cancelled, None, None)])
  {
    hide Update;
    CancelsNew(s.table, id, taskType, payload);
  }

  /** Any published task can be delivered, any number of times, to a worker that starts at its guard. */
  lemma AnyDelivery(s: Sys, w: nat, id: TaskId)
    requires w !in s.workers && id in s.published
    ensures Next(s, Delivers(w, id)) == Some(s.(workers := s.workers[w := Worker(id, AtGuard)]))
  {
  }
}
