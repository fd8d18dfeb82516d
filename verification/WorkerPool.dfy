/**
 The pool that uploads every session directory: one feeder, any number of workers, a jobs channel
 and a results channel with room for every directory. A run is any interleaving of their steps.
 */
module WorkerPool {
  import opened Wrappers

  datatype Outcome = Accepted(status: string, taskId: Option<string>) | Rejected(error: string)

  datatype Report = Report(dir: string, outcome: Outcome)

  datatype Worker = Idle | Uploading(dir: string) | Sending(report: Report) | Exited

  /** `started` lists the uploads in the order the workers began them. */
  datatype Pool = Pool(dirs: seq<string>, fed: nat, jobs: seq<string>, closed: bool,
                       workers: seq<Worker>, results: seq<Report>, joined: bool, started: seq<string>)

  datatype Event = Feed | Close | Take(worker: nat) | Upload(worker: nat, outcome: Outcome)
                 | Send(worker: nat) | Exit(worker: nat) | Join

  function PoolSize(requested: int): nat {
    if requested <= 0 then 3 else requested
  }

  ghost function Fresh(dirs: seq<string>, requested: int): Pool {
    Pool(dirs, 0, [], false, seq(PoolSize(requested), _ => Idle), [], false, [])
  }

  ghost predicate Enabled(p: Pool, e: Event) {
    match e
    case Feed => p.fed < |p.dirs| && |p.jobs| < |p.dirs|
    case Close => p.fed == |p.dirs| && !p.closed
    case Take(w) => w < |p.workers| && p.workers[w].Idle? && p.jobs != []
    case Upload(w, _) => w < |p.workers| && p.workers[w].Uploading?
    case Send(w) => w < |p.workers| && p.workers[w].Sending? && |p.results| < |p.dirs|
    case Exit(w) => w < |p.workers| && p.workers[w].Idle? && p.jobs == [] && p.closed
    case Join => p.closed && !p.joined && forall w | 0 <= w < |p.workers| :: p.workers[w].Exited?
  }

  ghost function Step(p: Pool, e: Event): Pool
    requires Enabled(p, e)
  {
    match e
    case Feed => p.(fed := p.fed + 1, jobs := p.jobs + [p.dirs[p.fed]])
    case Close => p.(closed := true)
    case Take(w) =>
      p.(jobs := p.jobs[1..], workers := p.workers[w := Uploading(p.jobs[0])], started := p.started + [p.jobs[0]])
    case Upload(w, outcome) => p.(workers := p.workers[w := Sending(Report(p.workers[w].dir, outcome))])
    case Send(w) => p.(results := p.results + [p.workers[w].report], workers := p.workers[w := Idle])
    case Exit(w) => p.(workers := p.workers[w := Exited])
    case Join => p.(joined := true)
  }

  ghost predicate Run(p: Pool, es: seq<Event>, q: Pool)
    decreases |es|
  {
    if es == [] then p == q else Enabled(p, es[0]) && Run(Step(p, es[0]), es[1..], q)
  }

  // ---------------------------------------------------------------- counting over the workers

  ghost function Sum(ws: seq<Worker>, f: Worker -> nat): nat {
    if ws == [] then 0 else f(ws[0]) + Sum(ws[1..], f)
  }

  /** How often `dir` is in a worker's hands: 0 or 1. */
  ghost function Holds(dir: string): Worker -> nat {
    (w: Worker) => if (w.Uploading? && w.dir == dir) || (w.Sending? && w.report.dir == dir) then 1 else 0
  }

  ghost function Busy(): Worker -> nat {
    (w: Worker) => if w.Uploading? || w.Sending? then 1 else 0
  }

  /** The steps a worker has still to take with what it has. */
  ghost function Weight(): Worker -> nat {
    (w: Worker) => if w.Uploading? then 3 else if w.Sending? then 2 else if w.Idle? then 1 else 0
  }

  lemma {:induction false} WorkerChanged(ws: seq<Worker>, i: nat, w: Worker, f: Worker -> nat)
    requires i < |ws|
    ensures Sum(ws[i := w], f) + f(ws[i]) == Sum(ws, f) + f(w)
    decreases |ws|
  {
    if i == 0 {
      assert ws[i := w][1..] == ws[1..];
    } else {
      assert ws[i := w][1..] == ws[1..][i - 1 := w];
      WorkerChanged(ws[1..], i - 1, w, f);
    }
  }

  lemma {:induction false} SumOfEqual(ws: seq<Worker>, w: Worker, f: Worker -> nat)
    requires forall i | 0 <= i < |ws| :: ws[i] == w
    ensures Sum(ws, f) == |ws| * f(w)
    decreases |ws|
  {
    if ws != [] { SumOfEqual(ws[1..], w, f); }
  }

  lemma {:induction false} SumAtLeast(ws: seq<Worker>, i: nat, f: Worker -> nat)
    requires i < |ws|
    ensures f(ws[i]) <= Sum(ws, f)
    decreases |ws|
  {
    if i > 0 { SumAtLeast(ws[1..], i - 1, f); }
  }

  // ---------------------------------------------------------------- what every run keeps

  function DirsOf(rs: seq<Report>): (ds: seq<string>)
    ensures |ds| == |rs|
  {
    seq(|rs|, i requires 0 <= i < |rs| => rs[i].dir)
  }

  ghost function Times(dir: string, s: seq<string>): nat {
    multiset(s)[dir]
  }

  /** `dir` is as often still to feed, in a channel or with a worker as the pool was given it. */
  ghost predicate Conserved(p: Pool, dir: string) {
    && p.fed <= |p.dirs|
    && Times(dir, p.dirs[p.fed..]) + Times(dir, p.jobs) + Sum(p.workers, Holds(dir)) + Times(dir, DirsOf(p.results))
       == Times(dir, p.dirs)
    && Sum(p.workers, Holds(dir)) + Times(dir, DirsOf(p.results)) == Times(dir, p.started)
  }

  ghost predicate InOrder(p: Pool) {
    && p.fed <= |p.dirs|
    && |p.jobs| + Sum(p.workers, Busy()) + |p.results| == p.fed
    && (p.closed ==> p.fed == |p.dirs|)
    && (forall w | 0 <= w < |p.workers| :: p.workers[w].Exited? ==> p.closed && p.jobs == [])
    && (p.joined ==> p.closed && forall w | 0 <= w < |p.workers| :: p.workers[w].Exited?)
  }

  ghost function Remaining(p: Pool): int {
    4 * (|p.dirs| - p.fed) + 3 * |p.jobs| + Sum(p.workers, Weight()) + (if p.closed then 0 else 1) + (if p.joined then 0 else 1)
  }

  lemma TimesJoined(dir: string, a: seq<string>, b: seq<string>)
    ensures Times(dir, a + b) == Times(dir, a) + Times(dir, b)
  {
  }

  lemma StepConserves(p: Pool, e: Event, dir: string)
    requires Conserved(p, dir) && Enabled(p, e)
    ensures Conserved(Step(p, e), dir)
  {
    hide Times, Sum;
    var q := Step(p, e);
    match e {
      case Feed =>
        assert p.dirs[p.fed..] == [p.dirs[p.fed]] + q.dirs[q.fed..];
        TimesJoined(dir, [p.dirs[p.fed]], q.dirs[q.fed..]);
        TimesJoined(dir, p.jobs, [p.dirs[p.fed]]);
      case Take(w) =>
        TakeConserves(p, w, dir);
      case Upload(w, _) =>
        WorkerChanged(p.workers, w, q.workers[w], Holds(dir));
      case Send(w) =>
        SendConserves(p, w, dir);
      case Exit(w) =>
        WorkerChanged(p.workers, w, q.workers[w], Holds(dir));
      case _ =>
    }
  }

  lemma TakeConserves(p: Pool, w: nat, dir: string)
    requires Conserved(p, dir) && Enabled(p, Take(w))
    ensures Conserved(Step(p, Take(w)), dir)
  {
    var q := Step(p, Take(w));
    assert p.jobs == [p.jobs[0]] + q.jobs;
    assert Times(dir, [p.jobs[0]]) == Holds(dir)(q.workers[w]);
    hide Times, Sum;
    TimesJoined(dir, [p.jobs[0]], q.jobs);
    TimesJoined(dir, p.started, [p.jobs[0]]);
    WorkerChanged(p.workers, w, q.workers[w], Holds(dir));
  }

  lemma SendConserves(p: Pool, w: nat, dir: string)
    requires Conserved(p, dir) && Enabled(p, Send(w))
    ensures Conserved(Step(p, Send(w)), dir)
  {
    var q := Step(p, Send(w));
    var sent := p.workers[w].report.dir;
    assert Times(dir, [sent]) == Holds(dir)(p.workers[w]);
    hide Times, Sum;
    assert DirsOf(q.results) == DirsOf(p.results) + [sent];
    TimesJoined(dir, DirsOf(p.results), [sent]);
    WorkerChanged(p.workers, w, q.workers[w], Holds(dir));
  }

  lemma StepKeepsOrder(p: Pool, e: Event)
    requires InOrder(p) && Enabled(p, e)
    ensures InOrder(Step(p, e))
    ensures Remaining(Step(p, e)) == Remaining(p) - 1
    ensures Step(p, e).dirs == p.dirs && |Step(p, e).workers| == |p.workers|
  {
    hide Sum;
    match e {
      case Feed =>
      case Close =>
      case Join =>
      case _ =>
        var w := e.worker;
        WorkerChanged(p.workers, w, Step(p, e).workers[w], Busy());
        WorkerChanged(p.workers, w, Step(p, e).workers[w], Weight());
    }
  }

  lemma {:induction false} RunKeeps(p: Pool, es: seq<Event>, q: Pool, dir: string)
    requires Conserved(p, dir) && InOrder(p) && Run(p, es, q)
    ensures Conserved(q, dir) && InOrder(q)
    ensures |es| + Remaining(q) == Remaining(p)
    ensures q.dirs == p.dirs && |q.workers| == |p.workers|
    decreases |es|
  {
    hide Conserved, InOrder, Remaining, Enabled;
    if es != [] {
      StepConserves(p, es[0], dir);
      StepKeepsOrder(p, es[0]);
      RunKeeps(Step(p, es[0]), es[1..], q, dir);
    }
  }

  lemma FreshIsGood(dirs: seq<string>, requested: int, dir: string)
    ensures var p := Fresh(dirs, requested);
            Conserved(p, dir) && InOrder(p) && Remaining(p) == 4 * |dirs| + PoolSize(requested) + 2
  {
    var p := Fresh(dirs, requested);
    SumOfEqual(p.workers, Idle, Holds(dir));
    SumOfEqual(p.workers, Idle, Busy());
    SumOfEqual(p.workers, Idle, Weight());
    hide Sum;
    assert dirs[0..] == dirs;
  }

  /** Every directory is in one place, and what remains to be done is known, at any moment of any run. */
  lemma EachDirectoryInOnePlace(dirs: seq<string>, requested: int, es: seq<Event>, p: Pool, dir: string)
    requires Run(Fresh(dirs, requested), es, p)
    ensures Conserved(p, dir) && InOrder(p) && p.dirs == dirs && |p.workers| == PoolSize(requested)
    ensures |es| + Remaining(p) == 4 * |dirs| + PoolSize(requested) + 2
  {
    FreshIsGood(dirs, requested, dir);
    RunKeeps(Fresh(dirs, requested), es, p, dir);
  }

  /** A worker with a report to send, and the feeder with a directory to feed, always find room. */
  lemma SendsNeverBlock(dirs: seq<string>, requested: int, es: seq<Event>, p: Pool)
    requires Run(Fresh(dirs, requested), es, p)
    ensures forall w: nat | w < |p.workers| && p.workers[w].Sending? :: Enabled(p, Send(w))
    ensures p.fed < |dirs| ==> Enabled(p, Feed)
  {
    EachDirectoryInOnePlace(dirs, requested, es, p, "");
    hide Run, Sum, Conserved, Remaining;
    forall w: nat | w < |p.workers| && p.workers[w].Sending?
      ensures Enabled(p, Send(w))
    {
      SumAtLeast(p.workers, w, Busy());
    }
  }

  /** Until the pool has joined some step can be taken, so a run that cannot go on has joined. */
  lemma NeverStuck(dirs: seq<string>, requested: int, es: seq<Event>, p: Pool) returns (e: Event)
    requires Run(Fresh(dirs, requested), es, p)
    requires !p.joined
    ensures Enabled(p, e)
  {
    EachDirectoryInOnePlace(dirs, requested, es, p, "");
    SendsNeverBlock(dirs, requested, es, p);
    hide Run, Sum, Conserved, Remaining;
    if p.fed < |dirs| {
      e := Feed;
    } else if !p.closed {
      e := Close;
    } else if w: nat :| w < |p.workers| && !p.workers[w].Exited? {
      e := match p.workers[w]
           case Uploading(_) => Upload(w, Rejected(""))
           case Sending(_) => Send(w)
           case _ => if p.jobs == [] then Exit(w) else Take(w);
    } else {
      e := Join;
    }
  }

  /** A run is never longer than this, and it is this long exactly when the pool has joined. */
  lemma RunLength(dirs: seq<string>, requested: int, es: seq<Event>, p: Pool)
    requires Run(Fresh(dirs, requested), es, p)
    ensures var steps := 4 * |dirs| + (if requested <= 0 then 3 else requested) + 2;
            |es| <= steps && (p.joined <==> |es| == steps)
  {
    EachDirectoryInOnePlace(dirs, requested, es, p, "");
    hide Run, Sum, Conserved;
    if p.joined {
      assert p.workers[0].Exited?;
      SumOfEqual(p.workers, Exited, Weight());
    }
  }

  /** When the pool has joined, each directory was begun once and has one report, in whatever order. */
  lemma EachUploadedOnce(dirs: seq<string>, requested: int, es: seq<Event>, p: Pool)
    requires Run(Fresh(dirs, requested), es, p) && p.joined
    ensures multiset(p.started) == multiset(dirs) == multiset(DirsOf(p.results))
    ensures |p.results| == |dirs|
  {
    forall dir: string
      ensures multiset(p.started)[dir] == multiset(dirs)[dir] == multiset(DirsOf(p.results))[dir]
    {
      JoinedCount(dirs, requested, es, p, dir);
    }
    JoinedCount(dirs, requested, es, p, "");
  }

  lemma JoinedCount(dirs: seq<string>, requested: int, es: seq<Event>, p: Pool, dir: string)
    requires Run(Fresh(dirs, requested), es, p) && p.joined
    ensures Times(dir, p.started) == Times(dir, dirs) == Times(dir, DirsOf(p.results))
    ensures |p.results| == |dirs|
  {
    EachDirectoryInOnePlace(dirs, requested, es, p, dir);
    hide Run, Sum;
    assert p.workers[0].Exited?;
    assert p.dirs[p.fed..] == [];
    SumOfEqual(p.workers, Exited, Holds(dir));
    SumOfEqual(p.workers, Exited, Busy());
  }

  // ---------------------------------------------------------------- the summary

  datatype Entry = Entry(dir: string, status: string, error: Option<string>, taskId: Option<string>)

  datatype Summary = Summary(uploaded: nat, skipped: nat, failed: nat, sessions: seq<Entry>)

  ghost predicate ListedAs(e: Entry, r: Report) {
    match r.outcome
    case Rejected(error) => e == Entry(r.dir, "failed", Some(error), None)
    case Accepted(status, taskId) => e == Entry(r.dir, status, None, taskId)
  }

  ghost function Failures(rs: seq<Report>, n: nat): set<int>
    requires n <= |rs|
  {
    set i | 0 <= i < n && rs[i].outcome.Rejected?
  }

  ghost function Skips(rs: seq<Report>, n: nat): set<int>
    requires n <= |rs|
  {
    set i | 0 <= i < n && rs[i].outcome.Accepted? && rs[i].outcome.status == "skipped"
  }

  lemma OneMore(rs: seq<Report>, n: nat)
    requires n < |rs|
    ensures Failures(rs, 0) == Skips(rs, 0) == {} && n !in Failures(rs, n) && n !in Skips(rs, n)
    ensures Failures(rs, n + 1) == if rs[n].outcome.Rejected? then Failures(rs, n) + {n} else Failures(rs, n)
    ensures Skips(rs, n + 1)
         == if rs[n].outcome.Accepted? && rs[n].outcome.status == "skipped" then Skips(rs, n) + {n} else Skips(rs, n)
  {
  }

  lemma NoneYet(rs: seq<Report>)
    ensures |Failures(rs, 0)| == 0 && |Skips(rs, 0)| == 0
  {
    assert Failures(rs, 0) == {} && Skips(rs, 0) == {};
  }

  /** Drains the results channel once every worker has gone. */
  method Collect(results: seq<Report>) returns (s: Summary)
    ensures s.uploaded + s.skipped + s.failed == |results| == |s.sessions|
    ensures s.failed == |Failures(results, |results|)| && s.skipped == |Skips(results, |results|)|
    ensures forall i | 0 <= i < |results| :: ListedAs(s.sessions[i], results[i])
  {
    hide Failures, Skips;
    NoneYet(results);
    var uploaded: nat, skipped: nat, failed: nat := 0, 0, 0;
    var sessions := [];
    for n := 0 to |results|
      invariant uploaded + skipped + failed == n == |sessions|
      invariant failed == |Failures(results, n)| && skipped == |Skips(results, n)|
      invariant forall i | 0 <= i < n :: ListedAs(sessions[i], results[i])
    {
      OneMore(results, n);
      var r := results[n];
      match r.outcome {
        case Rejected(error) =>
          failed := failed + 1;
          sessions := sessions + [Entry(r.dir, "failed", Some(error), None)];
        case Accepted(status, taskId) =>
          if status == "skipped" { skipped := skipped + 1; } else { uploaded := uploaded + 1; }
          sessions := sessions + [Entry(r.dir, status, None, taskId)];
      }
    }
    return Summary(uploaded, skipped, failed, sessions);
  }

  /** The joined pool's summary counts every directory once, and lists each one under its own name. */
  method UploadAll(ghost dirs: seq<string>, ghost requested: int, ghost es: seq<Event>, p: Pool) returns (s: Summary)
    requires Run(Fresh(dirs, requested), es, p) && p.joined
    ensures s.uploaded + s.skipped + s.failed == |dirs| == |s.sessions|
    ensures multiset(Named(s.sessions)) == multiset(dirs)
    ensures s.failed == |Failures(p.results, |p.results|)| && s.skipped == |Skips(p.results, |p.results|)|
    ensures |s.sessions| == |p.results| && forall i | 0 <= i < |p.results| :: ListedAs(s.sessions[i], p.results[i])
  {
    hide *;
    EachUploadedOnce(dirs, requested, es, p);
    s := Collect(p.results);
    NamedAlike(p.results, s.sessions);
  }

  ghost function Named(es: seq<Entry>): seq<string> {
    seq(|es|, i requires 0 <= i < |es| => es[i].dir)
  }

  lemma NamedAlike(rs: seq<Report>, es: seq<Entry>)
    requires |rs| == |es| && forall i | 0 <= i < |rs| :: ListedAs(es[i], rs[i])
    ensures Named(es) == DirsOf(rs)
  {
  }
}
