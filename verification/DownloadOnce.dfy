/**
 Any number of processes and threads calling `ensure_model_ready` on one shared cache directory.
 Each short critical section is one step, enabled only while no one holds the lock it takes;
 loading and downloading hold the process-wide cache lock over several steps. A process may
 crash at any time: the kernel drops its file locks and its memory is gone.
 The environment decides whether the library imports, a download succeeds and a model builds.
 */
module DownloadOnce {
  import opened Wrappers
  import opened ModelPaths

  datatype Tool = Vector | Rerank

  datatype Thread = Thread(proc: nat, tid: nat)

  datatype Source = FromCache | Local | Download

  datatype CallResult = Ready(source: Source) | NoLibrary(source: Source) | Raised

  datatype Pc =
    | Fast                    // about to look in the process cache
    | AwaitFlock              // about to take the file lock
    | Recheck                 // holds the file lock from here ...
    | CheckDisk
    | Importing(source: Source)
    | StoringFallback(source: Source)
    | EnterLoad(source: Source)
    | Fetching                // ... and the cache lock in these two
    | Constructing(source: Source)
    | Unlocking(result: CallResult)  // ... to here
    | Done(result: CallResult)

  datatype Call = Call(tool: Tool, name: string, pc: Pc)

  datatype Entry = Fallback | Model

  datatype Sys = Sys(threads: map<Thread, Call>, flock: map<string, Thread>,
                     cacheLock: map<(nat, Tool), Thread>, cache: map<(nat, Tool, string), Entry>,
                     disk: set<(Tool, string)>, dead: set<nat>)

  datatype Event =
    | Start(t: Thread, tool: Tool, name: string)
    | FastCheck(t: Thread)
    | TakeFlock(t: Thread)
    | RecheckCache(t: Thread)
    | LookOnDisk(t: Thread)
    | TryImport(t: Thread, ok: bool)
    | StoreFallback(t: Thread)
    | BeginLoad(t: Thread)
    | EndFetch(t: Thread, ok: bool, leaves: set<Tool>)
    | EndConstruct(t: Thread, ok: bool)
    | DropFlock(t: Thread)
    | Crash(proc: nat)

  /** Disks that may hold complete snapshots from before; nothing else exists yet. */
  function Init(disk: set<(Tool, string)>): Sys {
    Sys(map[], map[], map[], map[], disk, {})
  }

  function Key(t: Thread, c: Call): (nat, Tool, string) {
    (t.proc, c.tool, c.name)
  }

  function LockKey(t: Thread, c: Call): (nat, Tool) {
    (t.proc, c.tool)
  }

  function At(s: Sys, t: Thread, pc: Pc): Sys
    requires t in s.threads
  {
    s.(threads := s.threads[t := s.threads[t].(pc := pc)])
  }

  /** A snapshot complete enough for the embedding tool is complete enough for the reranker. */
  predicate PossibleSnapshot(tool: Tool, ok: bool, leaves: set<Tool>) {
    (Vector in leaves ==> Rerank in leaves) && (ok ==> tool in leaves)
  }

  function OnDisk(dir: string, leaves: set<Tool>): set<(Tool, string)> {
    set tool <- leaves :: (tool, dir)
  }

  function ThreadStep(s: Sys, e: Event): Option<Sys>
    requires !e.Start? && !e.Crash?
  {
    if e.t !in s.threads then None
    else
      var t, c := e.t, s.threads[e.t];
      var lockFree := LockKey(t, c) !in s.cacheLock;
      var cached := Key(t, c) in s.cache;
      match e
      case FastCheck(_) =>
        if !c.pc.Fast? || !lockFree then None
        else Some(At(s, t, if cached then Done(Ready(FromCache)) else AwaitFlock))
      case TakeFlock(_) =>
        if !c.pc.AwaitFlock? || LockFile(c.name) in s.flock then None
        else Some(At(s.(flock := s.flock[LockFile(c.name) := t]), t, Recheck))
      case RecheckCache(_) =>
        if !c.pc.Recheck? || !lockFree then None
        else Some(At(s, t, if cached then Unlocking(Ready(FromCache)) else CheckDisk))
      case LookOnDisk(_) =>
        if !c.pc.CheckDisk? then None
        else Some(At(s, t, Importing(if (c.tool, SnapshotDir(c.name)) in s.disk then Local else Download)))
      case TryImport(_, ok) =>
        if !c.pc.Importing? then None
        else Some(At(s, t, if ok then EnterLoad(c.pc.source) else StoringFallback(c.pc.source)))
      case StoreFallback(_) =>
        if !c.pc.StoringFallback? || !lockFree then None
        else Some(At(s.(cache := s.cache[Key(t, c) := Fallback]), t, Unlocking(NoLibrary(c.pc.source))))
      case BeginLoad(_) =>
        if !c.pc.EnterLoad? || !lockFree then None
        else if cached then Some(At(s, t, Unlocking(Ready(c.pc.source))))
        else Some(At(s.(cacheLock := s.cacheLock[LockKey(t, c) := t]), t,
                     if c.pc.source == Download then Fetching else Constructing(c.pc.source)))
      case EndFetch(_, ok, leaves) =>
        if !c.pc.Fetching? || !PossibleSnapshot(c.tool, ok, leaves) then None
        else
          var s1 := s.(disk := s.disk + OnDisk(SnapshotDir(c.name), leaves));
          Some(if ok then At(s1, t, Constructing(Download))
               else At(s1.(cacheLock := s.cacheLock - {LockKey(t, c)}), t, Unlocking(Raised)))
      case EndConstruct(_, ok) =>
        if !c.pc.Constructing? then None
        else
          var s1 := s.(cacheLock := s.cacheLock - {LockKey(t, c)});
          Some(if ok then At(s1.(cache := s.cache[Key(t, c) := Model]), t, Unlocking(Ready(c.pc.source)))
               else At(s1, t, Unlocking(Raised)))
      case DropFlock(_) =>
        if !c.pc.Unlocking? then None
        else Some(At(s.(flock := s.flock - {LockFile(c.name)}), t, Done(c.pc.result)))
  }

  function CrashStep(s: Sys, p: nat): Sys {
    Sys(map t | t in s.threads && t.proc != p :: s.threads[t],
        map l | l in s.flock && s.flock[l].proc != p :: s.flock[l],
        map k | k in s.cacheLock && k.0 != p :: s.cacheLock[k],
        map k | k in s.cache && k.0 != p :: s.cache[k],
        s.disk, s.dead + {p})
  }

  /** The successor state, or None where the event is not enabled. */
  function Next(s: Sys, e: Event): Option<Sys> {
    match e
    case Start(t, tool, name) =>
      if t.proc in s.dead || (t in s.threads && !s.threads[t].pc.Done?) then None
      else Some(s.(threads := s.threads[t := Call(tool, name, Fast)]))
    case Crash(p) => Some(CrashStep(s, p))
    case _ => ThreadStep(s, e)
  }

  datatype Run = Run(states: seq<Sys>, events: seq<Event>) {
    ghost predicate Valid() {
      && |states| == |events| + 1
      && states[0] == Init(states[0].disk)
      && (forall i | 0 <= i < |events| :: Next(states[i], events[i]) == Some(states[i + 1]))
    }

    /** Only model names from `names` are asked for. */
    ghost predicate Over(names: iset<string>) {
      forall i | 0 <= i < |events| :: events[i].Start? ==> events[i].name in names
    }

    lemma Step(i: nat)
      requires Valid() && i < |events|
      ensures Next(states[i], events[i]) == Some(states[i + 1])
    {
    }

    /** Step `i` completes a download of directory `dir` by `tool`. */
    ghost predicate Downloads(i: nat, tool: Tool, dir: string) {
      && i < |events| && i < |states|
      && events[i].EndFetch? && events[i].ok
      && events[i].t in states[i].threads
      && var c := states[i].threads[events[i].t];
         c.tool == tool && SnapshotDir(c.name) == dir
    }

    /** Step `i` puts a model object into a process cache. */
    ghost predicate Installs(i: nat, key: (nat, Tool, string)) {
      && i < |events| && i < |states|
      && events[i].EndConstruct? && events[i].ok
      && events[i].t in states[i].threads && Key(events[i].t, states[i].threads[events[i].t]) == key
    }
  }

  // ---------------------------------------------------------------- who holds what

  predicate HoldsFlock(pc: Pc) {
    !pc.Fast? && !pc.AwaitFlock? && !pc.Done?
  }

  predicate HoldsCacheLock(pc: Pc) {
    pc.Fetching? || pc.Constructing?
  }

  /** Past the second look into the cache and not yet through. */
  predicate MissedCache(pc: Pc) {
    HoldsFlock(pc) && !pc.Recheck? && !pc.Unlocking?
  }

  predicate ChoseDownload(pc: Pc) {
    pc.Fetching? || ((pc.Importing? || pc.StoringFallback? || pc.EnterLoad?) && pc.source == Download)
  }

  ghost predicate CallOk(s: Sys, t: Thread, c: Call) {
    && t.proc !in s.dead
    && (HoldsFlock(c.pc) ==> LockFile(c.name) in s.flock && s.flock[LockFile(c.name)] == t)
    && (HoldsCacheLock(c.pc) ==> LockKey(t, c) in s.cacheLock && s.cacheLock[LockKey(t, c)] == t)
    && (MissedCache(c.pc) ==> Key(t, c) !in s.cache)
    && ((c.pc.Unlocking? || c.pc.Done?) && c.pc.result != Raised ==> Key(t, c) in s.cache)
  }

  ghost predicate FlockOk(s: Sys, l: string) {
    && l in s.flock
    && s.flock[l] in s.threads
    && var c := s.threads[s.flock[l]];
       LockFile(c.name) == l && HoldsFlock(c.pc)
  }

  ghost predicate CacheLockOk(s: Sys, k: (nat, Tool)) {
    && k in s.cacheLock
    && s.cacheLock[k] in s.threads
    && var t := s.cacheLock[k];
       LockKey(t, s.threads[t]) == k && HoldsCacheLock(s.threads[t].pc)
  }

  ghost predicate Inv(s: Sys) {
    && (forall t <- s.threads :: CallOk(s, t, s.threads[t]))
    && (forall l <- s.flock :: FlockOk(s, l))
    && (forall k <- s.cacheLock :: CacheLockOk(s, k))
  }

  /** Two calls past the file lock on one lock file are one thread. */
  lemma FlockExcludes(s: Sys, t: Thread, u: Thread)
    requires Inv(s) && t in s.threads && u in s.threads
    requires HoldsFlock(s.threads[t].pc) && HoldsFlock(s.threads[u].pc)
    requires LockFile(s.threads[t].name) == LockFile(s.threads[u].name)
    ensures t == u
  {
    assert CallOk(s, t, s.threads[t]) && CallOk(s, u, s.threads[u]);
  }

  /** Two calls holding the cache lock of one process and tool are one thread. */
  lemma CacheLockExcludes(s: Sys, t: Thread, u: Thread)
    requires Inv(s) && t in s.threads && u in s.threads
    requires HoldsCacheLock(s.threads[t].pc) && HoldsCacheLock(s.threads[u].pc)
    ensures LockKey(t, s.threads[t]) == LockKey(u, s.threads[u]) ==> t == u
  {
    assert CallOk(s, t, s.threads[t]) && CallOk(s, u, s.threads[u]);
  }

  predicate IsThreadStep(e: Event) {
    !e.Start? && !e.Crash?
  }

  lemma StepFrameThreads(s: Sys, e: Event, s': Sys)
    requires IsThreadStep(e) && Next(s, e) == Some(s')
    ensures e.t in s.threads && e.t in s'.threads && s'.dead == s.dead
    ensures s'.threads == s.threads[e.t := s'.threads[e.t]]
    ensures s'.threads[e.t] == s.threads[e.t].(pc := s'.threads[e.t].pc)
  {
  }

  lemma StepFrameLocks(s: Sys, e: Event, s': Sys)
    requires IsThreadStep(e) && Next(s, e) == Some(s') && e.t in s.threads
    ensures var c := s.threads[e.t];
            && (forall l | l != LockFile(c.name) :: l in s'.flock <==> l in s.flock)
            && (forall l | l != LockFile(c.name) && l in s.flock :: s'.flock[l] == s.flock[l])
            && (forall k | k != LockKey(e.t, c) :: k in s'.cacheLock <==> k in s.cacheLock)
            && (forall k | k != LockKey(e.t, c) && k in s.cacheLock :: s'.cacheLock[k] == s.cacheLock[k])
  {
  }

  lemma StepFrameCache(s: Sys, e: Event, s': Sys)
    requires IsThreadStep(e) && Next(s, e) == Some(s') && e.t in s.threads
    ensures forall k | k != Key(e.t, s.threads[e.t]) :: k in s'.cache <==> k in s.cache
    ensures s.cache.Keys <= s'.cache.Keys
  {
  }

  /** What a thread step leaves alone: every other call, and every lock and cache slot but its own. */
  lemma StepFrame(s: Sys, e: Event, s': Sys)
    requires IsThreadStep(e) && Next(s, e) == Some(s')
    ensures e.t in s.threads && e.t in s'.threads && s'.dead == s.dead
    ensures s'.threads == s.threads[e.t := s'.threads[e.t]]
    ensures s'.threads[e.t] == s.threads[e.t].(pc := s'.threads[e.t].pc)
    ensures var c := s.threads[e.t];
            && (forall l | l != LockFile(c.name) :: l in s'.flock <==> l in s.flock)
            && (forall l | l != LockFile(c.name) && l in s.flock :: s'.flock[l] == s.flock[l])
            && (forall k | k != LockKey(e.t, c) :: k in s'.cacheLock <==> k in s.cacheLock)
            && (forall k | k != LockKey(e.t, c) && k in s.cacheLock :: s'.cacheLock[k] == s.cacheLock[k])
            && (forall k | k != Key(e.t, c) :: k in s'.cache <==> k in s.cache)
            && s.cache.Keys <= s'.cache.Keys
  {
    hide Next;
    StepFrameThreads(s, e, s');
    StepFrameLocks(s, e, s');
    StepFrameCache(s, e, s');
  }

  /** What a thread step does to its own call and cache slot. */
  lemma StepOwn(s: Sys, e: Event, s': Sys)
    requires IsThreadStep(e) && Next(s, e) == Some(s')
    requires e.t in s.threads && CallOk(s, e.t, s.threads[e.t])
    ensures CallOk(s', e.t, s'.threads[e.t])
    ensures s'.cache.Keys != s.cache.Keys ==> MissedCache(s.threads[e.t].pc)
  {
  }

  lemma StepOwnFlock(s: Sys, e: Event, s': Sys)
    requires IsThreadStep(e) && Next(s, e) == Some(s')
    requires e.t in s.threads && CallOk(s, e.t, s.threads[e.t])
    ensures var l, c' := LockFile(s.threads[e.t].name), s'.threads[e.t];
            && (l in s.flock && s.flock[l] != e.t ==> s'.flock == s.flock)
            && (HoldsFlock(s.threads[e.t].pc) && !HoldsFlock(c'.pc) ==> l !in s'.flock)
            && (l in s'.flock && s'.flock != s.flock ==> HoldsFlock(c'.pc) && s'.flock[l] == e.t)
  {
  }

  lemma StepOwnCacheLock(s: Sys, e: Event, s': Sys)
    requires IsThreadStep(e) && Next(s, e) == Some(s')
    requires e.t in s.threads && CallOk(s, e.t, s.threads[e.t])
    ensures var k, c' := LockKey(e.t, s.threads[e.t]), s'.threads[e.t];
            && (k in s.cacheLock && s.cacheLock[k] != e.t ==> s'.cacheLock == s.cacheLock)
            && (HoldsCacheLock(s.threads[e.t].pc) && !HoldsCacheLock(c'.pc) ==> k !in s'.cacheLock)
            && (k in s'.cacheLock && s'.cacheLock != s.cacheLock ==> HoldsCacheLock(c'.pc) && s'.cacheLock[k] == e.t)
  {
  }

  lemma InvOtherCall(s: Sys, e: Event, s': Sys, u: Thread)
    requires Inv(s) && IsThreadStep(e) && Next(s, e) == Some(s') && u in s'.threads && u != e.t
    ensures CallOk(s', u, s'.threads[u])
  {
    StepFrame(s, e, s');
    hide Next;
    assert CallOk(s, u, s.threads[u]) && CallOk(s, e.t, s.threads[e.t]);
    StepOwn(s, e, s');
    StepOwnFlock(s, e, s');
    StepOwnCacheLock(s, e, s');
    var c, d := s.threads[u], s.threads[e.t];
    if HoldsFlock(c.pc) && LockFile(c.name) == LockFile(d.name) {
      assert s'.flock == s.flock;
    }
    if HoldsCacheLock(c.pc) && LockKey(u, c) == LockKey(e.t, d) {
      assert s'.cacheLock == s.cacheLock;
    }
    if MissedCache(c.pc) && Key(u, c) == Key(e.t, d) {
      assert !MissedCache(d.pc);
    }
  }

  lemma InvFlock(s: Sys, e: Event, s': Sys, l: string)
    requires Inv(s) && IsThreadStep(e) && Next(s, e) == Some(s') && l in s'.flock
    ensures FlockOk(s', l)
  {
    hide Next, ThreadStep, CacheLockOk;
    StepFrame(s, e, s');
    assert CallOk(s, e.t, s.threads[e.t]);
    StepOwnFlock(s, e, s');
    if l in s.flock { assert FlockOk(s, l); }
  }

  lemma InvCacheLock(s: Sys, e: Event, s': Sys, k: (nat, Tool))
    requires Inv(s) && IsThreadStep(e) && Next(s, e) == Some(s') && k in s'.cacheLock
    ensures CacheLockOk(s', k)
  {
    hide Next, ThreadStep, FlockOk;
    StepFrame(s, e, s');
    assert CallOk(s, e.t, s.threads[e.t]);
    StepOwnCacheLock(s, e, s');
    if k in s.cacheLock { assert CacheLockOk(s, k); }
  }

  lemma InvThreadStep(s: Sys, e: Event, s': Sys)
    requires Inv(s) && IsThreadStep(e) && Next(s, e) == Some(s')
    ensures Inv(s')
  {
    hide Next;
    StepFrame(s, e, s');
    assert CallOk(s, e.t, s.threads[e.t]);
    StepOwn(s, e, s');
    forall u <- s'.threads ensures CallOk(s', u, s'.threads[u]) {
      if u != e.t { InvOtherCall(s, e, s', u); }
    }
    forall l <- s'.flock ensures FlockOk(s', l) { InvFlock(s, e, s', l); }
    forall k <- s'.cacheLock ensures CacheLockOk(s', k) { InvCacheLock(s, e, s', k); }
  }

  lemma InvStartStep(s: Sys, e: Event, s': Sys)
    requires Inv(s) && e.Start? && Next(s, e) == Some(s')
    ensures Inv(s')
  {
    forall u <- s'.threads ensures CallOk(s', u, s'.threads[u]) {
      if u in s.threads { assert CallOk(s, u, s.threads[u]); }
    }
    forall l <- s'.flock ensures FlockOk(s', l) {
      assert FlockOk(s, l);
    }
    forall k <- s'.cacheLock ensures CacheLockOk(s', k) {
      assert CacheLockOk(s, k);
    }
  }

  lemma InvCrashStep(s: Sys, p: nat)
    requires Inv(s)
    ensures Inv(CrashStep(s, p))
  {
    var s' := CrashStep(s, p);
    forall u <- s'.threads ensures CallOk(s', u, s'.threads[u]) {
      assert CallOk(s, u, s.threads[u]);
    }
    forall l <- s'.flock ensures FlockOk(s', l) {
      assert FlockOk(s, l);
    }
    forall k <- s'.cacheLock ensures CacheLockOk(s', k) {
      assert CacheLockOk(s, k);
    }
  }

  lemma InvStep(s: Sys, e: Event, s': Sys)
    requires Inv(s) && Next(s, e) == Some(s')
    ensures Inv(s')
  {
    match e
    case Start(_, _, _) => InvStartStep(s, e, s');
    case Crash(p) => InvCrashStep(s, p);
    case _ => InvThreadStep(s, e, s');
  }

  lemma InvHolds(run: Run, i: nat)
    requires run.Valid() && i < |run.states|
    ensures Inv(run.states[i])
  {
    hide Next;
    if i > 0 {
      InvHolds(run, i - 1);
      run.Step(i - 1);
      InvStep(run.states[i - 1], run.events[i - 1], run.states[i]);
    }
  }

  // ---------------------------------------------------------------- mutual exclusion, caches

  /** At most one thread of any process is ever in the load or download section of a lock file. */
  lemma OneThreadPerModel(run: Run, i: nat, t: Thread, u: Thread)
    requires run.Valid() && i < |run.states|
    requires t in run.states[i].threads && u in run.states[i].threads && t != u
    requires HoldsFlock(run.states[i].threads[t].pc) && HoldsFlock(run.states[i].threads[u].pc)
    ensures LockFile(run.states[i].threads[t].name) != LockFile(run.states[i].threads[u].name)
  {
    hide Next;
    InvHolds(run, i);
    if LockFile(run.states[i].threads[t].name) == LockFile(run.states[i].threads[u].name) {
      FlockExcludes(run.states[i], t, u);
    }
  }

  /** Within a process at most one thread per tool is ever fetching or constructing, whatever models they ask for. */
  lemma OneLoadPerProcess(run: Run, i: nat, t: Thread, u: Thread)
    requires run.Valid() && i < |run.states|
    requires t in run.states[i].threads && u in run.states[i].threads && t != u && t.proc == u.proc
    requires HoldsCacheLock(run.states[i].threads[t].pc) && HoldsCacheLock(run.states[i].threads[u].pc)
    ensures run.states[i].threads[t].tool != run.states[i].threads[u].tool
  {
    hide Next;
    InvHolds(run, i);
    CacheLockExcludes(run.states[i], t, u);
  }

  /** A call that did not raise leaves its name in its process's cache, for as long as the process lives. */
  lemma NormalReturnIsCached(run: Run, i: nat, t: Thread)
    requires run.Valid() && i < |run.states| && t in run.states[i].threads
    requires var pc := run.states[i].threads[t].pc; pc.Done? && pc.result != Raised
    ensures Key(t, run.states[i].threads[t]) in run.states[i].cache
  {
    hide Next;
    InvHolds(run, i);
    assert CallOk(run.states[i], t, run.states[i].threads[t]);
  }

  /** The innermost look into the cache, under both locks, never finds the name. */
  lemma ThirdCheckAlwaysMisses(run: Run, i: nat)
    requires run.Valid() && i < |run.events| && run.events[i].BeginLoad?
    ensures var t := run.events[i].t;
            t in run.states[i].threads && Key(t, run.states[i].threads[t]) !in run.states[i].cache
  {
    InvHolds(run, i);
    run.Step(i);
    assert CallOk(run.states[i], run.events[i].t, run.states[i].threads[run.events[i].t]);
  }

  /** An entry of a process's cache is never overwritten or removed while the process lives. */
  lemma CacheStep(s: Sys, e: Event, s': Sys, key: (nat, Tool, string))
    requires Inv(s) && Next(s, e) == Some(s') && key in s.cache && key.0 !in s'.dead
    ensures key in s'.cache && s'.cache[key] == s.cache[key]
    ensures key.0 !in s.dead
  {
    if IsThreadStep(e) {
      assert CallOk(s, e.t, s.threads[e.t]);
    }
  }

  lemma DeadStaysDead(run: Run, p: nat, i: nat, j: nat)
    requires run.Valid() && i <= j < |run.states| && p in run.states[i].dead
    ensures p in run.states[j].dead
    decreases j
  {
    if i < j {
      DeadStaysDead(run, p, i, j - 1);
      run.Step(j - 1);
    }
  }

  lemma {:induction false} CacheKept(run: Run, i: nat, j: nat, key: (nat, Tool, string))
    requires run.Valid() && i <= j < |run.states|
    requires key in run.states[i].cache && key.0 !in run.states[j].dead
    ensures key in run.states[j].cache && run.states[j].cache[key] == run.states[i].cache[key]
    decreases j
  {
    hide Next;
    if i < j {
      if key.0 in run.states[j - 1].dead { DeadStaysDead(run, key.0, j - 1, j); }
      CacheKept(run, i, j - 1, key);
      InvHolds(run, j - 1);
      run.Step(j - 1);
      CacheStep(run.states[j - 1], run.events[j - 1], run.states[j], key);
    }
  }

  lemma InstallStep(s: Sys, e: Event, s': Sys)
    requires Inv(s) && Next(s, e) == Some(s') && e.EndConstruct? && e.ok
    ensures e.t in s.threads && e.t.proc !in s.dead
    ensures var key := Key(e.t, s.threads[e.t]); key !in s.cache && key in s'.cache && s'.cache[key] == Model
  {
    assert CallOk(s, e.t, s.threads[e.t]);
  }

  /** A process installs at most one model object per tool and name. */
  lemma InstalledOnce(run: Run, i: nat, j: nat, key: (nat, Tool, string))
    requires run.Valid() && i < j && run.Installs(i, key)
    ensures !run.Installs(j, key)
  {
    hide Next;
    if run.Installs(j, key) {
      InvHolds(run, i);
      run.Step(i);
      InstallStep(run.states[i], run.events[i], run.states[i + 1]);
      InvHolds(run, j);
      run.Step(j);
      InstallStep(run.states[j], run.events[j], run.states[j + 1]);
      CacheKept(run, i + 1, j, key);
      assert false;
    }
  }

  // ---------------------------------------------------------------- downloads

  /** No two names in use share a snapshot directory without sharing its lock. */
  ghost predicate AliasFree(names: iset<string>) {
    forall a, b | a in names && b in names :: !Aliases(a, b)
  }

  ghost predicate DownloadsOk(s: Sys, names: iset<string>) {
    forall t <- s.threads :: CallNeedsDisk(s, s.threads[t], names)
  }

  ghost predicate CallNeedsDisk(s: Sys, c: Call, names: iset<string>) {
    && c.name in names
    && (ChoseDownload(c.pc) ==> (c.tool, SnapshotDir(c.name)) !in s.disk)
  }

  lemma FetchStepOther(s: Sys, e: Event, s': Sys, names: iset<string>, u: Thread)
    requires Inv(s) && DownloadsOk(s, names) && AliasFree(names) && IsThreadStep(e) && Next(s, e) == Some(s')
    requires u in s.threads && e.t in s.threads && u != e.t && ChoseDownload(s.threads[u].pc)
    ensures (s.threads[u].tool, SnapshotDir(s.threads[u].name)) !in s'.disk
  {
    var c, d := s.threads[u], s.threads[e.t];
    assert CallNeedsDisk(s, c, names) && CallNeedsDisk(s, d, names);
    if e.EndFetch? {
      if SnapshotDir(c.name) == SnapshotDir(d.name) {
        assert !Aliases(c.name, d.name);
        FlockExcludes(s, u, e.t);
      }
    }
  }

  lemma FetchStepOwn(s: Sys, e: Event, s': Sys, names: iset<string>)
    requires DownloadsOk(s, names) && IsThreadStep(e) && Next(s, e) == Some(s')
    ensures e.t in s'.threads && CallNeedsDisk(s', s'.threads[e.t], names)
  {
    assert CallNeedsDisk(s, s.threads[e.t], names);
  }

  lemma DownloadsStep(s: Sys, e: Event, s': Sys, names: iset<string>)
    requires Inv(s) && DownloadsOk(s, names) && AliasFree(names) && Next(s, e) == Some(s')
    requires e.Start? ==> e.name in names
    ensures DownloadsOk(s', names)
  {
    forall u <- s'.threads ensures CallNeedsDisk(s', s'.threads[u], names) {
      if IsThreadStep(e) {
        StepFrame(s, e, s');
        hide Next;
        FetchStepOwn(s, e, s', names);
        if u != e.t {
          assert CallNeedsDisk(s, s.threads[u], names);
          if ChoseDownload(s.threads[u].pc) { FetchStepOther(s, e, s', names, u); }
        }
      } else if u in s.threads {
        assert CallNeedsDisk(s, s.threads[u], names);
      }
    }
  }

  lemma DownloadsHold(run: Run, names: iset<string>, i: nat)
    requires run.Valid() && run.Over(names) && AliasFree(names) && i < |run.states|
    ensures DownloadsOk(run.states[i], names)
  {
    hide Next;
    if i > 0 {
      DownloadsHold(run, names, i - 1);
      InvHolds(run, i - 1);
      run.Step(i - 1);
      DownloadsStep(run.states[i - 1], run.events[i - 1], run.states[i], names);
    }
  }

  /** No download is under way once a usable snapshot is on disk. */
  lemma NoDownloadOnceOnDisk(run: Run, names: iset<string>, i: nat, t: Thread)
    requires run.Valid() && run.Over(names) && AliasFree(names) && i < |run.states|
    requires t in run.states[i].threads && run.states[i].threads[t].pc.Fetching?
    ensures (run.states[i].threads[t].tool, SnapshotDir(run.states[i].threads[t].name)) !in run.states[i].disk
  {
    hide Next;
    DownloadsHold(run, names, i);
    assert CallNeedsDisk(run.states[i], run.states[i].threads[t], names);
  }

  lemma StepKeepsDisk(s: Sys, e: Event, s': Sys)
    requires Next(s, e) == Some(s')
    ensures s.disk <= s'.disk
  {
  }

  lemma DiskGrows(run: Run, i: nat, j: nat)
    requires run.Valid() && i <= j < |run.states|
    ensures run.states[i].disk <= run.states[j].disk
    decreases j
  {
    hide Next;
    if i < j {
      DiskGrows(run, i, j - 1);
      run.Step(j - 1);
      StepKeepsDisk(run.states[j - 1], run.events[j - 1], run.states[j]);
    }
  }

  lemma DownloadStep(s: Sys, e: Event, s': Sys)
    requires Next(s, e) == Some(s') && e.EndFetch? && e.ok
    ensures e.t in s.threads && s.threads[e.t].pc.Fetching?
    ensures var c := s.threads[e.t];
            && (c.tool, SnapshotDir(c.name)) in s'.disk
            && (c.tool == Vector ==> (Rerank, SnapshotDir(c.name)) in s'.disk)
  {
    var c := s.threads[e.t];
    assert forall tool <- e.leaves :: (tool, SnapshotDir(c.name)) in OnDisk(SnapshotDir(c.name), e.leaves);
  }

  /**
   At most one download per tool and directory succeeds, and after one for the embedding tool
   none for the reranker does.
   */
  lemma DownloadedOnce(run: Run, names: iset<string>, i: nat, j: nat, first: Tool, second: Tool, dir: string)
    requires run.Valid() && run.Over(names) && AliasFree(names)
    requires i < j && run.Downloads(i, first, dir) && (first == second || first == Vector)
    ensures !run.Downloads(j, second, dir)
  {
    hide Next;
    if run.Downloads(j, second, dir) {
      run.Step(i);
      DownloadStep(run.states[i], run.events[i], run.states[i + 1]);
      DiskGrows(run, i + 1, j);
      run.Step(j);
      DownloadStep(run.states[j], run.events[j], run.states[j + 1]);
      NoDownloadOnceOnDisk(run, names, j, run.events[j].t);
      assert false;
    }
  }

  ghost predicate DownloadsAtMostOnce(run: Run) {
    forall i: nat, j: nat, tool: Tool, dir: string | i < j && run.Downloads(i, tool, dir) :: !run.Downloads(j, tool, dir)
  }

  /** The guarantee holds of every run over a set of names exactly when no two of them are aliases. */
  lemma DownloadOnceIff(names: iset<string>)
    ensures (forall run: Run | run.Valid() && run.Over(names) :: DownloadsAtMostOnce(run)) <==> AliasFree(names)
  {
    hide Next;
    if AliasFree(names) {
      forall run: Run | run.Valid() && run.Over(names) ensures DownloadsAtMostOnce(run) {
        forall i: nat, j: nat, tool: Tool, dir: string | i < j && run.Downloads(i, tool, dir)
          ensures !run.Downloads(j, tool, dir)
        {
          DownloadedOnce(run, names, i, j, tool, tool, dir);
        }
      }
    } else {
      var a, b :| a in names && b in names && Aliases(a, b);
      var run := AliasesDownloadTwice(a, b);
      assert run.Valid() && run.Over(names) && !DownloadsAtMostOnce(run);
    }
  }

  function Last(run: Run): Sys {
    if run.states == [] then Init({}) else run.states[|run.states| - 1]
  }

  /** One more step at the end of a run. */
  function Extend(run: Run, e: Event, s': Sys): Run {
    Run(run.states + [s'], run.events + [e])
  }

  lemma ExtendIsRun(run: Run, e: Event, s': Sys)
    requires run.Valid() && Next(Last(run), e) == Some(s')
    ensures Extend(run, e, s').Valid() && Last(Extend(run, e, s')) == s'
  {
  }

  /** A fresh thread of an undisturbed process, asking for a model nobody else handles. */
  ghost predicate Unhindered(s: Sys, t: Thread, tool: Tool, name: string) {
    && t.proc !in s.dead && t !in s.threads
    && LockFile(name) !in s.flock && (t.proc, tool) !in s.cacheLock
    && (t.proc, tool, name) !in s.cache && (tool, SnapshotDir(name)) !in s.disk
  }

  lemma Retold(s: Sys, t: Thread, c: Call, d: Call)
    ensures s.threads[t := c][t := d] == s.threads[t := d]
  {
  }

  /** The same state with thread `t` at `pc` in its call. */
  function Reached(s: Sys, t: Thread, tool: Tool, name: string, pc: Pc): Sys {
    s.(threads := s.threads[t := Call(tool, name, pc)])
  }

  lemma GoesTo(s: Sys, t: Thread, tool: Tool, name: string, pc: Pc, e: Event, pc': Pc)
    requires e.FastCheck? || e.RecheckCache? || e.LookOnDisk? || (e.TryImport? && e.ok)
    requires e.t == t && (t.proc, tool) !in s.cacheLock
    requires (t.proc, tool, name) !in s.cache && (tool, SnapshotDir(name)) !in s.disk
    requires match pc
             case Fast => e.FastCheck? && pc' == AwaitFlock
             case Recheck => e.RecheckCache? && pc' == CheckDisk
             case CheckDisk => e.LookOnDisk? && pc' == Importing(Download)
             case Importing(source) => e.TryImport? && pc' == EnterLoad(source)
             case _ => false
    ensures Next(Reached(s, t, tool, name, pc), e) == Some(Reached(s, t, tool, name, pc'))
  {
    Retold(s, t, Call(tool, name, pc), Call(tool, name, pc'));
  }

  lemma Begins(s: Sys, t: Thread, tool: Tool, name: string)
    requires t.proc !in s.dead && t !in s.threads
    ensures Next(s, Start(t, tool, name)) == Some(Reached(s, t, tool, name, Fast))
  {
  }

  lemma TakesFlock(s: Sys, t: Thread, tool: Tool, name: string)
    requires LockFile(name) !in s.flock
    ensures Next(Reached(s, t, tool, name, AwaitFlock), TakeFlock(t))
         == Some(Reached(s.(flock := s.flock[LockFile(name) := t]), t, tool, name, Recheck))
  {
    Retold(s, t, Call(tool, name, AwaitFlock), Call(tool, name, Recheck));
  }

  lemma BeginsLoad(s: Sys, t: Thread, tool: Tool, name: string)
    requires (t.proc, tool) !in s.cacheLock && (t.proc, tool, name) !in s.cache
    ensures Next(Reached(s, t, tool, name, EnterLoad(Download)), BeginLoad(t))
         == Some(Reached(s.(cacheLock := s.cacheLock[(t.proc, tool) := t]), t, tool, name, Fetching))
  {
    Retold(s, t, Call(tool, name, EnterLoad(Download)), Call(tool, name, Fetching));
  }

  lemma FetchEnds(s: Sys, t: Thread, leaves: set<Tool>)
    requires t in s.threads && s.threads[t].pc.Fetching? && PossibleSnapshot(s.threads[t].tool, true, leaves)
    ensures Next(s, EndFetch(t, true, leaves))
         == Some(At(s.(disk := s.disk + OnDisk(SnapshotDir(s.threads[t].name), leaves)), t, Constructing(Download)))
  {
  }

  /** A step of a run about one name. */
  ghost predicate About(e: Event, name: string) {
    e.Start? ==> e.name == name
  }

  lemma ReachesFlock(run: Run, t: Thread, tool: Tool, name: string) returns (run': Run)
    requires run.Valid() && Unhindered(Last(run), t, tool, name)
    ensures run'.Valid() && |run'.events| == |run.events| + 3 && run.events <= run'.events && run.states <= run'.states
    ensures forall i | |run.events| <= i < |run'.events| :: About(run'.events[i], name)
    ensures var s := Last(run);
            Last(run') == Reached(s.(flock := s.flock[LockFile(name) := t]), t, tool, name, Recheck)
  {
    hide Next, Reached, Run.Valid;
    var s := Last(run);
    Begins(s, t, tool, name);
    var r1 := Extend(run, Start(t, tool, name), Reached(s, t, tool, name, Fast));
    ExtendIsRun(run, Start(t, tool, name), Reached(s, t, tool, name, Fast));
    GoesTo(s, t, tool, name, Fast, FastCheck(t), AwaitFlock);
    var r2 := Extend(r1, FastCheck(t), Reached(s, t, tool, name, AwaitFlock));
    ExtendIsRun(r1, FastCheck(t), Reached(s, t, tool, name, AwaitFlock));
    TakesFlock(s, t, tool, name);
    var s3 := Reached(s.(flock := s.flock[LockFile(name) := t]), t, tool, name, Recheck);
    ExtendIsRun(r2, TakeFlock(t), s3);
    run' := Extend(r2, TakeFlock(t), s3);
  }

  lemma ReachesLoad(run: Run, s: Sys, t: Thread, tool: Tool, name: string) returns (run': Run)
    requires run.Valid() && Last(run) == Reached(s, t, tool, name, Recheck)
    requires (t.proc, tool) !in s.cacheLock && (t.proc, tool, name) !in s.cache && (tool, SnapshotDir(name)) !in s.disk
    ensures run'.Valid() && |run'.events| == |run.events| + 4 && run.events <= run'.events && run.states <= run'.states
    ensures forall i | |run.events| <= i < |run'.events| :: About(run'.events[i], name)
    ensures Last(run') == Reached(s.(cacheLock := s.cacheLock[(t.proc, tool) := t]), t, tool, name, Fetching)
  {
    hide Next, Reached, Run.Valid;
    GoesTo(s, t, tool, name, Recheck, RecheckCache(t), CheckDisk);
    var r1 := Extend(run, RecheckCache(t), Reached(s, t, tool, name, CheckDisk));
    ExtendIsRun(run, RecheckCache(t), Reached(s, t, tool, name, CheckDisk));
    GoesTo(s, t, tool, name, CheckDisk, LookOnDisk(t), Importing(Download));
    var r2 := Extend(r1, LookOnDisk(t), Reached(s, t, tool, name, Importing(Download)));
    ExtendIsRun(r1, LookOnDisk(t), Reached(s, t, tool, name, Importing(Download)));
    GoesTo(s, t, tool, name, Importing(Download), TryImport(t, true), EnterLoad(Download));
    var r3 := Extend(r2, TryImport(t, true), Reached(s, t, tool, name, EnterLoad(Download)));
    ExtendIsRun(r2, TryImport(t, true), Reached(s, t, tool, name, EnterLoad(Download)));
    BeginsLoad(s, t, tool, name);
    var s4 := Reached(s.(cacheLock := s.cacheLock[(t.proc, tool) := t]), t, tool, name, Fetching);
    ExtendIsRun(r3, BeginLoad(t), s4);
    run' := Extend(r3, BeginLoad(t), s4);
  }

  /** Seven steps bring such a thread into its download. */
  lemma ReachesFetching(run: Run, t: Thread, tool: Tool, name: string) returns (run': Run)
    requires run.Valid() && Unhindered(Last(run), t, tool, name)
    ensures run'.Valid() && |run'.events| == |run.events| + 7 && run.events <= run'.events && run.states <= run'.states
    ensures forall i | |run.events| <= i < |run'.events| :: About(run'.events[i], name)
    ensures var s := Last(run);
            Last(run') == Reached(s.(flock := s.flock[LockFile(name) := t], cacheLock := s.cacheLock[(t.proc, tool) := t]),
                                  t, tool, name, Fetching)
  {
    hide Next, Reached, Run.Valid;
    var s := Last(run);
    var r := ReachesFlock(run, t, tool, name);
    run' := ReachesLoad(r, s.(flock := s.flock[LockFile(name) := t]), t, tool, name);
  }

  /** Ending a fetch is a successful download of its directory. */
  lemma FetchIsDownload(run: Run, t: Thread, leaves: set<Tool>) returns (run': Run)
    requires run.Valid() && t in Last(run).threads && Last(run).threads[t].pc.Fetching?
    requires PossibleSnapshot(Last(run).threads[t].tool, true, leaves)
    ensures var s, c := Last(run), Last(run).threads[t];
            && run'.Valid() && run' == Extend(run, EndFetch(t, true, leaves), Last(run'))
            && Last(run') == At(s.(disk := s.disk + OnDisk(SnapshotDir(c.name), leaves)), t, Constructing(Download))
            && run'.Downloads(|run.events|, c.tool, SnapshotDir(c.name))
  {
    var s := Last(run);
    FetchEnds(s, t, leaves);
    hide Next, At;
    var s' := At(s.(disk := s.disk + OnDisk(SnapshotDir(s.threads[t].name), leaves)), t, Constructing(Download));
    ExtendIsRun(run, EndFetch(t, true, leaves), s');
    run' := Extend(run, EndFetch(t, true, leaves), s');
    assert run'.states[|run.events|] == s;
  }

  lemma DownloadsKept(run: Run, run': Run, i: nat, tool: Tool, dir: string)
    requires run.Downloads(i, tool, dir) && run.events <= run'.events && run.states <= run'.states
    ensures run'.Downloads(i, tool, dir)
  {
  }

  lemma StartOfRuns()
    ensures Run([Init({})], []).Valid() && Last(Run([Init({})], [])) == Init({})
  {
  }

  /** Two processes asking for two aliases both download into the one directory. */
  lemma AliasesDownloadTwice(a: string, b: string) returns (run: Run)
    requires Aliases(a, b)
    ensures run.Valid() && run.Over(iset{a, b}) && !DownloadsAtMostOnce(run)
  {
    hide Next, Run.Valid, SnapshotDir, LockFile, Run.Downloads;
    StartOfRuns();
    var t, u := Thread(0, 0), Thread(1, 0);
    var r0 := Run([Init({})], []);
    var r1 := ReachesFetching(r0, t, Vector, a);
    var r2 := ReachesFetching(r1, u, Vector, b);
    var both := {Vector, Rerank};
    var r3 := FetchIsDownload(r2, t, both);
    run := FetchIsDownload(r3, u, both);
    DownloadsKept(r3, run, 14, Vector, SnapshotDir(a));
    assert run.Downloads(14, Vector, SnapshotDir(a)) && run.Downloads(15, Vector, SnapshotDir(a));
    assert forall i | 0 <= i < 14 :: run.events[i] == r2.events[i];
  }

  lemma LoadEnds(s: Sys, t: Thread)
    requires t in s.threads && s.threads[t].pc == Constructing(Download)
    ensures var c := s.threads[t];
            Next(s, EndConstruct(t, true))
            == Some(At(s.(cacheLock := s.cacheLock - {LockKey(t, c)}, cache := s.cache[Key(t, c) := Model]), t, Unlocking(Ready(Download))))
  {
  }

  lemma Unlocks(s: Sys, t: Thread)
    requires t in s.threads && s.threads[t].pc.Unlocking?
    ensures Next(s, DropFlock(t)) == Some(At(s.(flock := s.flock - {LockFile(s.threads[t].name)}), t, Done(s.threads[t].pc.result)))
  {
  }

  /** A reranker's call that ends with its model loaded and no embedding metadata on disk. */
  lemma RerankAlone(name: string) returns (run: Run)
    ensures run.Valid() && run.Over(iset{name}) && |run.events| == 10
    ensures run.Downloads(7, Rerank, SnapshotDir(name))
    ensures Unhindered(Last(run), Thread(1, 0), Vector, name)
  {
    hide Next, Run.Valid, SnapshotDir, LockFile, Run.Downloads;
    StartOfRuns();
    var t := Thread(0, 0);
    var r1 := ReachesFetching(Run([Init({})], []), t, Rerank, name);
    var r2 := FetchIsDownload(r1, t, {Rerank});
    var s2 := Last(r2);
    LoadEnds(s2, t);
    var s3 := Next(s2, EndConstruct(t, true)).value;
    ExtendIsRun(r2, EndConstruct(t, true), s3);
    var r3 := Extend(r2, EndConstruct(t, true), s3);
    Unlocks(s3, t);
    var s4 := Next(s3, DropFlock(t)).value;
    ExtendIsRun(r3, DropFlock(t), s4);
    run := Extend(r3, DropFlock(t), s4);
    OnlyRerank(SnapshotDir(name));
    DownloadsKept(r2, run, 7, Rerank, SnapshotDir(name));
  }

  /**
   For every name: a reranker's download that leaves no embedding metadata is followed by the embedding
   tool's download into the same directory.
   */
  lemma RerankThenVector(name: string) returns (run: Run)
    ensures run.Valid() && run.Over(iset{name})
    ensures exists i, j :: i < j && run.Downloads(i, Rerank, SnapshotDir(name)) && run.Downloads(j, Vector, SnapshotDir(name))
  {
    hide Next, Run.Valid, SnapshotDir, LockFile, Run.Downloads, Unhindered;
    var r1 := RerankAlone(name);
    var r2 := ReachesFetching(r1, Thread(1, 0), Vector, name);
    run := FetchIsDownload(r2, Thread(1, 0), {Vector, Rerank});
    DownloadsKept(r1, run, 7, Rerank, SnapshotDir(name));
    assert run.Downloads(17, Vector, SnapshotDir(name));
  }

  lemma OnlyRerank(dir: string)
    ensures (Vector, dir) !in OnDisk(dir, {Rerank})
  {
  }

  // ---------------------------------------------------------------- a call alone

  /** The state after the events, taken in order; None where one is not enabled. */
  ghost function After(s: Sys, es: seq<Event>): Option<Sys>
    decreases |es|
  {
    if es == [] then Some(s) else if Next(s, es[0]).None? then None else After(Next(s, es[0]).value, es[1..])
  }

  lemma AfterStep(s: Sys, e: Event, s': Sys, es: seq<Event>)
    requires Next(s, e) == Some(s')
    ensures After(s, [e] + es) == After(s', es)
  {
    assert ([e] + es)[1..] == es;
  }

  lemma AfterNone(s: Sys)
    ensures After(s, []) == Some(s)
  {
  }

  /** No one is in the way of this thread, which has no call. */
  ghost predicate Alone(s: Sys, t: Thread, tool: Tool, name: string) {
    t.proc !in s.dead && t !in s.threads && LockFile(name) !in s.flock && (t.proc, tool) !in s.cacheLock
  }

  /** A call that finds its name in the process cache returns at once and changes nothing else. */
  lemma CachedCallReturns(s: Sys, t: Thread, tool: Tool, name: string)
    requires Alone(s, t, tool, name) && (t.proc, tool, name) in s.cache
    ensures After(s, [Start(t, tool, name)] + ([FastCheck(t)] + [])) == Some(Reached(s, t, tool, name, Done(Ready(FromCache))))
  {
    Begins(s, t, tool, name);
    AfterStep(s, Start(t, tool, name), Reached(s, t, tool, name, Fast), [FastCheck(t)] + []);
    var end := Reached(s, t, tool, name, Done(Ready(FromCache)));
    Retold(s, t, Call(tool, name, Fast), Call(tool, name, Done(Ready(FromCache))));
    AfterStep(Reached(s, t, tool, name, Fast), FastCheck(t), end, []);
    AfterNone(end);
  }

  lemma OneStep(s: Sys, t: Thread, tool: Tool, name: string, pc: Pc, e: Event, s': Sys, pc': Pc, es: seq<Event>)
    requires Next(Reached(s, t, tool, name, pc), e) == Some(Reached(s', t, tool, name, pc'))
    ensures After(Reached(s, t, tool, name, pc), [e] + es) == After(Reached(s', t, tool, name, pc'), es)
  {
    AfterStep(Reached(s, t, tool, name, pc), e, Reached(s', t, tool, name, pc'), es);
  }

  /** The steps of a call that is not cached, up to the import, by what it finds on disk. */
  lemma ReachesImport(s: Sys, t: Thread, tool: Tool, name: string, es: seq<Event>)
    requires Alone(s, t, tool, name) && (t.proc, tool, name) !in s.cache
    ensures var locked := s.(flock := s.flock[LockFile(name) := t]);
            After(s, [Start(t, tool, name)] + ([FastCheck(t)] + ([TakeFlock(t)] + ([RecheckCache(t)] + ([LookOnDisk(t)] + es)))))
            == After(Reached(locked, t, tool, name, Importing(if (tool, SnapshotDir(name)) in s.disk then Local else Download)), es)
  {
    hide Next, After, Reached;
    var locked := s.(flock := s.flock[LockFile(name) := t]);
    var source := if (tool, SnapshotDir(name)) in s.disk then Local else Download;
    Begins(s, t, tool, name);
    AfterStep(s, Start(t, tool, name), Reached(s, t, tool, name, Fast),
              [FastCheck(t)] + ([TakeFlock(t)] + ([RecheckCache(t)] + ([LookOnDisk(t)] + es))));
    ChecksMiss(s, t, tool, name);
    OneStep(s, t, tool, name, Fast, FastCheck(t), s, AwaitFlock, [TakeFlock(t)] + ([RecheckCache(t)] + ([LookOnDisk(t)] + es)));
    TakesFlock(s, t, tool, name);
    OneStep(s, t, tool, name, AwaitFlock, TakeFlock(t), locked, Recheck, [RecheckCache(t)] + ([LookOnDisk(t)] + es));
    ChecksMiss(locked, t, tool, name);
    OneStep(locked, t, tool, name, Recheck, RecheckCache(t), locked, CheckDisk, [LookOnDisk(t)] + es);
    OneStep(locked, t, tool, name, CheckDisk, LookOnDisk(t), locked, Importing(source), es);
  }

  lemma ChecksMiss(s: Sys, t: Thread, tool: Tool, name: string)
    requires (t.proc, tool) !in s.cacheLock && (t.proc, tool, name) !in s.cache
    ensures Next(Reached(s, t, tool, name, Fast), FastCheck(t)) == Some(Reached(s, t, tool, name, AwaitFlock))
    ensures Next(Reached(s, t, tool, name, Recheck), RecheckCache(t)) == Some(Reached(s, t, tool, name, CheckDisk))
    ensures Next(Reached(s, t, tool, name, CheckDisk), LookOnDisk(t))
         == Some(Reached(s, t, tool, name, Importing(if (tool, SnapshotDir(name)) in s.disk then Local else Download)))
  {
    Retold(s, t, Call(tool, name, Fast), Call(tool, name, AwaitFlock));
    Retold(s, t, Call(tool, name, Recheck), Call(tool, name, CheckDisk));
    var source := if (tool, SnapshotDir(name)) in s.disk then Local else Download;
    Retold(s, t, Call(tool, name, CheckDisk), Call(tool, name, Importing(source)));
  }

  /** Without the library the name is cached as a fallback, the lock is let go, and the call says so. */
  lemma WithoutLibrary(s: Sys, t: Thread, tool: Tool, name: string, source: Source)
    requires LockFile(name) !in s.flock && (t.proc, tool) !in s.cacheLock
    ensures var locked := s.(flock := s.flock[LockFile(name) := t]);
            After(Reached(locked, t, tool, name, Importing(source)), [TryImport(t, false)] + ([StoreFallback(t)] + ([DropFlock(t)] + [])))
            == Some(Reached(s.(cache := s.cache[(t.proc, tool, name) := Fallback]), t, tool, name, Done(NoLibrary(source))))
  {
    hide After;
    var locked := s.(flock := s.flock[LockFile(name) := t]);
    var stored := locked.(cache := s.cache[(t.proc, tool, name) := Fallback]);
    var end := s.(cache := s.cache[(t.proc, tool, name) := Fallback]);
    Retold(locked, t, Call(tool, name, Importing(source)), Call(tool, name, StoringFallback(source)));
    Retold(locked, t, Call(tool, name, StoringFallback(source)), Call(tool, name, Unlocking(NoLibrary(source))));
    LetsGo(s, stored, end, t, tool, name, NoLibrary(source));
    OneStep(locked, t, tool, name, Importing(source), TryImport(t, false), locked, StoringFallback(source), [StoreFallback(t)] + ([DropFlock(t)] + []));
    OneStep(locked, t, tool, name, StoringFallback(source), StoreFallback(t), stored, Unlocking(NoLibrary(source)), [DropFlock(t)] + []);
    OneStep(stored, t, tool, name, Unlocking(NoLibrary(source)), DropFlock(t), end, Done(NoLibrary(source)), []);
    AfterNone(Reached(end, t, tool, name, Done(NoLibrary(source))));
  }

  lemma LetsGo(s: Sys, locked: Sys, end: Sys, t: Thread, tool: Tool, name: string, result: CallResult)
    requires LockFile(name) !in s.flock && locked.flock == s.flock[LockFile(name) := t] && end == locked.(flock := s.flock)
    ensures Next(Reached(locked, t, tool, name, Unlocking(result)), DropFlock(t)) == Some(Reached(end, t, tool, name, Done(result)))
  {
    assert s.flock[LockFile(name) := t] - {LockFile(name)} == s.flock;
    Retold(end, t, Call(tool, name, Unlocking(result)), Call(tool, name, Done(result)));
    Retold(locked, t, Call(tool, name, Unlocking(result)), Call(tool, name, Done(result)));
  }

  /** With the library a local model is built under both locks, cached if that succeeds, and both locks are let go. */
  lemma LocalLoad(s: Sys, t: Thread, tool: Tool, name: string, ok: bool)
    requires LockFile(name) !in s.flock && (t.proc, tool) !in s.cacheLock && (t.proc, tool, name) !in s.cache
    ensures var locked := s.(flock := s.flock[LockFile(name) := t]);
            After(Reached(locked, t, tool, name, Importing(Local)), [TryImport(t, true)] + ([BeginLoad(t)] + ([EndConstruct(t, ok)] + ([DropFlock(t)] + []))))
            == Some(if ok then Reached(s.(cache := s.cache[(t.proc, tool, name) := Model]), t, tool, name, Done(Ready(Local)))
                    else Reached(s, t, tool, name, Done(Raised)))
  {
    hide After;
    var locked := s.(flock := s.flock[LockFile(name) := t]);
    var both := locked.(cacheLock := s.cacheLock[(t.proc, tool) := t]);
    var result := if ok then Ready(Local) else Raised;
    var built := if ok then locked.(cache := s.cache[(t.proc, tool, name) := Model]) else locked;
    var end := built.(flock := s.flock);
    ImportsAndBegins(locked, t, tool, name, Local);
    BuildEnds(locked, both, t, tool, name, Local, ok);
    LetsGo(s, built, end, t, tool, name, result);
    OneStep(locked, t, tool, name, Importing(Local), TryImport(t, true), locked, EnterLoad(Local), [BeginLoad(t)] + ([EndConstruct(t, ok)] + ([DropFlock(t)] + [])));
    OneStep(locked, t, tool, name, EnterLoad(Local), BeginLoad(t), both, Constructing(Local), [EndConstruct(t, ok)] + ([DropFlock(t)] + []));
    OneStep(both, t, tool, name, Constructing(Local), EndConstruct(t, ok), built, Unlocking(result), [DropFlock(t)] + []);
    OneStep(built, t, tool, name, Unlocking(result), DropFlock(t), end, Done(result), []);
    AfterNone(Reached(end, t, tool, name, Done(result)));
  }

  lemma ImportsAndBegins(s: Sys, t: Thread, tool: Tool, name: string, source: Source)
    requires (t.proc, tool) !in s.cacheLock && (t.proc, tool, name) !in s.cache
    ensures Next(Reached(s, t, tool, name, Importing(source)), TryImport(t, true)) == Some(Reached(s, t, tool, name, EnterLoad(source)))
    ensures Next(Reached(s, t, tool, name, EnterLoad(source)), BeginLoad(t))
         == Some(Reached(s.(cacheLock := s.cacheLock[(t.proc, tool) := t]), t, tool, name,
                         if source == Download then Fetching else Constructing(source)))
  {
    Retold(s, t, Call(tool, name, Importing(source)), Call(tool, name, EnterLoad(source)));
    Retold(s, t, Call(tool, name, EnterLoad(source)), Call(tool, name, if source == Download then Fetching else Constructing(source)));
  }

  lemma BuildEnds(s: Sys, both: Sys, t: Thread, tool: Tool, name: string, source: Source, ok: bool)
    requires (t.proc, tool) !in s.cacheLock && both == s.(cacheLock := s.cacheLock[(t.proc, tool) := t])
    ensures Next(Reached(both, t, tool, name, Constructing(source)), EndConstruct(t, ok))
         == Some(if ok then Reached(s.(cache := s.cache[(t.proc, tool, name) := Model]), t, tool, name, Unlocking(Ready(source)))
                 else Reached(s, t, tool, name, Unlocking(Raised)))
  {
    assert s.cacheLock[(t.proc, tool) := t] - {(t.proc, tool)} == s.cacheLock;
    Retold(s, t, Call(tool, name, Constructing(source)), Call(tool, name, Unlocking(if ok then Ready(source) else Raised)));
    Retold(both, t, Call(tool, name, Constructing(source)), Call(tool, name, Unlocking(if ok then Ready(source) else Raised)));
  }

  /** A download that fails raises, with the cache as it was and both locks let go; one that succeeds goes on to the build. */
  lemma DownloadedLoad(s: Sys, t: Thread, tool: Tool, name: string, fetched: bool, leaves: set<Tool>, built: bool)
    requires LockFile(name) !in s.flock && (t.proc, tool) !in s.cacheLock && (t.proc, tool, name) !in s.cache
    requires PossibleSnapshot(tool, fetched, leaves)
    ensures var locked := s.(flock := s.flock[LockFile(name) := t]);
            var end := s.(disk := s.disk + (set l <- leaves :: (l, SnapshotDir(name))));
            var begun := [TryImport(t, true)] + ([BeginLoad(t)] + ([EndFetch(t, fetched, leaves)]
                           + (if fetched then [EndConstruct(t, built)] + ([DropFlock(t)] + []) else [DropFlock(t)] + [])));
            After(Reached(locked, t, tool, name, Importing(Download)), begun)
            == Some(if fetched && built
                    then Reached(end.(cache := s.cache[(t.proc, tool, name) := Model]), t, tool, name, Done(Ready(Download)))
                    else Reached(end, t, tool, name, Done(Raised)))
  {
    hide After, SnapshotDir, LockFile;
    var end := s.(disk := s.disk + (set l <- leaves :: (l, SnapshotDir(name))));
    var locked := s.(flock := s.flock[LockFile(name) := t]);
    var both := locked.(cacheLock := s.cacheLock[(t.proc, tool) := t]);
    var fetchedBoth, fetchedLocked := both.(disk := end.disk), locked.(disk := end.disk);
    var later := if fetched then [EndConstruct(t, built)] + ([DropFlock(t)] + []) else [DropFlock(t)] + [];
    ImportsAndBegins(locked, t, tool, name, Download);
    OneStep(locked, t, tool, name, Importing(Download), TryImport(t, true), locked, EnterLoad(Download), [BeginLoad(t)] + ([EndFetch(t, fetched, leaves)] + later));
    OneStep(locked, t, tool, name, EnterLoad(Download), BeginLoad(t), both, Fetching, [EndFetch(t, fetched, leaves)] + later);
    FetchEnded(locked, both, t, tool, name, fetched, leaves);
    if fetched {
      var result := if built then Ready(Download) else Raised;
      var ended := if built then fetchedLocked.(cache := s.cache[(t.proc, tool, name) := Model]) else fetchedLocked;
      OneStep(both, t, tool, name, Fetching, EndFetch(t, fetched, leaves), fetchedBoth, Constructing(Download), later);
      BuildEnds(fetchedLocked, fetchedBoth, t, tool, name, Download, built);
      OneStep(fetchedBoth, t, tool, name, Constructing(Download), EndConstruct(t, built), ended, Unlocking(result), [DropFlock(t)] + []);
      LetsGo(s, ended, ended.(flock := s.flock), t, tool, name, result);
      OneStep(ended, t, tool, name, Unlocking(result), DropFlock(t), ended.(flock := s.flock), Done(result), []);
      AfterNone(Reached(ended.(flock := s.flock), t, tool, name, Done(result)));
    } else {
      OneStep(both, t, tool, name, Fetching, EndFetch(t, fetched, leaves), fetchedLocked, Unlocking(Raised), later);
      LetsGo(s, fetchedLocked, end, t, tool, name, Raised);
      OneStep(fetchedLocked, t, tool, name, Unlocking(Raised), DropFlock(t), end, Done(Raised), []);
      AfterNone(Reached(end, t, tool, name, Done(Raised)));
    }
  }

  lemma FetchEnded(s: Sys, both: Sys, t: Thread, tool: Tool, name: string, ok: bool, leaves: set<Tool>)
    requires (t.proc, tool) !in s.cacheLock && both == s.(cacheLock := s.cacheLock[(t.proc, tool) := t])
    requires PossibleSnapshot(tool, ok, leaves)
    ensures var disk := s.disk + (set l <- leaves :: (l, SnapshotDir(name)));
            Next(Reached(both, t, tool, name, Fetching), EndFetch(t, ok, leaves))
            == Some(if ok then Reached(both.(disk := disk), t, tool, name, Constructing(Download))
                    else Reached(s.(disk := disk), t, tool, name, Unlocking(Raised)))
  {
    assert s.cacheLock[(t.proc, tool) := t] - {(t.proc, tool)} == s.cacheLock;
    Retold(s, t, Call(tool, name, Fetching), Call(tool, name, Unlocking(Raised)));
    Retold(both, t, Call(tool, name, Fetching), Call(tool, name, Constructing(Download)));
  }

  /** Nothing looks into or changes a tool's cache while another thread of the process holds its lock, and a held file lock is not taken. */
  lemma LockedOut(s: Sys, t: Thread, tool: Tool, name: string, source: Source)
    ensures (t.proc, tool) in s.cacheLock ==>
              && Next(Reached(s, t, tool, name, Fast), FastCheck(t)).None?
              && Next(Reached(s, t, tool, name, Recheck), RecheckCache(t)).None?
              && Next(Reached(s, t, tool, name, StoringFallback(source)), StoreFallback(t)).None?
              && Next(Reached(s, t, tool, name, EnterLoad(source)), BeginLoad(t)).None?
    ensures LockFile(name) in s.flock ==> Next(Reached(s, t, tool, name, AwaitFlock), TakeFlock(t)).None?
  {
    hide LockFile, SnapshotDir;
  }

  /** A process that dies takes its calls, its locks and its cache with it, and nothing of any other. */
  lemma CrashDrops(s: Sys, p: nat)
    ensures var s1 := Next(s, Crash(p));
            && s1.Some? && s1.value.dead == s.dead + {p} && s1.value.disk == s.disk
            && (forall t :: t in s1.value.threads <==> t in s.threads && t.proc != p)
            && (forall t <- s1.value.threads :: s1.value.threads[t] == s.threads[t])
            && (forall l :: l in s1.value.flock <==> l in s.flock && s.flock[l].proc != p)
            && (forall l <- s1.value.flock :: s1.value.flock[l] == s.flock[l])
            && (forall k :: k in s1.value.cacheLock <==> k in s.cacheLock && k.0 != p)
            && (forall k <- s1.value.cacheLock :: s1.value.cacheLock[k] == s.cacheLock[k])
            && (forall k :: k in s1.value.cache <==> k in s.cache && k.0 != p)
            && (forall k <- s1.value.cache :: s1.value.cache[k] == s.cache[k])
  {
  }

  // ---------------------------------------------------------------- progress

  /** Unless every call has returned, some thread can take a step: the two kinds of locks never deadlock. */
  lemma NoDeadlock(s: Sys, t: Thread) returns (e: Event)
    requires Inv(s) && t in s.threads && !s.threads[t].pc.Done?
    ensures IsThreadStep(e) && Next(s, e).Some?
  {
    var c := s.threads[t];
    if LockKey(t, c) in s.cacheLock {
      assert CacheLockOk(s, LockKey(t, c));
      e := HolderSteps(s, s.cacheLock[LockKey(t, c)]);
    } else if !c.pc.AwaitFlock? {
      e := UnblockedSteps(s, t);
    } else if LockFile(c.name) !in s.flock {
      e := TakeFlock(t);
    } else {
      assert FlockOk(s, LockFile(c.name));
      var h := s.flock[LockFile(c.name)];
      var hk := LockKey(h, s.threads[h]);
      if hk in s.cacheLock {
        assert CacheLockOk(s, hk);
        e := HolderSteps(s, s.cacheLock[hk]);
      } else {
        e := UnblockedSteps(s, h);
      }
    }
  }

  lemma HolderSteps(s: Sys, h: Thread) returns (e: Event)
    requires h in s.threads && HoldsCacheLock(s.threads[h].pc)
    ensures IsThreadStep(e) && Next(s, e).Some?
  {
    e := if s.threads[h].pc.Fetching? then EndFetch(h, false, {}) else EndConstruct(h, false);
  }

  lemma UnblockedSteps(s: Sys, h: Thread) returns (e: Event)
    requires h in s.threads && LockKey(h, s.threads[h]) !in s.cacheLock
    requires !s.threads[h].pc.AwaitFlock? && !s.threads[h].pc.Done?
    ensures IsThreadStep(e) && Next(s, e).Some?
  {
    match s.threads[h].pc
    case Fast => e := FastCheck(h);
    case Recheck => e := RecheckCache(h);
    case CheckDisk => e := LookOnDisk(h);
    case Importing(_) => e := TryImport(h, true);
    case StoringFallback(_) => e := StoreFallback(h);
    case EnterLoad(_) => e := BeginLoad(h);
    case Unlocking(_) => e := DropFlock(h);
    case _ => e := HolderSteps(s, h);
  }
}
