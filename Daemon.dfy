/**
 * The autonomous daemon: a loop that takes the next task from the work
 * queue, runs the agent on it, records the outcome and sleeps, until a
 * shutdown signal or too many consecutive loop errors stop it.
 *
 * Everything the loop cannot see coming is an input. Each pass of the loop
 * is described by a `Step`: whether the loop body raises before it touches
 * the queue (the `except Exception` path of the main loop), what the agent
 * does with the task, whether a shutdown signal arrives during the pass, and
 * the two clock readings the pass takes: one when `start` marks the task in
 * progress, before the agent runs, and one when `complete` or `fail` records
 * the outcome, after it returns or raises. Sleeping is recorded as
 * the list of durations slept; the shutdown statistics as a list of reports.
 */
module Daemon {
  import opened Optional
  import opened Queue

  /** What the agent run does with a task: returns its result or raises. */
  datatype AgentOutcome = Succeeded(output: string) | Raised(message: string)

  /** The unpredictable parts of one pass of the main loop. */
  datatype Step = Step(fault: bool, agent: AgentOutcome, signal: bool, started: string, finished: string)

  /** The three settings given to the daemon when it is created. */
  datatype Config = Config(sleepBetweenTasks: int, sleepWhenIdle: int, maxConsecutiveFailures: int)

  /** The statistics `_log_shutdown_stats` logs; no start time prints as "unknown". */
  datatype Report = Report(startedAt: Option<string>, stoppedAt: string, tasksProcessed: nat)

  /** The daemon's state together with the tasks and the summary of its queue. */
  datatype Snapshot = Snapshot(
    running: bool,
    failures: nat,
    processed: nat,
    tasks: seq<Task>,
    view: Option<Mirror>,
    naps: seq<int>)

  /** How the task ends up once the agent has run. */
  function Finish(outcome: AgentOutcome, now: string): (r: Change)
    ensures r.ToCompleted? <==> outcome.Succeeded?
    ensures !r.ToStarted? && r.at == now
  {
    match outcome
    case Succeeded(output) => ToCompleted(now, output)
    case Raised(message) => ToFailed(now, message)
  }

  /** The stored tasks after `_process_task`: started, then completed or failed. */
  function Processed(ts: seq<Task>, id: string, outcome: AgentOutcome, started: string, finished: string): (r: seq<Task>)
    ensures |r| == |ts|
    ensures UniqueIds(ts) ==> UniqueIds(r)
  {
    RewriteKeepsIds(ts, id, ToStarted(started));
    RewriteKeepsIds(RewriteFirst(ts, id, ToStarted(started)), id, Finish(outcome, finished));
    RewriteFirst(RewriteFirst(ts, id, ToStarted(started)), id, Finish(outcome, finished))
  }

  /** `_process_task` on a snapshot. */
  function AfterTask(s: Snapshot, t: Task, outcome: AgentOutcome, started: string, finished: string): (r: Snapshot)
    ensures r.running == s.running && r.naps == s.naps && |r.tasks| == |s.tasks|
    ensures r.view == Some(Mirror(r.tasks, finished))
    ensures outcome.Succeeded? ==> r.processed == s.processed + 1 && r.failures == 0
    ensures outcome.Raised? ==> r.processed == s.processed && r.failures == s.failures + 1
  {
    var ts := Processed(s.tasks, t.id, outcome, started, finished);
    match outcome
    case Succeeded(_) => s.(tasks := ts, view := Some(Mirror(ts, finished)), processed := s.processed + 1, failures := 0)
    case Raised(_) => s.(tasks := ts, view := Some(Mirror(ts, finished)), failures := s.failures + 1)
  }

  /** One pass of `_main_loop` from a running state. */
  function Pass(s: Snapshot, step: Step, cfg: Config): (r: Snapshot)
    ensures r.running ==> s.running && !step.signal
    ensures |r.tasks| == |s.tasks| && r.processed <= s.processed + 1
    ensures |s.naps| <= |r.naps| <= |s.naps| + 1
  {
    if step.fault then
      var f := s.failures + 1;
      if f >= cfg.maxConsecutiveFailures then s.(failures := f, running := false)
      else s.(failures := f, naps := s.naps + [cfg.sleepWhenIdle], running := s.running && !step.signal)
    else
      match NextOf(s.tasks)
      case None => s.(naps := s.naps + [cfg.sleepWhenIdle], running := s.running && !step.signal)
      case Some(t) =>
        var s1 := AfterTask(s, t, step.agent, step.started, step.finished);
        if step.signal then s1.(running := false)
        else s1.(naps := s1.naps + [cfg.sleepBetweenTasks])
  }

  /** `while self.running:` over the given passes, stopping early once the daemon stops. */
  function Run(s: Snapshot, steps: seq<Step>, cfg: Config): (r: Snapshot)
    ensures r.running ==> s.running
    ensures |r.tasks| == |s.tasks| && r.processed <= s.processed + |steps|
    ensures |r.naps| <= |s.naps| + |steps|
    decreases |steps|
  {
    if !s.running || steps == [] then s
    else Run(Pass(s, steps[0], cfg), steps[1..], cfg)
  }

  // ---------------------------------------------------------------------
  // Properties of one pass
  // ---------------------------------------------------------------------

  /**
   * A running daemon stops in a pass exactly when a shutdown signal arrives
   * or the loop body raises with the failure count reaching the ceiling. A
   * failing agent run never stops it.
   */
  lemma PassStops(s: Snapshot, step: Step, cfg: Config)
    requires s.running
    ensures !Pass(s, step, cfg).running
            <==> step.signal || (step.fault && s.failures + 1 >= cfg.maxConsecutiveFailures)
  {
  }

  /**
   * How the counters move: a successful task counts and clears the failures,
   * a failed agent run and a loop error each add one failure, an idle pass
   * changes neither.
   */
  lemma PassCounters(s: Snapshot, step: Step, cfg: Config)
    ensures step.fault ==> Pass(s, step, cfg).failures == s.failures + 1
                           && Pass(s, step, cfg).processed == s.processed
                           && Pass(s, step, cfg).tasks == s.tasks
    ensures !step.fault && NextOf(s.tasks).None? ==>
              Pass(s, step, cfg).failures == s.failures && Pass(s, step, cfg).processed == s.processed
              && Pass(s, step, cfg).tasks == s.tasks
    ensures !step.fault && NextOf(s.tasks).Some? && step.agent.Succeeded? ==>
              Pass(s, step, cfg).failures == 0 && Pass(s, step, cfg).processed == s.processed + 1
    ensures !step.fault && NextOf(s.tasks).Some? && step.agent.Raised? ==>
              Pass(s, step, cfg).failures == s.failures + 1 && Pass(s, step, cfg).processed == s.processed
  {
  }

  /** Processing the task `get_next` chose, with unique ids, turns exactly that task into a finished one. */
  lemma ProcessedAt(ts: seq<Task>, outcome: AgentOutcome, started: string, finished: string)
    requires UniqueIds(ts) && BestIndex(ts).Some?
    ensures var k := BestIndex(ts).value;
            Processed(ts, ts[k].id, outcome, started, finished)
            == ts[k := Apply(Apply(ts[k], ToStarted(started)), Finish(outcome, finished))]
  {
    var k := BestIndex(ts).value;
    UniqueFirstIndex(ts, k);
    RewriteFirstAt(ts, k, ToStarted(started));
    var t1 := Apply(ts[k], ToStarted(started));
    var begun := ts[k := t1];
    assert begun[k] == t1 && t1.id == ts[k].id;
    RewriteFirstAt(begun, k, Finish(outcome, finished));
    UpdateTwice(ts, k, t1, Apply(t1, Finish(outcome, finished)));
  }

  lemma UpdateTwice<T>(s: seq<T>, k: nat, a: T, b: T)
    requires k < |s|
    ensures s[k := a][k := b] == s[k := b]
  {
  }

  /** The tasks after a pass: only a pass that finds a pending task changes them. */
  lemma PassTasks(s: Snapshot, step: Step, cfg: Config)
    ensures step.fault || NextOf(s.tasks).None? ==> Pass(s, step, cfg).tasks == s.tasks
    ensures !step.fault && NextOf(s.tasks).Some? ==>
              Pass(s, step, cfg).tasks == Processed(s.tasks, NextOf(s.tasks).value.id, step.agent, step.started, step.finished)
  {
  }

  /**
   * A pass that processes a task takes one task out of the pending ones and
   * keeps ids unique; a pass that finds nothing pending leaves the tasks alone.
   */
  lemma PassPending(s: Snapshot, step: Step, cfg: Config)
    requires UniqueIds(s.tasks) && !step.fault
    ensures UniqueIds(Pass(s, step, cfg).tasks)
    ensures NextOf(s.tasks).Some? ==>
              |WithStatus(Pass(s, step, cfg).tasks, Pending)| == |WithStatus(s.tasks, Pending)| - 1
    ensures NextOf(s.tasks).None? ==> Pass(s, step, cfg).tasks == s.tasks
  {
    PassTasks(s, step, cfg);
    if NextOf(s.tasks).Some? {
      ProcessedPending(s.tasks, step.agent, step.started, step.finished);
    }
  }

  /**
   * With unique ids, processing changes only the chosen task. That task
   * keeps the reading taken before the agent ran as its start time and the
   * reading taken after as its completion time, and is completed exactly
   * when the agent succeeded.
   */
  lemma ProcessedStamps(ts: seq<Task>, outcome: AgentOutcome, started: string, finished: string)
    requires UniqueIds(ts) && BestIndex(ts).Some?
    ensures var k := BestIndex(ts).value;
            var r := Processed(ts, ts[k].id, outcome, started, finished);
            r[k].startedAt == Some(started) && r[k].completedAt == Some(finished)
            && (r[k].status == Completed <==> outcome.Succeeded?)
            && forall j :: 0 <= j < |ts| && j != k ==> r[j] == ts[j]
  {
    ProcessedAt(ts, outcome, started, finished);
  }

  /** Processing the task `get_next` chose keeps ids unique and leaves one task fewer pending. */
  lemma ProcessedPending(ts: seq<Task>, outcome: AgentOutcome, started: string, finished: string)
    requires UniqueIds(ts) && NextOf(ts).Some?
    ensures UniqueIds(Processed(ts, NextOf(ts).value.id, outcome, started, finished))
    ensures |WithStatus(Processed(ts, NextOf(ts).value.id, outcome, started, finished), Pending)| == |WithStatus(ts, Pending)| - 1
  {
    var k := BestIndex(ts).value;
    assert NextOf(ts).value == ts[k];
    var done := Apply(Apply(ts[k], ToStarted(started)), Finish(outcome, finished));
    ProcessedAt(ts, outcome, started, finished);
    assert done.status != Pending && done.id == ts[k].id;
    StatusCountAfterUpdate(ts, k, done, Pending);
    UpdateKeepsIds(ts, k, done);
  }

  /** A pass that finds a task processes it, then stops on a signal or sleeps between tasks. */
  lemma PassProcessing(s: Snapshot, step: Step, cfg: Config)
    requires !step.fault && NextOf(s.tasks).Some?
    ensures var s1 := AfterTask(s, NextOf(s.tasks).value, step.agent, step.started, step.finished);
            Pass(s, step, cfg) == if step.signal then s1.(running := false)
                                  else s1.(naps := s1.naps + [cfg.sleepBetweenTasks])
  {
  }

  /** Loop errors leave the queue untouched. */
  lemma FaultKeepsTasks(s: Snapshot, step: Step, cfg: Config)
    requires step.fault
    ensures Pass(s, step, cfg).tasks == s.tasks && Pass(s, step, cfg).view == s.view
  {
  }

  // ---------------------------------------------------------------------
  // Properties of the loop
  // ---------------------------------------------------------------------

  /**
   * Without loop errors or shutdown signals, and with unique ids, the daemon
   * keeps running and leaves no task pending once it has made as many passes
   * as there were pending tasks, whatever the agent does with each task.
   */
  lemma {:induction false} RunDrains(s: Snapshot, steps: seq<Step>, cfg: Config)
    requires s.running && UniqueIds(s.tasks)
    requires forall i :: 0 <= i < |steps| ==> !steps[i].fault && !steps[i].signal
    requires |steps| >= |WithStatus(s.tasks, Pending)|
    ensures Run(s, steps, cfg).running
    ensures WithStatus(Run(s, steps, cfg).tasks, Pending) == []
    decreases |steps|
  {
    if steps == [] {
      assert |WithStatus(s.tasks, Pending)| == 0;
    } else {
      var s1 := Pass(s, steps[0], cfg);
      PassStops(s, steps[0], cfg);
      PassPending(s, steps[0], cfg);
      PassTasks(s, steps[0], cfg);
      if NextOf(s.tasks).None? {
        WithStatusNone(s.tasks, Pending);
      }
      assert forall i :: 0 <= i < |steps[1..]| ==> !steps[1..][i].fault && !steps[1..][i].signal by {
        forall i | 0 <= i < |steps[1..]| ensures !steps[1..][i].fault && !steps[1..][i].signal {
          assert steps[1..][i] == steps[i + 1];
        }
      }
      RunDrains(s1, steps[1..], cfg);
    }
  }

  // ---------------------------------------------------------------------
  // Duplicate ids
  // ---------------------------------------------------------------------

  /**
   * The queue `[b, c]` where `c` is the only pending task and `b`, stored
   * before it, carries the same id: `get_next` picks `c`, but `start`,
   * `complete` and `fail` rewrite the first task with that id, which is `b`.
   */
  predicate Shadowed(ts: seq<Task>, c: Task)
  {
    |ts| == 2 && ts[1] == c && ts[0].id == c.id && ts[0].status != Pending && c.status == Pending
  }

  /** `get_next` picks the shadowed task, the only pending one. */
  lemma ShadowedNext(ts: seq<Task>, c: Task)
    requires Shadowed(ts, c)
    ensures NextOf(ts) == Some(c)
  {
    assert ts[1].status == Pending;
    assert BestIndex(ts) == Some(1);
  }

  /** Processing the shadowed task's id rewrites the task before it and leaves the queue shadowed. */
  lemma ShadowedProcessed(ts: seq<Task>, c: Task, outcome: AgentOutcome, started: string, finished: string)
    requires Shadowed(ts, c)
    ensures Shadowed(Processed(ts, c.id, outcome, started, finished), c)
  {
    var b1 := Apply(ts[0], ToStarted(started));
    var b2 := Apply(b1, Finish(outcome, finished));
    assert RewriteFirst(ts, c.id, ToStarted(started)) == [b1] + ts[1..];
    assert RewriteFirst([b1] + ts[1..], c.id, Finish(outcome, finished)) == [b2] + ts[1..];
  }

  /** With a shadowed pending task, a pass picks it, rewrites the task before it, and leaves it pending. */
  lemma ShadowedPass(s: Snapshot, step: Step, cfg: Config, c: Task)
    requires Shadowed(s.tasks, c) && !step.fault
    ensures NextOf(s.tasks) == Some(c)
    ensures Shadowed(Pass(s, step, cfg).tasks, c)
    ensures Pass(s, step, cfg).running == (s.running && !step.signal)
    ensures step.agent.Succeeded? ==> Pass(s, step, cfg).processed == s.processed + 1
  {
    ShadowedNext(s.tasks, c);
    ShadowedProcessed(s.tasks, c, step.agent, step.started, step.finished);
    PassTasks(s, step, cfg);
  }

  /**
   * The shadowed queue arises from `Queue.DuplicateIdAfterPurge`: the daemon
   * processes the surviving task `b`, and the next `add` in the same second,
   * seeing one stored task, gives the new task `c` the id `b` already has.
   */
  lemma ShadowedAfterReuse(b: Task, c: Task, stamp: string, outcome: AgentOutcome, started: string, finished: string)
    requires b.id == TaskId(stamp, 1) && b.status == Pending
    requires c.id == TaskId(stamp, |Processed([b], b.id, outcome, started, finished)|) && c.status == Pending
    ensures Shadowed(Processed([b], b.id, outcome, started, finished) + [c], c)
  {
    var b1 := Apply(b, ToStarted(started));
    assert RewriteFirst([b], b.id, ToStarted(started)) == [b1];
    assert RewriteFirst([b1], b.id, Finish(outcome, finished)) == [Apply(b1, Finish(outcome, finished))];
  }

  /**
   * The livelock: however many passes run without loop errors or signals,
   * the shadowed task stays pending and is picked again every time, while
   * each successful agent run counts as a processed task. Compare
   * `RunDrains`, where unique ids rule this out.
   */
  lemma {:induction false} ShadowedRun(s: Snapshot, steps: seq<Step>, cfg: Config, c: Task)
    requires s.running && Shadowed(s.tasks, c)
    requires forall i :: 0 <= i < |steps| ==> !steps[i].fault && !steps[i].signal && steps[i].agent.Succeeded?
    ensures Run(s, steps, cfg).running
    ensures Shadowed(Run(s, steps, cfg).tasks, c) && NextOf(Run(s, steps, cfg).tasks) == Some(c)
    ensures Run(s, steps, cfg).processed == s.processed + |steps|
    decreases |steps|
  {
    if steps == [] {
      ShadowedNext(s.tasks, c);
    } else {
      ShadowedPass(s, steps[0], cfg, c);
      assert forall i :: 0 <= i < |steps[1..]| ==>
               !steps[1..][i].fault && !steps[1..][i].signal && steps[1..][i].agent.Succeeded? by {
        forall i | 0 <= i < |steps[1..]|
          ensures !steps[1..][i].fault && !steps[1..][i].signal && steps[1..][i].agent.Succeeded?
        {
          assert steps[1..][i] == steps[i + 1];
        }
      }
      ShadowedRun(Pass(s, steps[0], cfg), steps[1..], cfg, c);
    }
  }

  /** The daemon never runs on with `failures` at the ceiling after a loop error. */
  lemma {:induction false} RunStopsOnErrors(s: Snapshot, steps: seq<Step>, cfg: Config)
    requires s.running && |steps| > 0
    requires forall i :: 0 <= i < |steps| ==> steps[i].fault
    requires |steps| >= cfg.maxConsecutiveFailures - s.failures
    ensures !Run(s, steps, cfg).running
    ensures Run(s, steps, cfg).tasks == s.tasks
    decreases |steps|
  {
    var s1 := Pass(s, steps[0], cfg);
    if s1.running && |steps| > 1 {
      assert forall i :: 0 <= i < |steps[1..]| ==> steps[1..][i].fault by {
        forall i | 0 <= i < |steps[1..]| ensures steps[1..][i].fault { assert steps[1..][i] == steps[i + 1]; }
      }
      RunStopsOnErrors(s1, steps[1..], cfg);
    }
  }

  // ---------------------------------------------------------------------
  // The daemon object
  // ---------------------------------------------------------------------

  class AutonomousDaemon {
    const queue: WorkQueue
    const sleepBetweenTasks: int
    const sleepWhenIdle: int
    const maxConsecutiveFailures: int

    var running: bool
    var consecutiveFailures: nat
    var tasksProcessed: nat
    var startTime: Option<string>
    /** The durations slept, in order. */
    var naps: seq<int>
    /** The shutdown statistics logged, in order. */
    var reports: seq<Report>

    function Cfg(): Config
    {
      Config(sleepBetweenTasks, sleepWhenIdle, maxConsecutiveFailures)
    }

    function Snap(): Snapshot
      reads this, queue
    {
      Snapshot(running, consecutiveFailures, tasksProcessed, queue.Load(), queue.view, naps)
    }

    /** `AutonomousDaemon(queue, sleep_between_tasks, sleep_when_idle, max_consecutive_failures)`. */
    constructor (queue: WorkQueue, sleepBetweenTasks: int, sleepWhenIdle: int, maxConsecutiveFailures: int)
      ensures this.queue == queue
      ensures Cfg() == Config(sleepBetweenTasks, sleepWhenIdle, maxConsecutiveFailures)
      ensures !running && consecutiveFailures == 0 && tasksProcessed == 0 && startTime == None
      ensures naps == [] && reports == []
    {
      this.queue := queue;
      this.sleepBetweenTasks := sleepBetweenTasks;
      this.sleepWhenIdle := sleepWhenIdle;
      this.maxConsecutiveFailures := maxConsecutiveFailures;
      running := false;
      consecutiveFailures := 0;
      tasksProcessed := 0;
      startTime := None;
      naps := [];
      reports := [];
    }

    /** The defaults: ten seconds between tasks, a minute when idle, three errors in a row. */
    static method Default(queue: WorkQueue) returns (d: AutonomousDaemon)
      ensures fresh(d) && d.queue == queue && d.Cfg() == Config(10, 60, 3)
      ensures !d.running && d.consecutiveFailures == 0 && d.tasksProcessed == 0 && d.startTime == None
      ensures d.naps == [] && d.reports == []
    {
      d := new AutonomousDaemon(queue, 10, 60, 3);
    }

    /** `_handle_shutdown`. */
    method HandleShutdown()
      modifies this`running
      ensures !running
    {
      running := false;
    }

    /** `_log_shutdown_stats`. */
    method LogShutdownStats(now: string)
      modifies this`reports
      ensures reports == old(reports) + [Report(startTime, now, tasksProcessed)]
    {
      reports := reports + [Report(startTime, now, tasksProcessed)];
    }

    /** `_process_task`, for a task the queue holds. */
    method ProcessTask(t: Task, outcome: AgentOutcome, started: string, finished: string)
      requires FirstIndex(queue.Load(), t.id).Some?
      modifies this`tasksProcessed, this`consecutiveFailures, queue
      ensures queue.Load() == Processed(old(queue.Load()), t.id, outcome, started, finished)
      ensures queue.view == Some(Mirror(queue.Load(), finished))
      ensures outcome.Succeeded? ==> tasksProcessed == old(tasksProcessed) + 1 && consecutiveFailures == 0
      ensures outcome.Raised? ==> tasksProcessed == old(tasksProcessed)
                                  && consecutiveFailures == old(consecutiveFailures) + 1
    {
      ghost var ts := queue.Load();
      var _ := queue.Start(t.id, started);
      ghost var begun := queue.Load();
      assert begun == RewriteFirst(ts, t.id, ToStarted(started));
      RewriteKeepsIds(ts, t.id, ToStarted(started));
      assert FirstIndex(begun, t.id).Some? by {
        var k := FirstIndex(ts, t.id).value;
        assert begun[k].id == t.id;
      }
      match outcome
      case Succeeded(output) =>
        var _ := queue.Complete(t.id, output, finished);
        tasksProcessed := tasksProcessed + 1;
        consecutiveFailures := 0;
      case Raised(message) =>
        var _ := queue.Fail(t.id, message, finished);
        consecutiveFailures := consecutiveFailures + 1;
    }

    /** The part of a pass after `get_next` found `t`: process it, then stop or sleep. */
    method RunFound(t: Task, step: Step)
      requires running && FirstIndex(queue.Load(), t.id).Some?
      modifies this, queue
      ensures var s1 := AfterTask(old(Snap()), t, step.agent, step.started, step.finished);
              Snap() == if step.signal then s1.(running := false)
                        else s1.(naps := s1.naps + [sleepBetweenTasks])
      ensures startTime == old(startTime) && reports == old(reports)
    {
      ghost var s1 := AfterTask(Snap(), t, step.agent, step.started, step.finished);
      ghost var ts := Processed(queue.Load(), t.id, step.agent, step.started, step.finished);
      ProcessTask(t, step.agent, step.started, step.finished);
      assert queue.Load() == s1.tasks == ts;
      assert queue.view == s1.view == Some(Mirror(ts, step.finished));
      assert running == s1.running && naps == s1.naps;
      assert consecutiveFailures == s1.failures && tasksProcessed == s1.processed;
      assert Snap() == s1;
      if step.signal { HandleShutdown(); }
      if running {
        naps := naps + [sleepBetweenTasks];
      }
    }

    /** One pass of the body of `_main_loop`. */
    method Iterate(step: Step)
      requires running
      modifies this, queue
      ensures Snap() == Pass(old(Snap()), step, Cfg())
      ensures startTime == old(startTime) && reports == old(reports)
    {
      if step.fault {
        consecutiveFailures := consecutiveFailures + 1;
        if consecutiveFailures >= maxConsecutiveFailures {
          running := false;
        } else {
          naps := naps + [sleepWhenIdle];
          if step.signal { HandleShutdown(); }
        }
        return;
      }
      var task := queue.GetNext();
      if task.None? {
        naps := naps + [sleepWhenIdle];
        if step.signal { HandleShutdown(); }
        return;
      }
      ghost var ts := queue.Load();
      assert FirstIndex(ts, task.value.id).Some? by {
        var k: nat :| IsNextAt(ts, k) && task.value == ts[k];
        assert ts[k].id == task.value.id;
      }
      PassProcessing(Snap(), step, Cfg());
      RunFound(task.value, step);
    }

    /** `_main_loop` over the passes the daemon gets to make, then the statistics once it stops. */
    method MainLoop(steps: seq<Step>, stopNow: string)
      modifies this, queue
      ensures Snap() == Run(old(Snap()), steps, Cfg())
      ensures startTime == old(startTime)
      ensures reports == old(reports) + (if running then [] else [Report(startTime, stopNow, tasksProcessed)])
    {
      var k := 0;
      while running && k < |steps|
        invariant 0 <= k <= |steps|
        invariant Run(Snap(), steps[k..], Cfg()) == Run(old(Snap()), steps, Cfg())
        invariant startTime == old(startTime) && reports == old(reports)
      {
        Iterate(steps[k]);
        assert steps[k..][1..] == steps[k + 1..];
        k := k + 1;
      }
      if !running {
        LogShutdownStats(stopNow);
      }
    }

    /** `start`: mark the daemon running from `startNow`, then run the loop. */
    method Start(steps: seq<Step>, startNow: string, stopNow: string)
      modifies this, queue
      ensures startTime == Some(startNow)
      ensures Snap() == Run(old(Snap()).(running := true), steps, Cfg())
      ensures reports == old(reports) + (if running then [] else [Report(Some(startNow), stopNow, tasksProcessed)])
    {
      running := true;
      startTime := Some(startNow);
      MainLoop(steps, stopNow);
    }
  }
}
