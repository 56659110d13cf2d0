/**
 * One tick of the routine scheduler: for every routine in table order, fire
 * it when it is enabled, its schedule is due in the current minute, and it
 * has not fired for that minute yet. The same rule runs in the standalone
 * scheduler loop (over a local `last_run` dictionary) and in the bot's
 * once-a-minute `scheduler_check` (over a module-level one).
 *
 * The cron library is a parameter: `due(schedule, minute)` says that the
 * next run after the start of the previous minute falls in `minute`, where
 * minutes are `%Y-%m-%d %H:%M` keys. Running a routine has no effect on the
 * scheduler's state and its exceptions are swallowed, so a tick records only
 * which routines it fired, in order.
 */
module Scheduler {
  import opened Routines

  type Cron = (string, string) -> bool

  /** The condition under which the tick fires `r` against the `last_run` entries `lastRun`. */
  predicate Fires(r: Routine, minute: string, due: Cron, lastRun: map<string, string>)
  {
    r.enabled && due(r.schedule, minute) && (r.name !in lastRun || lastRun[r.name] != minute)
  }

  /** The `last_run` entries and the fired names after the tick has gone through `rs`. */
  function TickOver(rs: seq<Routine>, minute: string, due: Cron, lastRun: map<string, string>)
    : (r: (map<string, string>, seq<string>))
    ensures |r.1| <= |rs| && lastRun.Keys <= r.0.Keys
    decreases |rs|
  {
    if rs == [] then (lastRun, [])
    else
      var prev := TickOver(rs[..|rs| - 1], minute, due, lastRun);
      var r := rs[|rs| - 1];
      if Fires(r, minute, due, prev.0) then (prev.0[r.name := minute], prev.1 + [r.name]) else prev
  }

  /**
   * What a tick fires and records: every fired name belongs to an enabled,
   * due routine and is recorded against this minute; every other entry of
   * `last_run` stays as it was.
   */
  lemma {:induction false} TickRecords(rs: seq<Routine>, minute: string, due: Cron, lastRun: map<string, string>)
    ensures forall n :: n in TickOver(rs, minute, due, lastRun).1 ==>
              exists i :: 0 <= i < |rs| && rs[i].name == n && rs[i].enabled && due(rs[i].schedule, minute)
    ensures forall n :: n in TickOver(rs, minute, due, lastRun).1 ==>
              n in TickOver(rs, minute, due, lastRun).0 && TickOver(rs, minute, due, lastRun).0[n] == minute
    ensures forall n :: n !in TickOver(rs, minute, due, lastRun).1 ==>
              (n in TickOver(rs, minute, due, lastRun).0 <==> n in lastRun)
    ensures forall n :: n !in TickOver(rs, minute, due, lastRun).1 && n in lastRun ==>
              TickOver(rs, minute, due, lastRun).0[n] == lastRun[n]
    decreases |rs|
  {
    if rs != [] {
      var front := rs[..|rs| - 1];
      TickRecords(front, minute, due, lastRun);
      var r := rs[|rs| - 1];
      forall n | n in TickOver(front, minute, due, lastRun).1
        ensures exists i :: 0 <= i < |rs| && rs[i].name == n && rs[i].enabled && due(rs[i].schedule, minute)
      {
        var i :| 0 <= i < |front| && front[i].name == n && front[i].enabled && due(front[i].schedule, minute);
        assert rs[i] == front[i];
      }
    }
  }

  /** After a tick, every enabled routine that is due has this minute recorded. */
  lemma {:induction false} TickCoversDue(rs: seq<Routine>, minute: string, due: Cron, lastRun: map<string, string>)
    ensures var lr := TickOver(rs, minute, due, lastRun).0;
            forall i :: 0 <= i < |rs| && rs[i].enabled && due(rs[i].schedule, minute)
                        ==> rs[i].name in lr && lr[rs[i].name] == minute
    decreases |rs|
  {
    if rs != [] {
      var front := rs[..|rs| - 1];
      TickCoversDue(front, minute, due, lastRun);
      var lr0 := TickOver(front, minute, due, lastRun).0;
      var lr := TickOver(rs, minute, due, lastRun).0;
      forall i | 0 <= i < |rs| && rs[i].enabled && due(rs[i].schedule, minute)
        ensures rs[i].name in lr && lr[rs[i].name] == minute
      {
        if i < |rs| - 1 {
          assert rs[i] == front[i];
        }
      }
    }
  }

  /** A tick against entries that already record this minute for every due routine fires nothing and changes nothing. */
  lemma {:induction false} TickQuiet(rs: seq<Routine>, minute: string, due: Cron, lastRun: map<string, string>)
    requires forall i :: 0 <= i < |rs| && rs[i].enabled && due(rs[i].schedule, minute)
                         ==> rs[i].name in lastRun && lastRun[rs[i].name] == minute
    ensures TickOver(rs, minute, due, lastRun) == (lastRun, [])
    decreases |rs|
  {
    if rs != [] {
      var front := rs[..|rs| - 1];
      forall i | 0 <= i < |front| && front[i].enabled && due(front[i].schedule, minute)
        ensures front[i].name in lastRun && lastRun[front[i].name] == minute
      {
        assert front[i] == rs[i];
      }
      TickQuiet(front, minute, due, lastRun);
    }
  }

  /** However many ticks run within one minute, only the first fires anything. */
  lemma SecondTickQuiet(rs: seq<Routine>, minute: string, due: Cron, lastRun: map<string, string>)
    ensures var lr := TickOver(rs, minute, due, lastRun).0;
            TickOver(rs, minute, due, lr) == (lr, [])
  {
    TickCoversDue(rs, minute, due, lastRun);
    TickQuiet(rs, minute, due, TickOver(rs, minute, due, lastRun).0);
  }

  /** With distinct names, a routine fires exactly when it is enabled, due and not yet recorded for the minute. */
  lemma {:induction false} TickFiresIff(rs: seq<Routine>, minute: string, due: Cron, lastRun: map<string, string>, k: nat)
    requires DistinctNames(rs) && k < |rs|
    ensures rs[k].name in TickOver(rs, minute, due, lastRun).1
            <==> Fires(rs[k], minute, due, lastRun)
    decreases |rs|
  {
    var front := rs[..|rs| - 1];
    var r := rs[|rs| - 1];
    var lr, fired := TickOver(front, minute, due, lastRun).0, TickOver(front, minute, due, lastRun).1;
    TickRecords(front, minute, due, lastRun);
    if k < |rs| - 1 {
      assert DistinctNames(front) by {
        forall i, j | 0 <= i < j < |front| ensures front[i].name != front[j].name {
          assert front[i] == rs[i] && front[j] == rs[j];
        }
      }
      assert front[k] == rs[k];
      TickFiresIff(front, minute, due, lastRun, k);
      assert r.name != rs[k].name;
    } else {
      assert forall i :: 0 <= i < |front| ==> front[i].name != r.name by {
        forall i | 0 <= i < |front| ensures front[i].name != r.name { assert front[i] == rs[i]; }
      }
      assert r.name !in fired;
    }
  }

  predicate NoRepeats(names: seq<string>)
  {
    forall i, j :: 0 <= i < j < |names| ==> names[i] != names[j]
  }

  /** With distinct names, a tick fires each routine at most once. */
  lemma {:induction false} TickFiresOnce(rs: seq<Routine>, minute: string, due: Cron, lastRun: map<string, string>)
    requires DistinctNames(rs)
    ensures NoRepeats(TickOver(rs, minute, due, lastRun).1)
    decreases |rs|
  {
    if rs != [] {
      var front := rs[..|rs| - 1];
      var r := rs[|rs| - 1];
      assert DistinctNames(front) by {
        forall i, j | 0 <= i < j < |front| ensures front[i].name != front[j].name {
          assert front[i] == rs[i] && front[j] == rs[j];
        }
      }
      TickFiresOnce(front, minute, due, lastRun);
      TickRecords(front, minute, due, lastRun);
      var lr, fired := TickOver(front, minute, due, lastRun).0, TickOver(front, minute, due, lastRun).1;
      if Fires(r, minute, due, lr) {
        assert forall i :: 0 <= i < |front| ==> front[i].name != r.name by {
          forall i | 0 <= i < |front| ensures front[i].name != r.name { assert front[i] == rs[i]; }
        }
        assert r.name !in fired;
        var all := fired + [r.name];
        assert TickOver(rs, minute, due, lastRun).1 == all;
        forall i, j | 0 <= i < j < |all| ensures all[i] != all[j] {
          if j == |fired| { assert all[i] == fired[i]; }
        }
      } else {
        assert TickOver(rs, minute, due, lastRun).1 == fired;
      }
    }
  }

  /** A tick over the shipped table fires each routine at most once, and exactly the enabled, due, unrecorded ones. */
  lemma ShippedTick(p: Prompts, minute: string, due: Cron, lastRun: map<string, string>, k: nat)
    requires k < |Table(p)|
    ensures NoRepeats(TickOver(Table(p), minute, due, lastRun).1)
    ensures Table(p)[k].name in TickOver(Table(p), minute, due, lastRun).1 <==> Fires(Table(p)[k], minute, due, lastRun)
  {
    ShippedRoutines(p);
    TickFiresOnce(Table(p), minute, due, lastRun);
    TickFiresIff(Table(p), minute, due, lastRun, k);
  }

  /** `60 - now.second`: the sleep until the next minute, always one to sixty seconds. */
  function SleepSeconds(second: int): (s: int)
    requires 0 <= second <= 59
    ensures 1 <= s <= 60
    ensures (second + s) % 60 == 0
  {
    60 - second
  }

  /** The `last_run` dictionary of a scheduler and the routines it has fired. */
  class MinuteLedger {
    var lastRun: map<string, string>
    /** The names passed to `run_routine`, in order. */
    var fired: seq<string>

    constructor ()
      ensures lastRun == map[] && fired == []
    {
      lastRun := map[];
      fired := [];
    }

    /** One tick over the routine table `rs` (`ROUTINES` in both callers) in the minute `minute`. */
    method Tick(rs: seq<Routine>, minute: string, due: Cron)
      modifies this
      ensures |fired| >= |old(fired)| && fired[..|old(fired)|] == old(fired)
      ensures (lastRun, fired[|old(fired)|..]) == TickOver(rs, minute, due, old(lastRun))
    {
      ghost var start := fired;
      var k := 0;
      assert rs[..0] == [];
      assert fired[|start|..] == [];
      assert TickOver(rs[..0], minute, due, old(lastRun)) == (old(lastRun), []);
      while k < |rs|
        invariant 0 <= k <= |rs|
        invariant |fired| >= |start| && fired[..|start|] == start
        invariant (lastRun, fired[|start|..]) == TickOver(rs[..k], minute, due, old(lastRun))
      {
        var routine := rs[k];
        assert rs[..k + 1][..k] == rs[..k] && rs[..k + 1][k] == routine;
        ghost var prev := TickOver(rs[..k], minute, due, old(lastRun));
        if routine.enabled && due(routine.schedule, minute) {
          if routine.name !in lastRun || lastRun[routine.name] != minute {
            assert Fires(routine, minute, due, prev.0);
            lastRun := lastRun[routine.name := minute];
            assert (fired + [routine.name])[|start|..] == fired[|start|..] + [routine.name];
            fired := fired + [routine.name];
          }
        }
        k := k + 1;
      }
      assert rs[..k] == rs;
    }
  }
}
