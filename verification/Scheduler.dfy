/** The scheduler as it runs, its jobs and slots changed in place. */
module Scheduler {
  import opened Events
  import opened CronRuns

  /** seen are the names of the first n files. */
  ghost predicate Names(files: seq<Job>, n: nat, seen: set<string>)
    requires n <= |files|
  {
    forall name :: name in seen <==> exists k :: 0 <= k < n && files[k].name == name
  }

  lemma NoneSeen(files: seq<Job>)
    ensures Names(files, 0, {})
  {
  }

  lemma SeenOneMore(files: seq<Job>, n: nat, seen: set<string>)
    requires n < |files| && Names(files, n, seen)
    ensures Names(files, n + 1, seen + {files[n].name})
  {
  }

  class Scheduler {
    var jobs: map<string, JobState>
    var lastSlot: map<string, int>
    var runs: seq<Run>
    var going: set<nat>

    function Value(): Books
      reads this
    {
      Books(jobs, lastSlot, runs, going)
    }

    constructor (runs: seq<Run>)
      ensures Value() == Books(map[], map[], runs, {})
    {
      jobs, lastSlot, this.runs, going := map[], map[], runs, {};
    }

    method NextSlot(j: Job, t: int) returns (r: Option<int>)
      ensures r == NextAfter(Value(), j, t)
    {
      var from := t;
      if j.name in lastSlot && lastSlot[j.name] > from {
        from := lastSlot[j.name];
      }
      return j.sched(from);
    }

    /** The latest slot missed, looking at no more than MAX_STEPS of them. */
    method Missed(j: Job, now: int) returns (last: Option<int>)
      ensures last == MissedSlot(Value(), j, now)
    {
      if j.window <= 0 {
        return None;
      }
      var from := now - j.window;
      if j.name in lastSlot && lastSlot[j.name] > from {
        from := lastSlot[j.name];
      }
      if j.modTime > from {
        from := j.modTime;
      }
      last := None;
      var t, n := j.sched(from), 0;
      while t.Some? && t.value <= now && n < MAX_STEPS
        invariant 0 <= n <= MAX_STEPS
        invariant LastOf(j.sched, t, now, MAX_STEPS - n, last) == MissedSlot(Value(), j, now)
        decreases MAX_STEPS - n
      {
        last := t;
        t, n := j.sched(t.value), n + 1;
      }
    }

    method StartLocked(name: string, cause: Cause, slot: int, ok: bool)
      requires name in jobs
      modifies this
      ensures Value() == Started(old(Value()), name, cause, slot, ok)
    {
      if cause != Manual && !(name in lastSlot && lastSlot[name] > slot) {
        lastSlot := lastSlot[name := slot];
      }
      if jobs[name].running.Some? {
        if ok {
          runs := runs + [Run(name, cause, slot, Skipped)];
        }
        return;
      }
      if !ok {
        return;
      }
      jobs := jobs[name := jobs[name].(running := Some(|runs|))];
      going := going + {|runs|};
      runs := runs + [Run(name, cause, slot, Running)];
    }

    /** A tick: every job that is due runs, for one slot. The map is walked in
        any order, each job once. */
    method FireDueLocked(now: int, ok: string -> bool) returns (ghost order: seq<string>)
      modifies this
      ensures Value() == FiredAll(old(Value()), order, now, ok)
      ensures EachOnce(order) && forall name :: name in old(jobs) ==> name in order
    {
      order := [];
      var left := jobs.Keys;
      while left != {}
        invariant left <= jobs.Keys == old(jobs).Keys
        invariant Value() == FiredAll(old(Value()), order, now, ok)
        invariant EachOnce(order) && forall name :: name in order ==> name !in left
        invariant forall name :: name in old(jobs) ==> name in order || name in left
        decreases |left|
      {
        var name :| name in left;
        left := left - {name};
        ghost var before := order;
        order := order + [name];
        assert order[..|order| - 1] == before;
        FireLocked(name, now, ok(name));
      }
    }

    method FireLocked(name: string, now: int, ok: bool)
      requires name in jobs
      modifies this
      ensures Value() == Fired(old(Value()), name, now, ok) && jobs.Keys == old(jobs).Keys
    {
      var js := jobs[name];
      if js.next.None? || js.next.value > now {
        return;
      }
      StartedKeys(Value(), name, OnSchedule, js.next.value, ok);
      StartLocked(name, OnSchedule, js.next.value, ok);
      var next := NextSlot(js.job, now);
      jobs := jobs[name := jobs[name].(next := next)];
    }

    method ScanLocked(j: Job, now: int, startup: bool, ok: bool)
      modifies this
      ensures Value() == Scanned(old(Value()), j, now, startup, ok)
    {
      if j.name in jobs && jobs[j.name].job.modTime == j.modTime && jobs[j.name].job.path == j.path {
        return;
      }
      jobs := jobs[j.name := JobState(j, None, if j.name in jobs then jobs[j.name].running else None)];
      if j.broken || !j.enabled {
        return;
      }
      if startup {
        var missed := Missed(j, now);
        if missed.Some? {
          StartedKeys(Value(), j.name, CatchUp, missed.value, ok);
          StartLocked(j.name, CatchUp, missed.value, ok);
        }
      }
      var next := NextSlot(j, now);
      jobs := jobs[j.name := jobs[j.name].(next := next)];
    }

    /** files are the job files read, or None if the directory could not be. */
    method RescanLocked(files: Option<seq<Job>>, now: int, startup: bool, ok: string -> bool)
      modifies this
      ensures Value() == Rescanned(old(Value()), files, now, startup, ok)
    {
      if files.Some? {
        ReadFiles(files.value, now, startup, ok);
      }
    }

    method ReadFiles(files: seq<Job>, now: int, startup: bool, ok: string -> bool)
      modifies this
      ensures Value() == Swept(ScannedAll(old(Value()), files, now, startup, ok), files)
    {
      hide Names, Scanned;
      var seen: set<string> := {};
      assert Names(files, 0, seen) by { NoneSeen(files); }
      var i := 0;
      while i < |files|
        invariant 0 <= i <= |files|
        invariant Names(files, i, seen)
        invariant Value() == ScannedAll(old(Value()), files[..i], now, startup, ok)
      {
        assert files[..i + 1][..i] == files[..i];
        SeenOneMore(files, i, seen);
        seen := seen + {files[i].name};
        ScanLocked(files[i], now, startup, ok(files[i].name));
        i := i + 1;
      }
      assert files[..i] == files;
      Sweep(files, seen);
    }

    method Sweep(files: seq<Job>, seen: set<string>)
      requires Names(files, |files|, seen)
      modifies this`jobs
      ensures Value() == Swept(old(Value()), files)
    {
      jobs := map name | name in jobs && (name in seen || jobs[name].running.Some?) :: jobs[name];
    }

    /** Starting up: runs the last server left unfinished have failed, and the
        slots used are the store's. */
    method Start(files: Option<seq<Job>>, now: int, ok: string -> bool)
      modifies this
      ensures Value() == Booted(old(runs), files, now, ok)
    {
      jobs, going := map[], {};
      FailUnfinished();
      LoadLastSlots();
      RescanLocked(files, now, true, ok);
    }

    method FailUnfinished()
      modifies this`runs
      ensures runs == FailedUnfinished(old(runs))
    {
      var i := 0;
      while i < |runs|
        invariant 0 <= i <= |runs| == |old(runs)|
        invariant forall k :: 0 <= k < i ==> runs[k] == FailedUnfinished(old(runs))[k]
        invariant forall k :: i <= k < |runs| ==> runs[k] == old(runs)[k]
      {
        if runs[i].state == Running {
          runs := runs[i := runs[i].(state := Failed)];
        }
        i := i + 1;
      }
    }

    method LoadLastSlots()
      modifies this`lastSlot
      ensures lastSlot == LastSlots(runs)
    {
      lastSlot := map[];
      var i := 0;
      while i < |runs|
        invariant 0 <= i <= |runs|
        invariant lastSlot == LastSlots(runs[..i])
      {
        assert runs[..i + 1][..i] == runs[..i];
        var r := runs[i];
        if r.cause != Manual && !(r.job in lastSlot && lastSlot[r.job] >= r.slot) {
          lastSlot := lastSlot[r.job := r.slot];
        }
        i := i + 1;
      }
      assert runs[..i] == runs;
    }

    /** The jobs directory is read again first. */
    method RunByHand(name: string, files: Option<seq<Job>>, now: int, ok: string -> bool)
      modifies this
      ensures Value() == RunNow(Rescanned(old(Value()), files, now, false, ok), name, now, ok(name))
    {
      RescanLocked(files, now, false, ok);
      if name !in jobs || jobs[name].job.path == "" || jobs[name].job.broken || jobs[name].running.Some? {
        return;
      }
      StartLocked(name, Manual, now, ok(name));
    }

    /** The end of run i: recorded, if the store takes it, and then the job is
        free in any case. */
    method Finish(i: nat, state: RunState, ok: bool)
      requires i in going && i < |runs| && state != Running
      modifies this
      ensures Value() == Cleared(if ok then Recorded(old(Value()), i, state) else old(Value()), i)
    {
      if ok {
        runs := runs[i := runs[i].(state := state)];
      }
      var name := runs[i].job;
      if name in jobs && jobs[name].running == Some(i) {
        jobs := jobs[name := jobs[name].(running := None)];
      }
      going := going - {i};
    }
  }
}
