/** Which slots of which jobs are run: across ticks, rescans of the job files,
    restarts, and a clock that may jump backwards. */
module CronRuns {
  import opened Events
  import Calendar
  import Schedule

  /** When a schedule runs next strictly after a time; None is never. */
  type Sched = int -> Option<int>

  datatype Cause = OnSchedule | CatchUp | Manual

  datatype RunState = Running | Succeeded | Failed | Skipped

  /** A row of cron_runs. */
  datatype Run = Run(job: string, cause: Cause, slot: int, state: RunState)

  /** A job file as read. A broken one's schedule means nothing. */
  datatype Job = Job(name: string, path: string, modTime: int, broken: bool, enabled: bool, window: int, sched: Sched)

  /** What the scheduler knows of a job; running is its run's place in runs. */
  datatype JobState = JobState(job: Job, next: Option<int>, running: Option<nat>)

  /** jobs and lastSlot are the scheduler's, runs the store's. going are the
      runs whose goroutine has not finished. */
  datatype Books = Books(jobs: map<string, JobState>, lastSlot: map<string, int>, runs: seq<Run>, going: set<nat>)

  /** At most this many slots are looked at when catching up. */
  const MAX_STEPS: nat := 100_000

  function Later(t: int, o: Option<int>): int {
    if o.Some? && o.value > t then o.value else t
  }

  function Last(b: Books, name: string): Option<int> {
    if name in b.lastSlot then Some(b.lastSlot[name]) else None
  }

  // ---- Slots ----

  /** A job's first slot after t that has not run yet. */
  function NextAfter(b: Books, j: Job, t: int): Option<int> {
    j.sched(Later(t, Last(b, j.name)))
  }

  /** Where catching up starts from. */
  function CatchUpFrom(b: Books, j: Job, now: int): int {
    Later(Later(now - j.window, Last(b, j.name)), Some(j.modTime))
  }

  /** The last of the slots from at on, up to now, looking at n of them. */
  function LastOf(sched: Sched, at: Option<int>, now: int, n: nat, last: Option<int>): Option<int>
    decreases n
  {
    if n == 0 || at.None? || at.value > now then last else LastOf(sched, sched(at.value), now, n - 1, at)
  }

  /** The slot to catch up on. */
  function MissedSlot(b: Books, j: Job, now: int): Option<int> {
    if j.window <= 0 then None else LastOf(j.sched, j.sched(CatchUpFrom(b, j, now)), now, MAX_STEPS, None)
  }

  // ---- What the operations do ----

  /** The slot is used up, and a row added: running, or skipped for a job whose
      running is set. ok is whether the store takes the row. */
  function Started(b: Books, name: string, cause: Cause, slot: int, ok: bool): Books
    requires name in b.jobs
  {
    var js := b.jobs[name];
    var slots := if cause != Manual && Later(slot, Last(b, name)) == slot then b.lastSlot[name := slot] else b.lastSlot;
    if !ok then b.(lastSlot := slots)
    else if js.running.Some? then b.(lastSlot := slots, runs := b.runs + [Run(name, cause, slot, Skipped)])
    else Books(b.jobs[name := js.(running := Some(|b.runs|))], slots, b.runs + [Run(name, cause, slot, Running)],
               b.going + {|b.runs|})
  }

  function WithNext(b: Books, name: string, next: Option<int>): Books
    requires name in b.jobs
  {
    b.(jobs := b.jobs[name := b.jobs[name].(next := next)])
  }

  /** One job's turn in a tick: a run for its slot if it is due, whatever else
      was missed meanwhile. */
  function Fired(b: Books, name: string, now: int, ok: bool): Books
    requires name in b.jobs
  {
    var js := b.jobs[name];
    if js.next.None? || js.next.value > now then b
    else
      var b1 := Started(b, name, OnSchedule, js.next.value, ok);
      WithNext(b1, name, NextAfter(b1, js.job, now))
  }

  /** One job file's turn in a rescan. */
  function Scanned(b: Books, j: Job, now: int, startup: bool, ok: bool): Books {
    if j.name in b.jobs && b.jobs[j.name].job.modTime == j.modTime && b.jobs[j.name].job.path == j.path then b
    else
      var running := if j.name in b.jobs then b.jobs[j.name].running else None;
      var b1 := b.(jobs := b.jobs[j.name := JobState(j, None, running)]);
      if j.broken || !j.enabled then b1
      else
        var missed := if startup then MissedSlot(b1, j, now) else None;
        var b2 := if missed.Some? then Started(b1, j.name, CatchUp, missed.value, ok) else b1;
        WithNext(b2, j.name, NextAfter(b2, j, now))
  }

  function ScannedAll(b: Books, files: seq<Job>, now: int, startup: bool, ok: string -> bool): Books {
    if files == [] then b
    else
      var j := files[|files| - 1];
      Scanned(ScannedAll(b, files[..|files| - 1], now, startup, ok), j, now, startup, ok(j.name))
  }

  predicate HasFile(files: seq<Job>, name: string) {
    exists i :: 0 <= i < |files| && files[i].name == name
  }

  /** Jobs whose file is gone are dropped, once they are not running. */
  function Swept(b: Books, files: seq<Job>): Books {
    b.(jobs := map name | name in b.jobs && (b.jobs[name].running.Some? || HasFile(files, name)) :: b.jobs[name])
  }

  /** A scan of the jobs directory, which does nothing if it cannot be read. */
  function Rescanned(b: Books, files: Option<seq<Job>>, now: int, startup: bool, ok: string -> bool): Books {
    if files.None? then b else Swept(ScannedAll(b, files.value, now, startup, ok), files.value)
  }

  /** No job twice. */
  predicate EachOnce(order: seq<string>) {
    forall i, j :: 0 <= i < j < |order| ==> order[i] != order[j]
  }

  function FiredAll(b: Books, order: seq<string>, now: int, ok: string -> bool): Books {
    if order == [] then b
    else
      var name := order[|order| - 1];
      var b1 := FiredAll(b, order[..|order| - 1], now, ok);
      if name in b1.jobs then Fired(b1, name, now, ok(name)) else b1
  }

  function FailedUnfinished(runs: seq<Run>): (out: seq<Run>)
    ensures |out| == |runs|
    ensures forall i :: 0 <= i < |runs| ==>
              out[i] == if runs[i].state == Running then runs[i].(state := Failed) else runs[i]
  {
    seq(|runs|, i requires 0 <= i < |runs| => if runs[i].state == Running then runs[i].(state := Failed) else runs[i])
  }

  /** Per job, the latest slot a run was recorded for, other than by hand. */
  function LastSlots(runs: seq<Run>): map<string, int> {
    if runs == [] then map[]
    else
      var r, m := runs[|runs| - 1], LastSlots(runs[..|runs| - 1]);
      if r.cause == Manual || (r.job in m && m[r.job] >= r.slot) then m else m[r.job := r.slot]
  }

  /** A server starting up: what the store has, and a first scan. */
  function Booted(runs: seq<Run>, files: Option<seq<Job>>, now: int, ok: string -> bool): Books {
    var kept := FailedUnfinished(runs);
    Rescanned(Books(map[], LastSlots(kept), kept, {}), files, now, true, ok)
  }

  /** A run asked for by hand; refused while one is going. */
  function RunNow(b: Books, name: string, now: int, ok: bool): Books {
    if name !in b.jobs || b.jobs[name].job.path == "" || b.jobs[name].job.broken || b.jobs[name].running.Some? then b
    else Started(b, name, Manual, now, ok)
  }

  /** A run's end is recorded. */
  function Recorded(b: Books, i: nat, state: RunState): Books {
    if i in b.going && i < |b.runs| && state != Running then b.(runs := b.runs[i := b.runs[i].(state := state)]) else b
  }

  /** A run's end frees its job, whether it could be recorded or not. */
  function Cleared(b: Books, i: nat): Books {
    if i !in b.going || i >= |b.runs| then b
    else
      var name := b.runs[i].job;
      var jobs := if name in b.jobs && b.jobs[name].running == Some(i)
                  then b.jobs[name := b.jobs[name].(running := None)] else b.jobs;
      b.(jobs := jobs, going := b.going - {i})
  }

  datatype Op =
    | Boot(files: Option<seq<Job>>, now: int)
    | Rescan(files: Option<seq<Job>>, now: int)
    | Tick(order: seq<string>, now: int)
    | ByHand(name: string, now: int)
    | Record(i: nat, state: RunState)
    | Clear(i: nat)

  /** What happens, at whatever the clock says, and which runs the store
      takes. */
  datatype Step = Step(op: Op, ok: string -> bool)

  function Applied(b: Books, s: Step): Books {
    match s.op
    case Boot(files, now) => Booted(b.runs, files, now, s.ok)
    case Rescan(files, now) => Rescanned(b, files, now, false, s.ok)
    case Tick(order, now) => FiredAll(b, order, now, s.ok)
    case ByHand(name, now) => RunNow(b, name, now, s.ok(name))
    case Record(i, state) => Recorded(b, i, state)
    case Clear(i) => Cleared(b, i)
  }

  const EMPTY := Books(map[], map[], [], {})

  function RunAll(steps: seq<Step>): Books {
    if steps == [] then EMPTY else Applied(RunAll(steps[..|steps| - 1]), steps[|steps| - 1])
  }

  // ---- The invariant ----

  /** Next is strictly later, whenever there is one. */
  ghost predicate Advances(sched: Sched) {
    forall t :: sched(t).Some? ==> sched(t).value > t
  }

  predicate Auto(r: Run) {
    r.cause != Manual
  }

  /** Two recorded slots of a job, by the clock rather than by hand: the later
      one recorded is later. */
  ghost predicate Increases(runs: seq<Run>, i: nat, j: nat)
    requires i < j < |runs|
  {
    Auto(runs[i]) && Auto(runs[j]) && runs[i].job == runs[j].job ==> runs[i].slot < runs[j].slot
  }

  ghost predicate Used(b: Books, r: Run) {
    Auto(r) ==> r.job in b.lastSlot && r.slot <= b.lastSlot[r.job]
  }

  /** A run that is going is the one its job is running. */
  ghost predicate Running1(b: Books, i: nat)
    requires i < |b.runs|
  {
    i in b.going ==> b.runs[i].job in b.jobs && b.jobs[b.runs[i].job].running == Some(i)
  }

  ghost predicate JobOk(b: Books, name: string)
    requires name in b.jobs
  {
    var js := b.jobs[name];
    && js.job.name == name && (!js.job.broken ==> Advances(js.job.sched))
    && (js.next.Some? ==> !js.job.broken && (name in b.lastSlot ==> js.next.value > b.lastSlot[name]))
    && (js.running.Some? ==>
          js.running.value in b.going && js.running.value < |b.runs| && b.runs[js.running.value].job == name)
  }

  ghost predicate Inv(b: Books) {
    && (forall i, j :: 0 <= i < j < |b.runs| ==> Increases(b.runs, i, j))
    && (forall i :: 0 <= i < |b.runs| ==> Used(b, b.runs[i]) && Running1(b, i))
    && (forall name :: name in b.jobs ==> JobOk(b, name))
    && (forall i :: i in b.going ==> i < |b.runs|)
  }

  // ---- Each change keeps it ----

  /** A slot not used yet. */
  ghost predicate Unused(b: Books, name: string, slot: int) {
    name in b.lastSlot ==> slot > b.lastSlot[name]
  }

  lemma StartedRuns(b: Books, name: string, cause: Cause, slot: int, ok: bool)
    requires Inv(b) && name in b.jobs && (cause != Manual ==> Unused(b, name, slot))
    ensures var b' := Started(b, name, cause, slot, ok);
            && |b'.runs| <= |b.runs| + 1
            && (forall i :: 0 <= i < |b'.runs| ==> Used(b', b'.runs[i]) && Running1(b', i))
  {
    hide Increases, JobOk;
    var b' := Started(b, name, cause, slot, ok);
    forall i | 0 <= i < |b'.runs| ensures Used(b', b'.runs[i]) && Running1(b', i) {
      assert i < |b.runs| ==> Used(b, b.runs[i]) && Running1(b, i);
    }
  }

  lemma StartedIncreases(b: Books, name: string, cause: Cause, slot: int, ok: bool)
    requires Inv(b) && name in b.jobs && (cause != Manual ==> Unused(b, name, slot))
    ensures var runs := Started(b, name, cause, slot, ok).runs;
            forall i, j :: 0 <= i < j < |runs| ==> Increases(runs, i, j)
  {
    hide Running1, JobOk;
    var runs := Started(b, name, cause, slot, ok).runs;
    forall i, j | 0 <= i < j < |runs| ensures Increases(runs, i, j) {
      assert j < |b.runs| ==> Increases(b.runs, i, j);
      assert Used(b, b.runs[i]);
    }
  }

  lemma StartedInv(b: Books, name: string, cause: Cause, slot: int, ok: bool)
    requires Inv(b) && name in b.jobs && (cause != Manual ==> Unused(b, name, slot) && b.jobs[name].next == None)
    ensures var b' := Started(b, name, cause, slot, ok);
            && Inv(b') && b'.jobs.Keys == b.jobs.Keys && b'.jobs[name].job == b.jobs[name].job
            && b'.jobs[name].next == b.jobs[name].next
            && |b'.runs| <= |b.runs| + 1
  {
    hide Increases, Running1, Used, Advances;
    StartedRuns(b, name, cause, slot, ok);
    StartedIncreases(b, name, cause, slot, ok);
    var b' := Started(b, name, cause, slot, ok);
    forall n | n in b'.jobs ensures JobOk(b', n) {
      assert JobOk(b, n);
    }
  }

  lemma WithNextInv(b: Books, name: string, next: Option<int>)
    requires Inv(b) && name in b.jobs
    requires next.Some? ==> !b.jobs[name].job.broken && Unused(b, name, next.value)
    ensures Inv(WithNext(b, name, next))
  {
    var b' := WithNext(b, name, next);
    forall i | 0 <= i < |b.runs| ensures Used(b', b'.runs[i]) && Running1(b', i) {
      assert Used(b, b.runs[i]) && Running1(b, i);
    }
    forall i, j | 0 <= i < j < |b.runs| ensures Increases(b'.runs, i, j) {
      assert Increases(b.runs, i, j);
    }
    forall n | n in b'.jobs ensures JobOk(b', n) {
      assert JobOk(b, n);
    }
  }

  /** The next slot is one that has not been used, whatever the clock says. */
  lemma NextIsUnused(b: Books, j: Job, t: int)
    requires Advances(j.sched)
    ensures var next := NextAfter(b, j, t);
            next.Some? ==> next.value > t && Unused(b, j.name, next.value)
  {
  }

  lemma StartedIgnoresNext(b: Books, name: string, cause: Cause, slot: int, ok: bool, next: Option<int>)
    requires name in b.jobs
    ensures WithNext(Started(b, name, cause, slot, ok), name, next) ==
            WithNext(Started(WithNext(b, name, None), name, cause, slot, ok), name, next)
    ensures Started(b, name, cause, slot, ok).lastSlot ==
            Started(WithNext(b, name, None), name, cause, slot, ok).lastSlot
  {
    var c := WithNext(b, name, None);
    assert WithNext(Started(b, name, cause, slot, ok), name, next).jobs ==
           WithNext(Started(c, name, cause, slot, ok), name, next).jobs;
  }

  lemma FiredInv(b: Books, name: string, now: int, ok: bool)
    requires Inv(b) && name in b.jobs
    ensures Inv(Fired(b, name, now, ok)) && Fired(b, name, now, ok).jobs.Keys == b.jobs.Keys
  {
    var js := b.jobs[name];
    assert JobOk(b, name);
    if js.next.Some? && js.next.value <= now {
      var slot := js.next.value;
      var c := WithNext(b, name, None);
      hide Inv, Started;
      WithNextInv(b, name, None);
      StartedInv(c, name, OnSchedule, slot, ok);
      var next := NextAfter(Started(c, name, OnSchedule, slot, ok), js.job, now);
      StartedIgnoresNext(b, name, OnSchedule, slot, ok, next);
      NextIsUnused(Started(c, name, OnSchedule, slot, ok), js.job, now);
      WithNextInv(Started(c, name, OnSchedule, slot, ok), name, next);
      assert JobOk(b, name);
      StartedKeys(b, name, OnSchedule, slot, ok);
    }
  }

  lemma StartedKeys(b: Books, name: string, cause: Cause, slot: int, ok: bool)
    requires name in b.jobs
    ensures Started(b, name, cause, slot, ok).jobs.Keys == b.jobs.Keys
  {
  }

  /** The state of a job whose file is new or changed, before its next slot is
      worked out. */
  function Reread(b: Books, j: Job): Books {
    var running := if j.name in b.jobs then b.jobs[j.name].running else None;
    b.(jobs := b.jobs[j.name := JobState(j, None, running)])
  }

  lemma RereadInv(b: Books, j: Job)
    requires Inv(b) && (!j.broken ==> Advances(j.sched))
    ensures Inv(Reread(b, j))
  {
    var b' := Reread(b, j);
    forall i | 0 <= i < |b.runs| ensures Used(b', b'.runs[i]) && Running1(b', i) {
      assert Used(b, b.runs[i]) && Running1(b, i);
    }
    forall i, k | 0 <= i < k < |b.runs| ensures Increases(b'.runs, i, k) {
      assert Increases(b.runs, i, k);
    }
    forall n | n in b'.jobs ensures JobOk(b', n) {
      assert n in b.jobs ==> JobOk(b, n);
    }
  }

  lemma {:induction false} LastOfIsLater(sched: Sched, at: Option<int>, now: int, n: nat, last: Option<int>, from: int)
    requires Advances(sched) && (at.Some? ==> at.value > from) && (last.Some? ==> from < last.value <= now)
    ensures var r := LastOf(sched, at, now, n, last); r.Some? ==> from < r.value <= now
    decreases n
  {
    if n > 0 && at.Some? && at.value <= now {
      LastOfIsLater(sched, sched(at.value), now, n - 1, at, from);
    }
  }

  /** A missed slot is past, and one that has not been used. */
  lemma MissedIsUnused(b: Books, j: Job, now: int)
    requires Advances(j.sched)
    ensures var r := MissedSlot(b, j, now);
            r.Some? ==> Unused(b, j.name, r.value) && r.value <= now && r.value > j.modTime
  {
    LastOfIsLater(j.sched, j.sched(CatchUpFrom(b, j, now)), now, MAX_STEPS, None, CatchUpFrom(b, j, now));
  }

  lemma ScannedInv(b: Books, j: Job, now: int, startup: bool, ok: bool)
    requires Inv(b) && (!j.broken ==> Advances(j.sched))
    ensures Inv(Scanned(b, j, now, startup, ok))
    ensures |Scanned(b, j, now, startup, ok).runs| <= |b.runs| + (if startup then 1 else 0)
  {
    hide Inv, Started, MissedSlot, Advances;
    var b1 := Reread(b, j);
    RereadInv(b, j);
    if !j.broken {
      var missed := if startup then MissedSlot(b1, j, now) else None;
      MissedIsUnused(b1, j, now);
      if missed.Some? {
        StartedInv(b1, j.name, CatchUp, missed.value, ok);
      }
      var b2 := if missed.Some? then Started(b1, j.name, CatchUp, missed.value, ok) else b1;
      NextIsUnused(b2, j, now);
      WithNextInv(b2, j.name, NextAfter(b2, j, now));
    }
  }

  ghost predicate FilesOk(files: seq<Job>) {
    forall i :: 0 <= i < |files| && !files[i].broken ==> Advances(files[i].sched)
  }

  lemma {:induction false} ScannedAllInv(b: Books, files: seq<Job>, now: int, startup: bool, ok: string -> bool)
    requires Inv(b) && FilesOk(files)
    ensures Inv(ScannedAll(b, files, now, startup, ok))
    ensures !startup ==> |ScannedAll(b, files, now, startup, ok).runs| == |b.runs|
  {
    if files != [] {
      var init, j := files[..|files| - 1], files[|files| - 1];
      ScannedAllInv(b, init, now, startup, ok);
      hide Inv, Scanned;
      var b1 := ScannedAll(b, init, now, startup, ok);
      ScannedInv(b1, j, now, startup, ok(j.name));
      if !startup {
        NoCatchUp(b1, j, now, ok(j.name));
      }
    }
  }

  lemma NoCatchUp(b: Books, j: Job, now: int, ok: bool)
    ensures Scanned(b, j, now, false, ok).runs == b.runs
  {
  }

  lemma SweptInv(b: Books, files: seq<Job>)
    requires Inv(b)
    ensures Inv(Swept(b, files)) && Swept(b, files).runs == b.runs
  {
    var b' := Swept(b, files);
    forall i | 0 <= i < |b.runs| ensures Used(b', b'.runs[i]) && Running1(b', i) {
      assert Used(b, b.runs[i]) && Running1(b, i);
    }
    forall i, k | 0 <= i < k < |b.runs| ensures Increases(b'.runs, i, k) {
      assert Increases(b.runs, i, k);
    }
    forall n | n in b'.jobs ensures JobOk(b', n) {
      assert JobOk(b, n);
    }
  }

  lemma {:induction false} FiredAllInv(b: Books, order: seq<string>, now: int, ok: string -> bool)
    requires Inv(b)
    ensures Inv(FiredAll(b, order, now, ok)) && FiredAll(b, order, now, ok).jobs.Keys == b.jobs.Keys
  {
    if order != [] {
      FiredAllInv(b, order[..|order| - 1], now, ok);
      hide Inv, Fired;
      var b1, name := FiredAll(b, order[..|order| - 1], now, ok), order[|order| - 1];
      if name in b1.jobs {
        FiredInv(b1, name, now, ok(name));
      }
    }
  }

  // ---- Restarts ----

  lemma {:induction false} LastSlotsCover(runs: seq<Run>, i: nat)
    requires i < |runs| && Auto(runs[i])
    ensures runs[i].job in LastSlots(runs) && LastSlots(runs)[runs[i].job] >= runs[i].slot
  {
    if i < |runs| - 1 {
      LastSlotsCover(runs[..|runs| - 1], i);
    }
  }

  lemma RestartInv(runs: seq<Run>)
    requires forall i, j :: 0 <= i < j < |runs| ==> Increases(runs, i, j)
    ensures var kept := FailedUnfinished(runs); Inv(Books(map[], LastSlots(kept), kept, {}))
  {
    var kept := FailedUnfinished(runs);
    var b := Books(map[], LastSlots(kept), kept, {});
    forall i | 0 <= i < |kept| ensures Used(b, kept[i]) && Running1(b, i) {
      if Auto(kept[i]) {
        LastSlotsCover(kept, i);
      }
    }
    forall i, j | 0 <= i < j < |kept| ensures Increases(kept, i, j) {
      assert Increases(runs, i, j);
    }
  }

  lemma BootedInv(runs: seq<Run>, files: Option<seq<Job>>, now: int, ok: string -> bool)
    requires (forall i, j :: 0 <= i < j < |runs| ==> Increases(runs, i, j)) && (files.Some? ==> FilesOk(files.value))
    ensures Inv(Booted(runs, files, now, ok))
  {
    var kept := FailedUnfinished(runs);
    var b := Books(map[], LastSlots(kept), kept, {});
    RestartInv(runs);
    RescannedInv(b, files, now, true, ok);
  }

  lemma RescannedInv(b: Books, files: Option<seq<Job>>, now: int, startup: bool, ok: string -> bool)
    requires Inv(b) && (files.Some? ==> FilesOk(files.value))
    ensures Inv(Rescanned(b, files, now, startup, ok))
  {
    if files.Some? {
      ScannedAllInv(b, files.value, now, startup, ok);
      SweptInv(ScannedAll(b, files.value, now, startup, ok), files.value);
    }
  }

  // ---- The rest ----

  lemma RunNowInv(b: Books, name: string, now: int, ok: bool)
    requires Inv(b)
    ensures Inv(RunNow(b, name, now, ok))
  {
    if name in b.jobs {
      StartedInv(b, name, Manual, now, ok);
    }
  }

  lemma RecordedInv(b: Books, i: nat, state: RunState)
    requires Inv(b)
    ensures Inv(Recorded(b, i, state))
  {
    var b' := Recorded(b, i, state);
    forall k | 0 <= k < |b.runs| ensures Used(b', b'.runs[k]) && Running1(b', k) {
      assert Used(b, b.runs[k]) && Running1(b, k);
    }
    forall k, l | 0 <= k < l < |b.runs| ensures Increases(b'.runs, k, l) {
      assert Increases(b.runs, k, l);
    }
    forall n | n in b'.jobs ensures JobOk(b', n) {
      assert JobOk(b, n);
    }
  }

  lemma ClearedInv(b: Books, i: nat)
    requires Inv(b)
    ensures Inv(Cleared(b, i))
  {
    var b' := Cleared(b, i);
    assert i in b.going ==> Running1(b, i);
    forall k | 0 <= k < |b.runs| ensures Used(b', b'.runs[k]) && Running1(b', k) {
      assert Used(b, b.runs[k]) && Running1(b, k);
    }
    forall k, l | 0 <= k < l < |b.runs| ensures Increases(b'.runs, k, l) {
      assert Increases(b.runs, k, l);
    }
    forall n | n in b'.jobs ensures JobOk(b', n) {
      assert JobOk(b, n);
    }
  }

  ghost predicate OpOk(op: Op) {
    (op.Boot? || op.Rescan?) && op.files.Some? ==> FilesOk(op.files.value)
  }

  lemma AppliedInv(b: Books, s: Step)
    requires Inv(b) && OpOk(s.op)
    ensures Inv(Applied(b, s))
  {
    match s.op {
      case Boot(files, now) => BootedInv(b.runs, files, now, s.ok);
      case Rescan(files, now) => RescannedInv(b, files, now, false, s.ok);
      case Tick(order, now) => FiredAllInv(b, order, now, s.ok);
      case ByHand(name, now) => RunNowInv(b, name, now, s.ok(name));
      case Record(i, state) => RecordedInv(b, i, state);
      case Clear(i) => ClearedInv(b, i);
    }
  }

  lemma {:induction false} RunAllInv(steps: seq<Step>)
    requires forall i :: 0 <= i < |steps| ==> OpOk(steps[i].op)
    ensures Inv(RunAll(steps))
  {
    if steps != [] {
      RunAllInv(steps[..|steps| - 1]);
      hide Inv, Applied;
      AppliedInv(RunAll(steps[..|steps| - 1]), steps[|steps| - 1]);
    }
  }

  // ---- What is promised ----

  /** Whatever the clock, the files and the restarts, the slots a job's runs
      are recorded for, other than by hand, strictly increase: none is used
      twice. */
  lemma SlotsUsedOnce(steps: seq<Step>, i: nat, j: nat)
    requires forall k :: 0 <= k < |steps| ==> OpOk(steps[k].op)
    requires var runs := RunAll(steps).runs;
             i < j < |runs| && Auto(runs[i]) && Auto(runs[j]) && runs[i].job == runs[j].job
    ensures RunAll(steps).runs[i].slot < RunAll(steps).runs[j].slot
  {
    RunAllInv(steps);
    assert Increases(RunAll(steps).runs, i, j);
  }

  /** At most one run of a job is going at a time. */
  lemma {:induction false} OneRunAtATime(steps: seq<Step>, i: nat, j: nat)
    requires forall k :: 0 <= k < |steps| ==> OpOk(steps[k].op)
    requires i in RunAll(steps).going && j in RunAll(steps).going
    ensures i < |RunAll(steps).runs| && j < |RunAll(steps).runs|
    ensures RunAll(steps).runs[i].job == RunAll(steps).runs[j].job ==> i == j
  {
    RunAllInv(steps);
    assert Running1(RunAll(steps), i) && Running1(RunAll(steps), j);
  }

  // ---- What the store says is running ----

  ghost predicate RowRuns(b: Books, i: nat) {
    i < |b.runs| && b.runs[i].state == Running
  }

  /** What no step but a run's end and a restart does to the rows: old ones
      stay, and a new one says running exactly when its run is going. */
  ghost predicate AddsRows(b: Books, b': Books) {
    && |b.runs| <= |b'.runs| && b'.runs[..|b.runs|] == b.runs
    && (forall i :: 0 <= i < |b.runs| ==> (i in b'.going <==> i in b.going))
    && (forall i :: |b.runs| <= i < |b'.runs| ==> (RowRuns(b', i) <==> i in b'.going))
  }

  lemma AddsRowsTwice(b: Books, b1: Books, b2: Books)
    requires AddsRows(b, b1) && AddsRows(b1, b2)
    ensures AddsRows(b, b2)
  {
    assert b2.runs[..|b.runs|] == b2.runs[..|b1.runs|][..|b.runs|];
    forall i | |b.runs| <= i < |b1.runs| ensures RowRuns(b2, i) <==> i in b2.going {
      assert b2.runs[i] == b2.runs[..|b1.runs|][i];
      assert RowRuns(b1, i) <==> i in b1.going;
    }
  }

  lemma SameRows(b: Books, b': Books)
    requires b'.runs == b.runs && b'.going == b.going
    ensures AddsRows(b, b')
  {
    assert b.runs[..|b.runs|] == b.runs;
  }

  lemma StartedAddsRows(b: Books, name: string, cause: Cause, slot: int, ok: bool)
    requires name in b.jobs && |b.runs| !in b.going
    ensures AddsRows(b, Started(b, name, cause, slot, ok))
  {
    var b' := Started(b, name, cause, slot, ok);
    assert b'.runs[..|b.runs|] == b.runs;
  }

  lemma FiredAddsRows(b: Books, name: string, now: int, ok: bool)
    requires Inv(b) && name in b.jobs
    ensures AddsRows(b, Fired(b, name, now, ok))
  {
    hide Started, AddsRows;
    var js := b.jobs[name];
    SameRows(b, b);
    if js.next.Some? && js.next.value <= now {
      var b1 := Started(b, name, OnSchedule, js.next.value, ok);
      StartedAddsRows(b, name, OnSchedule, js.next.value, ok);
      StartedKeys(b, name, OnSchedule, js.next.value, ok);
      SameRows(b1, WithNext(b1, name, NextAfter(b1, js.job, now)));
      AddsRowsTwice(b, b1, WithNext(b1, name, NextAfter(b1, js.job, now)));
    }
  }

  lemma {:induction false} FiredAllAddsRows(b: Books, order: seq<string>, now: int, ok: string -> bool)
    requires Inv(b)
    ensures AddsRows(b, FiredAll(b, order, now, ok))
  {
    hide Inv, Fired, AddsRows;
    if order != [] {
      var init, name := order[..|order| - 1], order[|order| - 1];
      var b1 := FiredAll(b, init, now, ok);
      FiredAllInv(b, init, now, ok);
      FiredAllAddsRows(b, init, now, ok);
      if name in b1.jobs {
        FiredAddsRows(b1, name, now, ok(name));
        AddsRowsTwice(b, b1, Fired(b1, name, now, ok(name)));
      }
    } else {
      SameRows(b, b);
    }
  }

  lemma ScannedAddsRows(b: Books, j: Job, now: int, startup: bool, ok: bool)
    requires Inv(b)
    ensures AddsRows(b, Scanned(b, j, now, startup, ok))
  {
    hide Started, AddsRows, MissedSlot, NextAfter;
    var b1 := Reread(b, j);
    SameRows(b, b);
    SameRows(b, b1);
    var missed := if startup then MissedSlot(b1, j, now) else None;
    var b2 := if missed.Some? then Started(b1, j.name, CatchUp, missed.value, ok) else b1;
    if missed.Some? {
      StartedAddsRows(b1, j.name, CatchUp, missed.value, ok);
      StartedKeys(b1, j.name, CatchUp, missed.value, ok);
      AddsRowsTwice(b, b1, b2);
    }
    SameRows(b2, WithNext(b2, j.name, NextAfter(b2, j, now)));
    AddsRowsTwice(b, b2, WithNext(b2, j.name, NextAfter(b2, j, now)));
  }

  lemma {:induction false} ScannedAllAddsRows(b: Books, files: seq<Job>, now: int, startup: bool, ok: string -> bool)
    requires Inv(b) && FilesOk(files)
    ensures AddsRows(b, ScannedAll(b, files, now, startup, ok))
  {
    hide Inv, Scanned, AddsRows;
    if files != [] {
      var init, j := files[..|files| - 1], files[|files| - 1];
      var b1 := ScannedAll(b, init, now, startup, ok);
      ScannedAllInv(b, init, now, startup, ok);
      ScannedAllAddsRows(b, init, now, startup, ok);
      ScannedAddsRows(b1, j, now, startup, ok(j.name));
      AddsRowsTwice(b, b1, Scanned(b1, j, now, startup, ok(j.name)));
    } else {
      SameRows(b, b);
    }
  }

  lemma RescannedAddsRows(b: Books, files: Option<seq<Job>>, now: int, startup: bool, ok: string -> bool)
    requires Inv(b) && (files.Some? ==> FilesOk(files.value))
    ensures AddsRows(b, Rescanned(b, files, now, startup, ok))
  {
    hide Inv, ScannedAll, AddsRows;
    if files.Some? {
      var b1 := ScannedAll(b, files.value, now, startup, ok);
      ScannedAllAddsRows(b, files.value, now, startup, ok);
      SameRows(b1, Swept(b1, files.value));
      AddsRowsTwice(b, b1, Swept(b1, files.value));
    } else {
      SameRows(b, b);
    }
  }

  /** The runs, since the server started, whose end the store did not take. */
  ghost function Lost(steps: seq<Step>): set<nat> {
    if steps == [] then {}
    else
      var before, op := steps[..|steps| - 1], steps[|steps| - 1].op;
      if op.Boot? then {}
      else if op.Clear? && op.i in RunAll(before).going && RowRuns(RunAll(before), op.i) then Lost(before) + {op.i}
      else Lost(before)
  }

  /** Rows that say running are of runs that are going, or were lost. */
  ghost predicate RowsOk(b: Books, lost: set<nat>) {
    && (forall i :: RowRuns(b, i) ==> i in b.going || i in lost)
    && (forall i :: i in lost ==> RowRuns(b, i) && i !in b.going)
  }

  lemma AddedRowsOk(b: Books, b': Books, lost: set<nat>)
    requires AddsRows(b, b') && RowsOk(b, lost)
    ensures RowsOk(b', lost)
  {
    forall i: nat | i < |b.runs| ensures b'.runs[i] == b.runs[i] {
      assert b'.runs[i] == b'.runs[..|b.runs|][i];
    }
    forall i: nat | RowRuns(b', i) ensures i in b'.going || i in lost {
      assert i < |b.runs| ==> RowRuns(b, i);
    }
  }

  lemma BootedRowsOk(runs: seq<Run>, files: Option<seq<Job>>, now: int, ok: string -> bool)
    requires (forall i, j :: 0 <= i < j < |runs| ==> Increases(runs, i, j)) && (files.Some? ==> FilesOk(files.value))
    ensures RowsOk(Booted(runs, files, now, ok), {})
  {
    var kept := FailedUnfinished(runs);
    var b := Books(map[], LastSlots(kept), kept, {});
    RestartInv(runs);
    RescannedAddsRows(b, files, now, true, ok);
    AddedRowsOk(b, Booted(runs, files, now, ok), {});
  }

  lemma RecordedRowsOk(b: Books, i: nat, state: RunState, lost: set<nat>)
    requires RowsOk(b, lost)
    ensures RowsOk(Recorded(b, i, state), lost)
  {
    var b' := Recorded(b, i, state);
    forall k: nat ensures RowRuns(b', k) ==> RowRuns(b, k) {}
  }

  lemma ClearedRowsOk(b: Books, i: nat, lost: set<nat>)
    requires RowsOk(b, lost)
    ensures RowsOk(Cleared(b, i), if i in b.going && RowRuns(b, i) then lost + {i} else lost)
  {
    var b' := Cleared(b, i);
    forall k: nat ensures RowRuns(b', k) <==> RowRuns(b, k) {}
  }

  lemma {:induction false} RowsAre(steps: seq<Step>)
    requires forall k :: 0 <= k < |steps| ==> OpOk(steps[k].op)
    ensures RowsOk(RunAll(steps), Lost(steps))
  {
    if steps != [] {
      var before, s := steps[..|steps| - 1], steps[|steps| - 1];
      var b := RunAll(before);
      RowsAre(before);
      RunAllInv(before);
      hide Rescanned, FiredAll, Booted, AddsRows, RowsOk, Inv, Cleared, Recorded;
      match s.op {
        case Boot(files, now) => BootedRowsOk(b.runs, files, now, s.ok);
        case Rescan(files, now) =>
          RescannedAddsRows(b, files, now, false, s.ok);
          AddedRowsOk(b, Applied(b, s), Lost(before));
        case Tick(order, now) =>
          FiredAllAddsRows(b, order, now, s.ok);
          AddedRowsOk(b, Applied(b, s), Lost(before));
        case ByHand(name, now) =>
          SameRows(b, b);
          if name in b.jobs { StartedAddsRows(b, name, Manual, now, s.ok(name)); }
          AddedRowsOk(b, Applied(b, s), Lost(before));
        case Record(i, state) => RecordedRowsOk(b, i, state, Lost(before));
        case Clear(i) => ClearedRowsOk(b, i, Lost(before));
      }
    }
  }

  ghost predicate RowOf(b: Books, name: string, i: nat) {
    RowRuns(b, i) && b.runs[i].job == name
  }

  /** The store has at most one run of a job as running if and only if no run
      of it that was lost since the server started stands beside another that
      was lost or is still going. */
  lemma {:induction false} OneRunningRow(steps: seq<Step>, name: string)
    requires forall k :: 0 <= k < |steps| ==> OpOk(steps[k].op)
    ensures var b, lost := RunAll(steps), Lost(steps);
            (forall i, j :: RowOf(b, name, i) && RowOf(b, name, j) ==> i == j) <==>
            (forall i, j :: i in lost && j in lost + b.going && RowOf(b, name, i) && RowOf(b, name, j) ==> i == j)
  {
    var b, lost := RunAll(steps), Lost(steps);
    RowsAre(steps);
    forall i: nat, j: nat | i in b.going && j in b.going && RowOf(b, name, i) && RowOf(b, name, j) ensures i == j {
      OneRunAtATime(steps, i, j);
    }
  }

  /** So there is never more than one if the store takes every end. */
  lemma {:induction false} NoneLostOneRow(steps: seq<Step>, name: string, i: nat, j: nat)
    requires forall k :: 0 <= k < |steps| ==> OpOk(steps[k].op)
    requires Lost(steps) == {} && RowOf(RunAll(steps), name, i) && RowOf(RunAll(steps), name, j)
    ensures i == j
  {
    RowsAre(steps);
    OneRunAtATime(steps, i, j);
  }

  /** A job that never runs but by hand. */
  const IDLE := Job("job", "job.yaml", 0, false, true, 0, t => None)

  /** A run whose end is not recorded, and another. */
  const LOSING: seq<Step> := [
    Step(Boot(Some([IDLE]), 0), name => true), Step(ByHand("job", 1), name => true), Step(Clear(0), name => true),
    Step(ByHand("job", 2), name => true)]

  lemma StepByStep(k: nat)
    requires k < |LOSING|
    ensures RunAll(LOSING[..k + 1]) == Applied(RunAll(LOSING[..k]), LOSING[k])
    ensures Lost(LOSING[..k + 1]) ==
            if k == 2 && 0 in RunAll(LOSING[..2]).going && RowRuns(RunAll(LOSING[..2]), 0) then Lost(LOSING[..2]) + {0}
            else if k == 0 then {} else Lost(LOSING[..k])
  {
    assert LOSING[..k + 1][..k] == LOSING[..k] && LOSING[..k + 1][k] == LOSING[k];
  }

  function IdleBooks(running: Option<nat>, runs: seq<Run>, going: set<nat>): Books {
    Books(map["job" := JobState(IDLE, None, running)], map[], runs, going)
  }

  lemma BootsIdle(ok: string -> bool)
    ensures Booted([], Some([IDLE]), 0, ok) == IdleBooks(None, [], {})
  {
    var b, b1 := Books(map[], map[], [], {}), IdleBooks(None, [], {});
    assert FailedUnfinished([]) == [];
    assert [IDLE][..0] == [];
    assert ScannedAll(b, [IDLE], 0, true, ok) == Scanned(b, IDLE, 0, true, ok("job"));
    assert Scanned(b, IDLE, 0, true, ok("job")) == b1;
    assert [IDLE][0].name == "job";
    assert Swept(b1, [IDLE]).jobs == b1.jobs;
  }

  lemma RunsIdle(runs: seq<Run>, going: set<nat>, now: int)
    ensures RunNow(IdleBooks(None, runs, going), "job", now, true) ==
            IdleBooks(Some(|runs|), runs + [Run("job", Manual, now, Running)], going + {|runs|})
  {
  }

  lemma ClearsIdle(runs: seq<Run>)
    requires |runs| == 1 && runs[0].job == "job"
    ensures Cleared(IdleBooks(Some(0), runs, {0}), 0) == IdleBooks(None, runs, {})
  {
  }

  /** With an end lost it does have two. */
  lemma LostEndTwoRows()
    ensures var b := RunAll(LOSING);
            && (forall k :: 0 <= k < |LOSING| ==> OpOk(LOSING[k].op))
            && Lost(LOSING) == {0} && b.going == {1} && RowOf(b, "job", 0) && RowOf(b, "job", 1)
  {
    hide RunAll, Lost, Booted, RunNow, Cleared;
    assert LOSING[..0] == [] && LOSING[..4] == LOSING;
    StepByStep(0);
    StepByStep(1);
    StepByStep(2);
    StepByStep(3);
    NoSteps();
    BootsIdle(LOSING[0].ok);
    var first := [Run("job", Manual, 1, Running)];
    RunsIdle([], {}, 1);
    ClearsIdle(first);
    RunsIdle(first, {}, 2);
    assert [] + first == first;
    assert RunAll(LOSING[..1]) == IdleBooks(None, [], {});
    assert RunAll(LOSING[..2]) == IdleBooks(Some(0), first, {0});
    assert RunAll(LOSING[..3]) == IdleBooks(None, first, {});
  }

  lemma NoSteps()
    ensures RunAll([]) == EMPTY
  {
  }

  /** How many runs of a job are recorded. */
  function RunsOf(runs: seq<Run>, name: string): nat {
    if runs == [] then 0 else RunsOf(runs[..|runs| - 1], name) + if runs[|runs| - 1].job == name then 1 else 0
  }

  lemma RunsOfSnoc(runs: seq<Run>, r: Run, name: string)
    ensures RunsOf(runs + [r], name) == RunsOf(runs, name) + if r.job == name then 1 else 0
  {
    assert (runs + [r])[..|runs|] == runs;
  }

  lemma ScannedRuns(b: Books, j: Job, now: int, startup: bool, ok: bool, name: string)
    ensures RunsOf(Scanned(b, j, now, startup, ok).runs, name) <= RunsOf(b.runs, name) + if j.name == name then 1 else 0
  {
    var runs := Scanned(b, j, now, startup, ok).runs;
    if runs != b.runs {
      RunsOfSnoc(b.runs, runs[|b.runs|], name);
    }
  }

  lemma {:induction false} ScannedAllRuns(b: Books, files: seq<Job>, now: int, startup: bool, ok: string -> bool,
                                          name: string)
    requires forall i, j :: 0 <= i < j < |files| ==> files[i].name != files[j].name
    ensures RunsOf(ScannedAll(b, files, now, startup, ok).runs, name) <=
            RunsOf(b.runs, name) + if HasFile(files, name) then 1 else 0
  {
    if files != [] {
      var init, j := files[..|files| - 1], files[|files| - 1];
      ScannedAllRuns(b, init, now, startup, ok, name);
      ScannedRuns(ScannedAll(b, init, now, startup, ok), j, now, startup, ok(j.name), name);
      if HasFile(init, name) {
        var i :| 0 <= i < |init| && init[i].name == name;
        assert files[i].name == name;
      }
    }
  }

  /** Starting up catches up on at most one run of each job. */
  lemma OneCatchUp(runs: seq<Run>, files: seq<Job>, now: int, ok: string -> bool, name: string)
    requires forall i, j :: 0 <= i < j < |files| ==> files[i].name != files[j].name
    ensures RunsOf(Booted(runs, Some(files), now, ok).runs, name) <= RunsOf(runs, name) + 1
  {
    var kept := FailedUnfinished(runs);
    ScannedAllRuns(Books(map[], LastSlots(kept), kept, {}), files, now, true, ok, name);
    SameJobs(runs, kept, name);
  }

  lemma {:induction false} SameJobs(a: seq<Run>, b: seq<Run>, name: string)
    requires |a| == |b| && forall i :: 0 <= i < |a| ==> a[i].job == b[i].job
    ensures RunsOf(a, name) == RunsOf(b, name)
  {
    if a != [] {
      SameJobs(a[..|a| - 1], b[..|b| - 1], name);
    }
  }

  // ---- Which slot is caught up on ----

  ghost predicate Slot(sched: Sched, x: int) {
    sched(x - 1) == Some(x)
  }

  /** Next is the least slot after. */
  ghost predicate Steady(sched: Sched) {
    Advances(sched) && forall t, u :: sched(t).Some? && t <= u < sched(t).value ==> sched(u) == sched(t)
  }

  /** From from on, Next finds every slot up to now. */
  ghost predicate Sees(sched: Sched, from: int, now: int) {
    forall t, x :: from <= t < x <= now && sched(t).None? ==> !Slot(sched, x)
  }

  /** The slots from at on get past now within n. */
  predicate Ends(sched: Sched, at: Option<int>, now: int, n: nat)
    decreases n
  {
    at.None? || at.value > now || (n > 0 && Ends(sched, sched(at.value), now, n - 1))
  }

  ghost predicate Greatest(sched: Sched, from: int, now: int, r: Option<int>) {
    && (r.Some? ==> Slot(sched, r.value) && from < r.value <= now)
    && (forall x :: from < x <= now && Slot(sched, x) ==> r.Some? && x <= r.value)
  }

  lemma NoSlotBetween(sched: Sched, t: int, x: int)
    requires Steady(sched) && sched(t).Some? && t < x < sched(t).value
    ensures !Slot(sched, x)
  {
    assert sched(x - 1) == sched(t);
  }

  lemma NextIsSlot(sched: Sched, t: int)
    requires Steady(sched) && sched(t).Some?
    ensures Slot(sched, sched(t).value)
  {
    assert sched(sched(t).value - 1) == sched(t);
  }

  /** prev is the last slot found, or where the search began. */
  lemma {:induction false} LastOfGreatest(sched: Sched, prev: int, now: int, n: nat, last: Option<int>, from: int)
    requires Steady(sched) && Sees(sched, from, now) && from <= prev
    requires if last.Some? then last.value == prev && from < prev <= now && Slot(sched, prev) else prev == from
    ensures var r := LastOf(sched, sched(prev), now, n, last);
            if Ends(sched, sched(prev), now, n) then Greatest(sched, from, now, r) else !Greatest(sched, from, now, r)
    decreases n
  {
    var at := sched(prev);
    if at.None? || at.value > now {
      forall x | from < x <= now && Slot(sched, x) ensures last.Some? && x <= last.value {
        if x > prev && at.Some? {
          NoSlotBetween(sched, prev, x);
        }
      }
    } else {
      NextIsSlot(sched, prev);
      if n > 0 {
        LastOfGreatest(sched, at.value, now, n - 1, at, from);
      }
    }
  }

  /** Catching up picks the latest slot at or before now that is after the
      window's start, the last slot used and the file's time, and none exactly
      when there is none: if and only if the slots in between do not outnumber
      the steps it takes. */
  lemma MissedIsGreatest(b: Books, j: Job, now: int)
    requires Steady(j.sched) && j.window > 0 && Sees(j.sched, CatchUpFrom(b, j, now), now)
    ensures var from := CatchUpFrom(b, j, now);
            Greatest(j.sched, from, now, MissedSlot(b, j, now)) <==> Ends(j.sched, j.sched(from), now, MAX_STEPS)
  {
    var from := CatchUpFrom(b, j, now);
    LastOfGreatest(j.sched, from, now, MAX_STEPS, None, from);
  }

  /** Whole minutes apart, the steps last for 100000 minutes of window. */
  lemma {:induction false} MinutesEnd(sched: Sched, from: int, now: int, n: nat)
    requires forall t :: sched(t).Some? ==> sched(t).value > t && Schedule.WholeMinute(sched(t).value)
    requires now < from / Calendar.MINUTE * Calendar.MINUTE + (n + 1) * Calendar.MINUTE
    ensures Ends(sched, sched(from), now, n)
    decreases n
  {
    var at := sched(from);
    if at.Some? && at.value <= now {
      Schedule.NoneBefore(from, at.value);
      MinutesEnd(sched, at.value, now, n - 1);
    }
  }

  // ---- A cron expression as a schedule ----

  function CronSched(c: Schedule.CronExpr): Sched {
    t => Schedule.Scan(c, Schedule.NextMinute(t), Schedule.NextMinute(t) + Schedule.MAX_LOOKAHEAD)
  }

  lemma CronAdvances(c: Schedule.CronExpr, t: int, u: int)
    requires CronSched(c)(t).Some?
    ensures CronSched(c)(t).value > t && Schedule.CronSlot(c, CronSched(c)(t).value)
    ensures t <= u < CronSched(c)(t).value ==> CronSched(c)(u) == CronSched(c)(t)
  {
    hide Schedule.Scan, Schedule.NextMinute, Schedule.CronSlot;
    Schedule.CronNextIsLeast(c, t);
    Schedule.CronNextIsLeast(c, u);
    if t <= u {
      Schedule.NextMinutesOrdered(t, u);
    }
  }

  lemma CronSeen(c: Schedule.CronExpr, t: int, x: int)
    requires t < x <= t + Schedule.MAX_LOOKAHEAD && CronSched(c)(t).None?
    ensures !Slot(CronSched(c), x)
  {
    hide Schedule.Scan, Schedule.NextMinute, Schedule.CronSlot;
    Schedule.CronNextIsLeast(c, t);
    Schedule.CronNextIsLeast(c, x - 1);
    Schedule.NextMinutesOrdered(t, t);
  }

  /** A cron expression's next times are steady, and within its window it sees
      every one. */
  lemma CronIsSteady(c: Schedule.CronExpr, from: int, now: int)
    requires now - from <= Schedule.MAX_LOOKAHEAD
    ensures Steady(CronSched(c)) && Sees(CronSched(c), from, now)
  {
    hide CronSched;
    var sched := CronSched(c);
    forall t | sched(t).Some? ensures sched(t).value > t {
      CronAdvances(c, t, t);
    }
    forall t, u | sched(t).Some? && t <= u < sched(t).value ensures sched(u) == sched(t) {
      CronAdvances(c, t, u);
    }
    forall t, x | from <= t < x <= now && sched(t).None? ensures !Slot(sched, x) {
      CronSeen(c, t, x);
    }
  }

  // ---- Every kind of schedule ----

  /** A cron expression; every d; at a time of some days of the week; once. */
  datatype Kind =
    | Cron(c: Schedule.CronExpr)
    | Every(d: int)
    | Daily(days: set<int>, hour: int, min: int)
    | Once(at: int)

  predicate ValidKind(k: Kind) {
    match k
    case Every(d) => Schedule.ValidInterval(d)
    case Daily(_, hour, min) => Schedule.ValidClock(hour, min)
    case _ => true
  }

  function SchedOf(k: Kind): Sched
    requires ValidKind(k)
  {
    match k
    case Cron(c) => CronSched(c)
    case Every(d) => t => Some(Schedule.IntervalAfter(d, t))
    case Daily(days, hour, min) => t => Schedule.DailyAfter(days, hour, min, t)
    case Once(at) => t => Schedule.OnceNext(at, t)
  }

  /** Next is the least of the times slot holds of, and none if there is none
      left. */
  ghost predicate LeastAfter(sched: Sched, slot: int -> bool) {
    && (forall t :: sched(t).Some? ==> sched(t).value > t && slot(sched(t).value))
    && (forall t, x :: t < x && slot(x) ==> sched(t).Some? && sched(t).value <= x)
  }

  lemma LeastIsSteady(sched: Sched, slot: int -> bool)
    requires LeastAfter(sched, slot)
    ensures Steady(sched) && forall from, now :: Sees(sched, from, now)
  {
    forall t, u | sched(t).Some? && t <= u < sched(t).value ensures sched(u) == sched(t) {
      assert slot(sched(t).value) && sched(u).Some? && slot(sched(u).value);
    }
  }

  lemma EveryIsSteady(d: int)
    requires Schedule.ValidInterval(d)
    ensures Steady(SchedOf(Every(d))) && forall from, now :: Sees(SchedOf(Every(d)), from, now)
  {
    var sched := SchedOf(Every(d));
    hide Schedule.IntervalAfter, Schedule.IntervalSlot;
    forall t: int
      ensures sched(t).value > t && Schedule.IntervalSlot(d, sched(t).value)
      ensures forall x :: t < x && Schedule.IntervalSlot(d, x) ==> sched(t).value <= x
    {
      Schedule.IntervalAfterIsLeast(d, t);
    }
    LeastIsSteady(sched, x => Schedule.IntervalSlot(d, x));
  }

  lemma DailyIsSteady(days: set<int>, hour: int, min: int)
    requires Schedule.ValidClock(hour, min)
    ensures Steady(SchedOf(Daily(days, hour, min))) &&
            forall from, now :: Sees(SchedOf(Daily(days, hour, min)), from, now)
  {
    var sched := SchedOf(Daily(days, hour, min));
    hide Schedule.DailyAfter, Schedule.DailySlot;
    forall t: int ensures Schedule.DailyLeast(days, hour, min, t, sched(t)) {
      Schedule.DailyAfterIsLeast(days, hour, min, t);
    }
    LeastIsSteady(sched, x => Schedule.DailySlot(days, hour, min, x));
  }

  /** Every kind of schedule is steady; a cron expression sees every slot within
      its lookahead, the others see them all. */
  lemma KindIsSteady(k: Kind, from: int, now: int)
    requires ValidKind(k) && (k.Cron? ==> now - from <= Schedule.MAX_LOOKAHEAD)
    ensures Steady(SchedOf(k)) && Sees(SchedOf(k), from, now)
  {
    match k {
      case Cron(c) => CronIsSteady(c, from, now);
      case Every(d) => EveryIsSteady(d);
      case Daily(days, hour, min) => DailyIsSteady(days, hour, min);
      case Once(at) => LeastIsSteady(SchedOf(k), x => x == at);
    }
  }

  lemma OnDayMinute(x: int)
    requires Schedule.WholeMinute(x % Calendar.DAY)
    ensures Schedule.WholeMinute(x)
  {
    Calendar.DivisionIs(x, Calendar.MINUTE,
                        x / Calendar.DAY * 1440 + x % Calendar.DAY / Calendar.MINUTE, 0);
  }

  /** Slots of a schedule that repeats are whole minutes. */
  lemma KindMinutes(k: Kind, t: int)
    requires ValidKind(k) && !k.Once? && SchedOf(k)(t).Some?
    ensures SchedOf(k)(t).value > t && Schedule.WholeMinute(SchedOf(k)(t).value)
  {
    hide Schedule.IntervalAfter, Schedule.DailyAfter, Schedule.Scan, Schedule.WholeMinute, CronSched, Schedule.Matches;
    var x := SchedOf(k)(t).value;
    match k {
      case Cron(c) => CronAdvances(c, t, t);
      case Every(d) =>
        Schedule.IntervalAfterIsLeast(d, t);
        OnDayMinute(x);
      case Daily(days, hour, min) =>
        Schedule.DailyAfterIsLeast(days, hour, min, t);
        Calendar.DivisionIs(hour * Calendar.HOUR + min * Calendar.MINUTE, Calendar.MINUTE, hour * 60 + min, 0);
        MinuteRemainder(x % Calendar.DAY);
        OnDayMinute(x);
    }
  }

  lemma MinuteRemainder(x: int)
    requires x % Calendar.MINUTE == 0
    ensures Schedule.WholeMinute(x)
  {
  }

  /** For a schedule of any kind and a window of up to 100000 minutes, what
      catching up picks is right: the latest slot at or before now that is after
      the window's start, the last slot used and the file's time, and none
      exactly when there is none. */
  lemma CatchesUp(b: Books, j: Job, k: Kind, now: int)
    requires ValidKind(k) && j.sched == SchedOf(k) && 0 < j.window <= 100_000 * Calendar.MINUTE
    ensures Greatest(j.sched, CatchUpFrom(b, j, now), now, MissedSlot(b, j, now))
  {
    var from := CatchUpFrom(b, j, now);
    hide SchedOf, Greatest, MissedSlot, Sees;
    KindIsSteady(k, from, now);
    if k.Once? {
      OnceEnds(k.at, from, now);
    } else {
      forall t | j.sched(t).Some? ensures j.sched(t).value > t && Schedule.WholeMinute(j.sched(t).value) {
        KindMinutes(k, t);
      }
      MinutesAgo(from, now);
      MinutesEnd(j.sched, from, now, MAX_STEPS);
    }
    MissedIsGreatest(b, j, now);
  }

  lemma OnceEnds(at: int, from: int, now: int)
    ensures Ends(SchedOf(Once(at)), SchedOf(Once(at))(from), now, MAX_STEPS)
  {
  }

  lemma MinutesAgo(from: int, now: int)
    requires from >= now - MAX_STEPS * Calendar.MINUTE
    ensures now < from / Calendar.MINUTE * Calendar.MINUTE + (MAX_STEPS + 1) * Calendar.MINUTE
  {
  }
}
