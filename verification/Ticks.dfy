/** The runs there are to be: what a tick, a start and a request by hand each
    add for one job, no more and no less. */
module Ticks {
  import opened Events
  import opened CronRuns

  // ---- One job among the others ----

  /** The rows there were stay, and so does which of their runs are going. */
  ghost predicate Extends(b: Books, b': Books) {
    && |b.runs| <= |b'.runs| && (forall i :: 0 <= i < |b.runs| ==> b'.runs[i] == b.runs[i])
    && (forall i :: 0 <= i < |b.runs| ==> (i in b'.going <==> i in b.going))
  }

  ghost predicate NoneNew(b: Books, b': Books, name: string) {
    forall i :: |b.runs| <= i < |b'.runs| ==> b'.runs[i].job != name
  }

  /** Row k is r, and the only new one of its job. */
  ghost predicate OnlyNew(b: Books, b': Books, k: nat, r: Run) {
    && |b.runs| <= k < |b'.runs| && b'.runs[k] == r
    && (forall i :: |b.runs| <= i < |b'.runs| && i != k ==> b'.runs[i].job != r.job)
  }

  /** The job has one new run: going if the job was free, skipped if not. */
  ghost predicate RunAdded(b: Books, b': Books, cause: Cause, slot: int, name: string, k: nat)
    requires name in b.jobs && name in b'.jobs
  {
    var free := b.jobs[name].running.None?;
    && OnlyNew(b, b', k, Run(name, cause, slot, if free then Running else Skipped))
    && (k in b'.going <==> free)
    && b'.jobs[name].running == if free then Some(k) else b.jobs[name].running
  }

  /** Nothing of the job changes. */
  ghost predicate Untouched(b: Books, b': Books, name: string) {
    && Extends(b, b') && NoneNew(b, b', name)
    && (name in b'.jobs <==> name in b.jobs) && (name in b.jobs ==> b'.jobs[name] == b.jobs[name])
    && Last(b', name) == Last(b, name)
  }

  predicate Due(b: Books, name: string, now: int) {
    name in b.jobs && b.jobs[name].next.Some? && b.jobs[name].next.value <= now
  }

  /** A due job's slot is run, if the store takes the row; it is used up and
      the next one is the schedule's next after now, either way. */
  ghost predicate Ticked(b: Books, b': Books, name: string, now: int, ok: bool)
    requires Due(b, name, now)
  {
    var js := b.jobs[name];
    && Extends(b, b') && name in b'.jobs && b'.jobs[name].job == js.job && b'.jobs[name].next == js.job.sched(now)
    && Last(b', name) == js.next
    && (if ok then exists k: nat :: RunAdded(b, b', OnSchedule, js.next.value, name, k)
        else NoneNew(b, b', name) && b'.jobs[name].running == js.running)
  }

  lemma UntouchedTwice(b: Books, b1: Books, b2: Books, name: string)
    requires Untouched(b, b1, name) && Untouched(b1, b2, name)
    ensures Untouched(b, b2, name)
  {
    forall i | 0 <= i < |b.runs| ensures b2.runs[i] == b.runs[i] && (i in b2.going <==> i in b.going) {
      assert b1.runs[i] == b.runs[i];
    }
  }

  lemma FiredOther(b: Books, other: string, now: int, ok: bool, name: string)
    requires Inv(b) && other in b.jobs && other != name
    ensures Untouched(b, Fired(b, other, now, ok), name)
  {
    hide Increases, Used, Running1, JobOk;
  }

  lemma FiredDue(b: Books, name: string, now: int, ok: bool)
    requires Inv(b) && Due(b, name, now)
    ensures Ticked(b, Fired(b, name, now, ok), name, now, ok)
  {
    hide Increases, Used, Running1, Advances;
    assert JobOk(b, name);
    var b', k := Fired(b, name, now, ok), |b.runs|;
    assert k !in b.going;
    if ok {
      assert RunAdded(b, b', OnSchedule, b.jobs[name].next.value, name, k);
    }
  }

  lemma TickedAfter(b: Books, b1: Books, b2: Books, name: string, now: int, ok: bool)
    requires Untouched(b, b1, name) && Due(b, name, now) && Ticked(b1, b2, name, now, ok)
    ensures Ticked(b, b2, name, now, ok)
  {
    var slot := b.jobs[name].next.value;
    if ok {
      var k: nat :| RunAdded(b1, b2, OnSchedule, slot, name, k);
      assert RunAdded(b, b2, OnSchedule, slot, name, k);
    }
  }

  lemma TickedBefore(b: Books, b1: Books, b2: Books, name: string, now: int, ok: bool)
    requires Due(b, name, now) && Ticked(b, b1, name, now, ok) && Untouched(b1, b2, name)
    ensures Ticked(b, b2, name, now, ok)
  {
    var slot := b.jobs[name].next.value;
    if ok {
      var k: nat :| RunAdded(b, b1, OnSchedule, slot, name, k);
      assert RunAdded(b, b2, OnSchedule, slot, name, k);
    }
  }

  lemma {:induction false} FiredAllOthers(b: Books, order: seq<string>, now: int, ok: string -> bool, name: string)
    requires Inv(b) && name !in order
    ensures Untouched(b, FiredAll(b, order, now, ok), name)
  {
    hide Inv, Fired, Untouched;
    if order != [] {
      var init, other := order[..|order| - 1], order[|order| - 1];
      var b1 := FiredAll(b, init, now, ok);
      FiredAllOthers(b, init, now, ok, name);
      FiredAllInv(b, init, now, ok);
      if other in b1.jobs {
        FiredOther(b1, other, now, ok(other), name);
        UntouchedTwice(b, b1, Fired(b1, other, now, ok(other)), name);
      }
    } else {
      NothingTouched(b, name);
    }
  }

  lemma NothingTouched(b: Books, name: string)
    ensures Untouched(b, b, name)
  {
  }

  lemma {:induction false} FiredAllDue(b: Books, order: seq<string>, now: int, ok: string -> bool, name: string)
    requires Inv(b) && EachOnce(order) && name in order && Due(b, name, now)
    ensures Ticked(b, FiredAll(b, order, now, ok), name, now, ok(name))
  {
    var init, last := order[..|order| - 1], order[|order| - 1];
    assert order == init + [last];
    var b1 := FiredAll(b, init, now, ok);
    FiredAllInv(b, init, now, ok);
    hide Inv, Fired, Ticked;
    if name == last {
      FiredAllOthers(b, init, now, ok, name);
      FiredDue(b1, name, now, ok(name));
      TickedAfter(b, b1, Fired(b1, name, now, ok(name)), name, now, ok(name));
    } else {
      FiredAllDue(b, init, now, ok, name);
      if last in b1.jobs {
        FiredOther(b1, last, now, ok(last), name);
        TickedBefore(b, b1, Fired(b1, last, now, ok(last)), name, now, ok(name));
      }
    }
  }

  lemma {:induction false} FiredAllNotDue(b: Books, order: seq<string>, now: int, ok: string -> bool, name: string)
    requires Inv(b) && !Due(b, name, now)
    ensures Untouched(b, FiredAll(b, order, now, ok), name)
  {
    hide Inv, Fired, Untouched;
    if order != [] {
      var init, other := order[..|order| - 1], order[|order| - 1];
      var b1 := FiredAll(b, init, now, ok);
      FiredAllNotDue(b, init, now, ok, name);
      FiredAllInv(b, init, now, ok);
      if other in b1.jobs {
        if other != name {
          FiredOther(b1, other, now, ok(other), name);
        } else {
          FiredNotDue(b, b1, name, now, ok(name));
        }
        UntouchedTwice(b, b1, Fired(b1, other, now, ok(other)), name);
      }
    } else {
      NothingTouched(b, name);
    }
  }

  lemma FiredNotDue(b: Books, b1: Books, name: string, now: int, ok: bool)
    requires Untouched(b, b1, name) && !Due(b, name, now) && name in b1.jobs
    ensures Untouched(b1, Fired(b1, name, now, ok), name)
  {
  }

  // ---- A tick, in any run ----

  lemma OneMoreStep(steps: seq<Step>, s: Step)
    ensures RunAll(steps + [s]) == Applied(RunAll(steps), s)
  {
    assert (steps + [s])[..|steps|] == steps;
  }

  /** Whatever happened before, a tick that walks the jobs once each runs every
      job that is due: exactly one new run, for its slot, going if the job was
      free and skipped if not, unless the store does not take it; and it
      leaves every other job as it was. */
  lemma {:induction false} TickRunsWhatIsDue(steps: seq<Step>, order: seq<string>, now: int, ok: string -> bool,
                                             name: string)
    requires (forall k :: 0 <= k < |steps| ==> OpOk(steps[k].op)) && EachOnce(order)
    requires forall n :: n in RunAll(steps).jobs ==> n in order
    ensures var b, b' := RunAll(steps), RunAll(steps + [Step(Tick(order, now), ok)]);
            if Due(b, name, now) then Ticked(b, b', name, now, ok(name)) else Untouched(b, b', name)
  {
    hide RunAll, Inv, Ticked, Untouched;
    var b := RunAll(steps);
    RunAllInv(steps);
    OneMoreStep(steps, Step(Tick(order, now), ok));
    if Due(b, name, now) {
      FiredAllDue(b, order, now, ok, name);
    } else {
      FiredAllNotDue(b, order, now, ok, name);
    }
  }

  /** The first slot after t, if there is one up to far. */
  ghost predicate FirstAfter(sched: Sched, t: int, far: int, r: Option<int>) {
    && (r.Some? ==> r.value > t && Slot(sched, r.value))
    && (forall x :: t < x && Slot(sched, x) && (r.Some? || x <= far) ==> r.Some? && r.value <= x)
  }

  lemma NextAfterNow(k: Kind, now: int)
    requires ValidKind(k)
    ensures FirstAfter(SchedOf(k), now, now + Schedule.MAX_LOOKAHEAD, SchedOf(k)(now))
  {
    var sched := SchedOf(k);
    hide SchedOf;
    KindIsSteady(k, now, now + Schedule.MAX_LOOKAHEAD);
    if sched(now).Some? {
      NextIsSlot(sched, now);
      forall x | now < x && Slot(sched, x) ensures sched(now).value <= x {
        if x < sched(now).value {
          NoSlotBetween(sched, now, x);
        }
      }
    }
  }

  /** Whatever happened before, the next slot of a job that was due is the first
      one after now, and after the slot just used. */
  lemma {:induction false} TickSetsNext(steps: seq<Step>, order: seq<string>, now: int, ok: string -> bool,
                                        name: string, k: Kind)
    requires (forall i :: 0 <= i < |steps| ==> OpOk(steps[i].op)) && EachOnce(order)
    requires forall n :: n in RunAll(steps).jobs ==> n in order
    requires Due(RunAll(steps), name, now)
    requires ValidKind(k) && RunAll(steps).jobs[name].job.sched == SchedOf(k)
    ensures var b' := RunAll(steps + [Step(Tick(order, now), ok)]);
            && Last(b', name).Some? && Last(b', name).value <= now && name in b'.jobs
            && FirstAfter(SchedOf(k), now, now + Schedule.MAX_LOOKAHEAD, b'.jobs[name].next)
  {
    hide RunAll, SchedOf, FirstAfter, OpOk, EachOnce;
    TickRunsWhatIsDue(steps, order, now, ok, name);
    NextAfterNow(k, now);
  }

  // ---- Which jobs run of themselves ----

  predicate Active(j: Job) {
    j.enabled && !j.broken
  }

  /** Only a job that is enabled and not broken has a next slot. */
  ghost predicate OnlyActiveWait(b: Books) {
    forall name :: name in b.jobs && b.jobs[name].next.Some? ==> Active(b.jobs[name].job)
  }

  lemma {:induction false} FiredAllWait(b: Books, order: seq<string>, now: int, ok: string -> bool)
    requires OnlyActiveWait(b)
    ensures OnlyActiveWait(FiredAll(b, order, now, ok))
  {
    if order != [] {
      FiredAllWait(b, order[..|order| - 1], now, ok);
    }
  }

  lemma {:induction false} ScannedAllWait(b: Books, files: seq<Job>, now: int, startup: bool, ok: string -> bool)
    requires OnlyActiveWait(b)
    ensures OnlyActiveWait(ScannedAll(b, files, now, startup, ok))
  {
    if files != [] {
      ScannedAllWait(b, files[..|files| - 1], now, startup, ok);
    }
  }

  lemma {:induction false} RunAllWait(steps: seq<Step>)
    ensures OnlyActiveWait(RunAll(steps))
  {
    if steps != [] {
      var before, s := steps[..|steps| - 1], steps[|steps| - 1];
      var b := RunAll(before);
      RunAllWait(before);
      match s.op {
        case Boot(files, now) =>
          var kept := FailedUnfinished(b.runs);
          if files.Some? {
            ScannedAllWait(Books(map[], LastSlots(kept), kept, {}), files.value, now, true, s.ok);
          }
        case Rescan(files, now) =>
          if files.Some? {
            ScannedAllWait(b, files.value, now, false, s.ok);
          }
        case Tick(order, now) => FiredAllWait(b, order, now, s.ok);
        case _ =>
      }
    }
  }

  lemma ScannedOther(b: Books, j: Job, now: int, startup: bool, ok: bool, name: string)
    requires Inv(b) && (j.name != name || (!Active(j) && name !in b.jobs))
    ensures var b' := Scanned(b, j, now, startup, ok);
            Extends(b, b') && NoneNew(b, b', name) && (j.name != name ==> Untouched(b, b', name))
  {
    hide Increases, Used, Running1, JobOk, MissedSlot, NextAfter;
  }

  lemma {:induction false} ScannedAllOthers(b: Books, files: seq<Job>, now: int, startup: bool, ok: string -> bool,
                                            name: string)
    requires Inv(b) && FilesOk(files) && forall i :: 0 <= i < |files| ==> files[i].name != name
    ensures Untouched(b, ScannedAll(b, files, now, startup, ok), name)
  {
    hide Inv, Scanned, Untouched;
    if files != [] {
      var init, j := files[..|files| - 1], files[|files| - 1];
      var b1 := ScannedAll(b, init, now, startup, ok);
      ScannedAllOthers(b, init, now, startup, ok, name);
      ScannedAllInv(b, init, now, startup, ok);
      ScannedOther(b1, j, now, startup, ok(j.name), name);
      UntouchedTwice(b, b1, Scanned(b1, j, now, startup, ok(j.name)), name);
    } else {
      NothingTouched(b, name);
    }
  }

  predicate DistinctFiles(files: seq<Job>) {
    forall i, j :: 0 <= i < j < |files| ==> files[i].name != files[j].name
  }

  /** A job read for the first time as the server starts: one run for the slot
      missed, if there is one, the job may run and the store takes the row. */
  ghost predicate Started1(b: Books, b': Books, j: Job, now: int, ok: bool) {
    var missed := MissedSlot(b, j, now);
    && Extends(b, b') && j.name in b'.jobs && b'.jobs[j.name].job == j
    && b'.jobs[j.name].next == (if Active(j) then j.sched(Later(now, Last(b, j.name))) else None)
    && if Active(j) && missed.Some? && ok then exists k: nat :: CaughtUp(b, b', j.name, missed.value, k)
       else NoneNew(b, b', j.name) && b'.jobs[j.name].running.None?
  }

  ghost predicate CaughtUp(b: Books, b': Books, name: string, slot: int, k: nat) {
    && OnlyNew(b, b', k, Run(name, CatchUp, slot, Running)) && k in b'.going
    && name in b'.jobs && b'.jobs[name].running == Some(k)
  }

  lemma ScannedFirst(b: Books, j: Job, now: int, ok: bool)
    requires Inv(b) && j.name !in b.jobs && (!j.broken ==> Advances(j.sched))
    ensures Started1(b, Scanned(b, j, now, true, ok), j, now, ok)
  {
    hide Increases, Used, Running1, JobOk, LastOf;
    if !j.broken {
      MissedIsUnused(b, j, now);
    }
    var b', missed := Scanned(b, j, now, true, ok), MissedSlot(b, j, now);
    assert MissedSlot(Reread(b, j), j, now) == missed;
    if Active(j) && missed.Some? && ok {
      assert CaughtUp(b, b', j.name, missed.value, |b.runs|);
    }
  }

  lemma Started1After(b: Books, b1: Books, b2: Books, j: Job, now: int, ok: bool)
    requires Untouched(b, b1, j.name) && Started1(b1, b2, j, now, ok)
    ensures Started1(b, b2, j, now, ok)
  {
    hide LastOf;
    var missed := MissedSlot(b, j, now);
    assert MissedSlot(b1, j, now) == missed;
    forall i | 0 <= i < |b.runs| ensures b2.runs[i] == b.runs[i] && (i in b2.going <==> i in b.going) {
      assert b1.runs[i] == b.runs[i];
    }
    if Active(j) && missed.Some? && ok {
      var k: nat :| CaughtUp(b1, b2, j.name, missed.value, k);
      assert CaughtUp(b, b2, j.name, missed.value, k);
    }
  }

  lemma Started1Before(b: Books, b1: Books, b2: Books, j: Job, now: int, ok: bool)
    requires Started1(b, b1, j, now, ok) && Untouched(b1, b2, j.name)
    ensures Started1(b, b2, j, now, ok)
  {
    hide LastOf;
    var missed := MissedSlot(b, j, now);
    forall i | 0 <= i < |b.runs| ensures b2.runs[i] == b.runs[i] && (i in b2.going <==> i in b.going) {
      assert b1.runs[i] == b.runs[i];
    }
    if Active(j) && missed.Some? && ok {
      var k: nat :| CaughtUp(b, b1, j.name, missed.value, k);
      assert CaughtUp(b, b2, j.name, missed.value, k);
    }
  }

  lemma {:induction false} ScannedAllFirst(b: Books, files: seq<Job>, now: int, ok: string -> bool, n: nat)
    requires Inv(b) && FilesOk(files) && DistinctFiles(files) && n < |files| && files[n].name !in b.jobs
    ensures Started1(b, ScannedAll(b, files, now, true, ok), files[n], now, ok(files[n].name))
  {
    hide Inv, Scanned, Untouched, Started1;
    var init, last, j := files[..|files| - 1], files[|files| - 1], files[n];
    var b1 := ScannedAll(b, init, now, true, ok);
    ScannedAllInv(b, init, now, true, ok);
    if n == |files| - 1 {
      ScannedAllOthers(b, init, now, true, ok, j.name);
      NotAdded(b, b1, j.name);
      ScannedFirst(b1, j, now, ok(j.name));
      Started1After(b, b1, Scanned(b1, j, now, true, ok(j.name)), j, now, ok(j.name));
    } else {
      ScannedAllFirst(b, init, now, ok, n);
      ScannedOther(b1, last, now, true, ok(last.name), j.name);
      Started1Before(b, b1, Scanned(b1, last, now, true, ok(last.name)), j, now, ok(j.name));
    }
  }

  lemma NotAdded(b: Books, b1: Books, name: string)
    requires Untouched(b, b1, name) && name !in b.jobs
    ensures name !in b1.jobs
  {
  }

  // ---- Which slot was missed ----

  /** A slot that could be caught up on: within the window, after the file was
      written, and after every slot the job has a run for. */
  ghost predicate Missable(runs: seq<Run>, j: Job, now: int, x: int) {
    && Slot(j.sched, x) && now - j.window < x <= now && j.modTime < x
    && (forall i :: 0 <= i < |runs| && Auto(runs[i]) && runs[i].job == j.name ==> runs[i].slot < x)
  }

  ghost predicate LatestMissed(runs: seq<Run>, j: Job, now: int, r: Option<int>) {
    && (r.Some? ==> Missable(runs, j, now, r.value))
    && (forall x :: Missable(runs, j, now, x) ==> r.Some? && x <= r.value)
  }

  lemma {:induction false} LastSlotRecorded(runs: seq<Run>, name: string)
    requires name in LastSlots(runs)
    ensures exists i :: 0 <= i < |runs| && Auto(runs[i]) && runs[i].job == name && runs[i].slot == LastSlots(runs)[name]
  {
    var init, r := runs[..|runs| - 1], runs[|runs| - 1];
    if name in LastSlots(init) && LastSlots(runs)[name] == LastSlots(init)[name] {
      LastSlotRecorded(init, name);
      var i :| 0 <= i < |init| && Auto(init[i]) && init[i].job == name && init[i].slot == LastSlots(init)[name];
      assert runs[i] == init[i];
    } else {
      assert runs[|runs| - 1] == r && Auto(r);
    }
  }

  lemma MissableFrom(b: Books, j: Job, now: int, x: int)
    requires b.lastSlot == LastSlots(b.runs)
    ensures Missable(b.runs, j, now, x) <==> Slot(j.sched, x) && CatchUpFrom(b, j, now) < x <= now
  {
    if j.name in b.lastSlot {
      LastSlotRecorded(b.runs, j.name);
    }
    forall i | 0 <= i < |b.runs| && Auto(b.runs[i]) && b.runs[i].job == j.name
      ensures j.name in b.lastSlot && b.runs[i].slot <= b.lastSlot[j.name]
    {
      LastSlotsCover(b.runs, i);
    }
  }

  lemma MissedIsLatest(b: Books, j: Job, k: Kind, now: int)
    requires b.lastSlot == LastSlots(b.runs)
    requires ValidKind(k) && j.sched == SchedOf(k) && j.window <= 100_000 * Calendar.MINUTE
    ensures LatestMissed(b.runs, j, now, MissedSlot(b, j, now))
  {
    hide SchedOf, LastOf, LastSlots, CatchUpFrom, Slot;
    if j.window > 0 {
      CatchesUp(b, j, k, now);
      forall x ensures Missable(b.runs, j, now, x) <==> Slot(j.sched, x) && CatchUpFrom(b, j, now) < x <= now {
        MissableFrom(b, j, now, x);
      }
    }
  }

  // ---- A start, in any run ----

  /** What the store has when the server starts, before the first scan. */
  function AtStart(runs: seq<Run>): Books {
    var kept := FailedUnfinished(runs);
    Books(map[], LastSlots(kept), kept, {})
  }

  lemma SweptStays(b: Books, files: seq<Job>, n: nat)
    requires n < |files|
    ensures var b', name := Swept(b, files), files[n].name;
            b'.runs == b.runs && b'.going == b.going && b'.lastSlot == b.lastSlot &&
            (name in b'.jobs <==> name in b.jobs) && (name in b.jobs ==> b'.jobs[name] == b.jobs[name])
  {
  }

  lemma {:induction false} SlotsStay(runs: seq<Run>, kept: seq<Run>, j: Job, now: int, r: Option<int>)
    requires |kept| == |runs|
    requires forall i :: 0 <= i < |runs| ==> kept[i] == runs[i] || kept[i] == runs[i].(state := Failed)
    requires LatestMissed(kept, j, now, r)
    ensures LatestMissed(runs, j, now, r)
  {
    forall i | 0 <= i < |runs|
      ensures Auto(kept[i]) == Auto(runs[i]) && kept[i].job == runs[i].job && kept[i].slot == runs[i].slot
    {
    }
    forall x ensures Missable(runs, j, now, x) <==> Missable(kept, j, now, x) {}
  }

  /** The later of now and the last slot a job has a run for, other than by
      hand. */
  ghost predicate FromThen(runs: seq<Run>, name: string, now: int, t: int) {
    && t >= now
    && (t > now ==> exists i :: 0 <= i < |runs| && Auto(runs[i]) && runs[i].job == name && runs[i].slot == t)
    && (forall i :: 0 <= i < |runs| && Auto(runs[i]) && runs[i].job == name ==> runs[i].slot <= t)
  }

  /** The run a start owes a job: for the latest slot it missed. Then, if it may
      run, it waits for the first slot not past and not used. */
  ghost predicate Owed(b: Books, b': Books, j: Job, now: int, ok: bool, missed: Option<int>, t: int) {
    && LatestMissed(b.runs, j, now, missed) && FromThen(b.runs, j.name, now, t)
    && j.name in b'.jobs && b'.jobs[j.name].next == (if Active(j) then j.sched(t) else None)
    && if Active(j) && missed.Some? && ok then exists k: nat :: CaughtUp(b, b', j.name, missed.value, k)
       else NoneNew(b, b', j.name)
  }

  /** Whatever happened before, a server that starts gives each job whose file
      it reads exactly one run for the latest slot it missed, if it missed one,
      may run and the store takes the row, and none otherwise; and then waits
      for its next slot. */
  lemma {:induction false} StartCatchesUp(steps: seq<Step>, files: seq<Job>, now: int, ok: string -> bool, n: nat,
                                          kind: Kind)
    requires (forall k :: 0 <= k < |steps| ==> OpOk(steps[k].op)) && FilesOk(files) && DistinctFiles(files)
    requires n < |files| && ValidKind(kind) && files[n].sched == SchedOf(kind)
    requires files[n].window <= 100_000 * Calendar.MINUTE
    ensures var b, b' := RunAll(steps), RunAll(steps + [Step(Boot(Some(files), now), ok)]);
            exists missed, t :: Owed(b, b', files[n], now, ok(files[n].name), missed, t)
  {
    hide RunAll, Inv, LatestMissed, SchedOf, LastOf, MissedSlot;
    var b, j := RunAll(steps), files[n];
    var s := Step(Boot(Some(files), now), ok);
    RunAllInv(steps);
    OneMoreStep(steps, s);
    var b0 := AtStart(b.runs);
    RunsIncrease(b);
    RestartInv(b.runs);
    ScannedAllFirst(b0, files, now, ok, n);
    var b1, missed := ScannedAll(b0, files, now, true, ok), MissedSlot(b0, j, now);
    SweptStays(b1, files, n);
    MissedIsLatest(b0, j, kind, now);
    SlotsStay(b.runs, b0.runs, j, now, missed);
    LaterRecorded(b0, j.name, now);
    ThenStays(b.runs, b0.runs, j.name, now, Later(now, Last(b0, j.name)));
    StartOwed(b, b0, b1, Applied(b, s), j, now, ok(j.name), missed);
  }

  lemma LaterRecorded(b: Books, name: string, now: int)
    requires b.lastSlot == LastSlots(b.runs)
    ensures FromThen(b.runs, name, now, Later(now, Last(b, name)))
  {
    hide LastSlots;
    if name in b.lastSlot {
      LastSlotRecorded(b.runs, name);
    }
    forall i | 0 <= i < |b.runs| && Auto(b.runs[i]) && b.runs[i].job == name
      ensures name in b.lastSlot && b.runs[i].slot <= b.lastSlot[name]
    {
      LastSlotsCover(b.runs, i);
    }
  }

  lemma {:induction false} ThenStays(runs: seq<Run>, kept: seq<Run>, name: string, now: int, t: int)
    requires |kept| == |runs|
    requires forall i :: 0 <= i < |runs| ==> kept[i] == runs[i] || kept[i] == runs[i].(state := Failed)
    requires FromThen(kept, name, now, t)
    ensures FromThen(runs, name, now, t)
  {
    forall i | 0 <= i < |runs|
      ensures Auto(kept[i]) == Auto(runs[i]) && kept[i].job == runs[i].job && kept[i].slot == runs[i].slot
    {
    }
  }

  lemma RunsIncrease(b: Books)
    requires Inv(b)
    ensures forall i, j :: 0 <= i < j < |b.runs| ==> Increases(b.runs, i, j)
  {
  }

  lemma StartOwed(b: Books, b0: Books, b1: Books, b': Books, j: Job, now: int, ok: bool, missed: Option<int>)
    requires |b0.runs| == |b.runs| && missed == MissedSlot(b0, j, now) && LatestMissed(b.runs, j, now, missed)
    requires Started1(b0, b1, j, now, ok) && b'.runs == b1.runs && b'.going == b1.going
    requires j.name in b'.jobs && b'.jobs[j.name] == b1.jobs[j.name]
    requires FromThen(b.runs, j.name, now, Later(now, Last(b0, j.name)))
    ensures Owed(b, b', j, now, ok, missed, Later(now, Last(b0, j.name)))
  {
    hide LatestMissed, MissedSlot, FromThen;
    if Active(j) && missed.Some? && ok {
      var k: nat :| CaughtUp(b0, b1, j.name, missed.value, k);
      assert CaughtUp(b, b', j.name, missed.value, k);
    }
  }

  // ---- A request by hand, in any run ----

  /** A job that is there, whole and free runs once when it is asked to, enabled
      or not, unless the store does not take the row; any other request changes
      nothing. */
  lemma {:induction false} ByHandRuns(steps: seq<Step>, name: string, now: int, ok: string -> bool)
    requires forall k :: 0 <= k < |steps| ==> OpOk(steps[k].op)
    ensures var b, b' := RunAll(steps), RunAll(steps + [Step(ByHand(name, now), ok)]);
            if name in b.jobs && b.jobs[name].job.path != "" && !b.jobs[name].job.broken &&
               b.jobs[name].running.None? && ok(name)
            then RunAdded(b, b', Manual, now, name, |b.runs|) && b'.lastSlot == b.lastSlot && Extends(b, b') &&
                 |b'.runs| == |b.runs| + 1
            else b' == b
  {
    hide RunAll, Increases, Used, Running1, JobOk;
    var b := RunAll(steps);
    RunAllInv(steps);
    OneMoreStep(steps, Step(ByHand(name, now), ok));
    assert |b.runs| !in b.going;
  }

  // ---- Which jobs run of themselves ----

  /** What a step may run a job for. */
  ghost predicate Warranted(b: Books, op: Op, name: string) {
    match op
    case Tick(_, now) => Due(b, name, now) && Active(b.jobs[name].job)
    case Boot(files, _) => files.Some? && exists i :: 0 <= i < |files.value| && RunsItself(files.value[i], name)
    case ByHand(asked, _) => asked == name
    case _ => false
  }

  predicate RunsItself(j: Job, name: string) {
    j.name == name && Active(j)
  }

  lemma {:induction false} ScannedAllInactive(b: Books, files: seq<Job>, now: int, ok: string -> bool, name: string)
    requires Inv(b) && FilesOk(files) && forall i :: 0 <= i < |files| ==> !RunsItself(files[i], name)
    ensures var b' := ScannedAll(b, files, now, true, ok); |b.runs| <= |b'.runs| && NoneNew(b, b', name)
  {
    hide Inv;
    if files != [] {
      var init, j := files[..|files| - 1], files[|files| - 1];
      var b1 := ScannedAll(b, init, now, true, ok);
      forall i | 0 <= i < |init| ensures !RunsItself(init[i], name) {
        assert init[i] == files[i];
      }
      ScannedAllInactive(b, init, now, ok, name);
      ScannedAllInv(b, init, now, true, ok);
      ScannedInactive(b1, j, now, ok(j.name), name);
    }
  }

  lemma ScannedInactive(b: Books, j: Job, now: int, ok: bool, name: string)
    requires !RunsItself(j, name)
    ensures var b' := Scanned(b, j, now, true, ok);
            |b.runs| <= |b'.runs| && NoneNew(b, b', name) && forall i :: 0 <= i < |b.runs| ==> b'.runs[i] == b.runs[i]
  {
    hide MissedSlot, NextAfter;
  }

  /** Whatever happened before, no step adds a run that nothing warrants: a job
      that is disabled or broken runs only when asked to by hand. */
  lemma {:induction false} OnlyWarrantedRuns(steps: seq<Step>, s: Step, i: nat)
    requires (forall k :: 0 <= k < |steps| ==> OpOk(steps[k].op)) && OpOk(s.op)
    requires |RunAll(steps).runs| <= i < |RunAll(steps + [s]).runs|
    ensures Warranted(RunAll(steps), s.op, RunAll(steps + [s]).runs[i].job)
  {
    hide RunAll, Inv;
    var b := RunAll(steps);
    RunAllInv(steps);
    RunAllWait(steps);
    OneMoreStep(steps, s);
    var b' := Applied(b, s);
    var name := b'.runs[i].job;
    match s.op {
      case Tick(order, now) =>
        if !Due(b, name, now) {
          FiredAllNotDue(b, order, now, s.ok, name);
        }
      case Boot(files, now) =>
        if files.Some? && !Warranted(b, s.op, name) {
          RunsIncrease(b);
          RestartInv(b.runs);
          ScannedAllInactive(AtStart(b.runs), files.value, now, s.ok, name);
        }
      case Rescan(files, now) =>
        if files.Some? {
          ScannedAllInv(b, files.value, now, false, s.ok);
        }
      case _ =>
    }
  }

  // ---- A scan, in any run ----

  predicate SameFile(b: Books, j: Job) {
    j.name in b.jobs && b.jobs[j.name].job.modTime == j.modTime && b.jobs[j.name].job.path == j.path
  }

  /** A job whose file is new or changed is read again; it keeps its run, and
      waits for the first slot not past and not used, if it may run. */
  ghost predicate ReadAgain(b: Books, b': Books, j: Job, now: int) {
    && j.name in b'.jobs && b'.jobs[j.name].job == j
    && b'.jobs[j.name].running == (if j.name in b.jobs then b.jobs[j.name].running else None)
    && if !Active(j) then b'.jobs[j.name].next.None?
       else if j.name in b.lastSlot && b.lastSlot[j.name] > now
       then b'.jobs[j.name].next == j.sched(b.lastSlot[j.name])
       else b'.jobs[j.name].next == j.sched(now)
  }

  lemma ScannedOnce(b: Books, j: Job, now: int, ok: bool)
    ensures var b' := Scanned(b, j, now, false, ok);
            b'.lastSlot == b.lastSlot && b'.runs == b.runs && b'.going == b.going &&
            if SameFile(b, j) then b' == b else ReadAgain(b, b', j, now)
  {
  }

  lemma {:induction false} ScannedAllOne(b: Books, files: seq<Job>, now: int, ok: string -> bool, n: nat)
    requires Inv(b) && FilesOk(files) && DistinctFiles(files) && n < |files|
    ensures var b', j := ScannedAll(b, files, now, false, ok), files[n];
            if SameFile(b, j) then Untouched(b, b', j.name) else ReadAgain(b, b', j, now)
  {
    hide Inv, Scanned;
    var init, last, j := files[..|files| - 1], files[|files| - 1], files[n];
    var b1 := ScannedAll(b, init, now, false, ok);
    ScannedAllInv(b, init, now, false, ok);
    if n == |files| - 1 {
      ScannedAllOthers(b, init, now, false, ok, j.name);
      ScannedOnce(b1, j, now, ok(j.name));
    } else {
      ScannedAllOne(b, init, now, ok, n);
      ScannedOther(b1, last, now, false, ok(last.name), j.name);
    }
  }

  lemma {:induction false} ScannedAllSlots(b: Books, files: seq<Job>, now: int, ok: string -> bool)
    ensures var b' := ScannedAll(b, files, now, false, ok);
            b'.lastSlot == b.lastSlot && b'.runs == b.runs && b'.going == b.going
  {
    if files != [] {
      ScannedAllSlots(b, files[..|files| - 1], now, ok);
    }
  }

  /** Whatever happened before, a scan of the files runs nothing; a job whose
      file is as it was is left alone, one whose file is new or changed is read
      again, and one whose file is gone stays only while it runs. */
  lemma {:induction false} ScanFollowsFiles(steps: seq<Step>, files: seq<Job>, now: int, ok: string -> bool,
                                            name: string)
    requires (forall k :: 0 <= k < |steps| ==> OpOk(steps[k].op)) && FilesOk(files) && DistinctFiles(files)
    ensures var b, b' := RunAll(steps), RunAll(steps + [Step(Rescan(Some(files), now), ok)]);
            && b'.runs == b.runs && b'.lastSlot == b.lastSlot && b'.going == b.going
            && (forall n :: 0 <= n < |files| && files[n].name == name ==>
                  if SameFile(b, files[n]) then name in b'.jobs && b'.jobs[name] == b.jobs[name]
                  else ReadAgain(b, b', files[n], now))
            && (!HasFile(files, name) ==>
                  (name in b'.jobs <==> name in b.jobs && b.jobs[name].running.Some?) &&
                  (name in b'.jobs ==> b'.jobs[name] == b.jobs[name]))
  {
    hide RunAll, Inv, Untouched, ReadAgain;
    var b := RunAll(steps);
    RunAllInv(steps);
    OneMoreStep(steps, Step(Rescan(Some(files), now), ok));
    var b1 := ScannedAll(b, files, now, false, ok);
    ScannedAllSlots(b, files, now, ok);
    var b' := Swept(b1, files);
    forall n | 0 <= n < |files| && files[n].name == name
      ensures if SameFile(b, files[n]) then name in b'.jobs && b'.jobs[name] == b.jobs[name]
              else ReadAgain(b, b', files[n], now)
    {
      ScannedAllOne(b, files, now, ok, n);
      SweptStays(b1, files, n);
      FollowsOne(b, b1, b', files[n], now);
    }
    if !HasFile(files, name) {
      ScannedAllOthers(b, files, now, false, ok, name);
      FollowsNone(b, b1, files, name);
    }
  }

  lemma FollowsOne(b: Books, b1: Books, b': Books, j: Job, now: int)
    requires if SameFile(b, j) then Untouched(b, b1, j.name) else ReadAgain(b, b1, j, now)
    requires (j.name in b'.jobs <==> j.name in b1.jobs) && (j.name in b1.jobs ==> b'.jobs[j.name] == b1.jobs[j.name])
    ensures if SameFile(b, j) then j.name in b'.jobs && b'.jobs[j.name] == b.jobs[j.name] else ReadAgain(b, b', j, now)
  {
  }

  lemma FollowsNone(b: Books, b1: Books, files: seq<Job>, name: string)
    requires Untouched(b, b1, name) && !HasFile(files, name)
    ensures var b' := Swept(b1, files);
            (name in b'.jobs <==> name in b.jobs && b.jobs[name].running.Some?) &&
            (name in b'.jobs ==> b'.jobs[name] == b.jobs[name])
  {
  }

  // ---- A run's end, in any run ----

  /** Whatever happened before, a run that ends frees its job; its row says how
      it ended, and no other row and no other job changes. */
  lemma {:induction false} EndFreesItsJob(steps: seq<Step>, i: nat, state: RunState, ok: string -> bool)
    requires (forall k :: 0 <= k < |steps| ==> OpOk(steps[k].op)) && i in RunAll(steps).going && state != Running
    ensures var b, b' := RunAll(steps), RunAll(steps + [Step(Record(i, state), ok)] + [Step(Clear(i), ok)]);
            && i < |b.runs| && b'.runs == b.runs[i := b.runs[i].(state := state)] && b'.going == b.going - {i}
            && b.runs[i].job in b.jobs && b.jobs[b.runs[i].job].running == Some(i) && b'.jobs.Keys == b.jobs.Keys
            && (forall name :: name in b.jobs ==>
                  b'.jobs[name] == if name == b.runs[i].job then b.jobs[name].(running := None) else b.jobs[name])
            && b'.lastSlot == b.lastSlot
  {
    hide RunAll;
    var b := RunAll(steps);
    RunAllInv(steps);
    assert Running1(b, i);
    OneMoreStep(steps, Step(Record(i, state), ok));
    OneMoreStep(steps + [Step(Record(i, state), ok)], Step(Clear(i), ok));
  }
}
