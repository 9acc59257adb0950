/** The watchdog of a model call, on a virtual clock: its timer is reset by
    every sign of life, may go off while one is being recorded, and gives up
    at most once. */
module Watchdog {
  import opened Events

  /** last is the last sign of life. timer is when the timer goes off, if it
      is set; going counts timer calls that have gone off and still wait for
      the lock. output says a token was seen, progress that the prompt is
      being read. gaveUp records when the watchdog gave up, and how long it
      had waited. */
  datatype Watch = Watch(first: int, stall: int, output: bool, progress: bool, last: int, started: bool, ended: bool,
                         stalled: bool, timer: Option<int>, going: nat, gaveUp: seq<(int, int)>)

  /** What arrived. */
  datatype Sign = Headers | Bytes | Token | Progress

  datatype Step =
    | Start
    | Alive(sign: Sign)
    | GoOff
    | Fire
    | Finish

  function Fresh(first: int, stall: int): Watch {
    Watch(first, stall, false, false, 0, false, false, false, None, 0, [])
  }

  // ---- The steps ----

  /** How long the response may now stay quiet; 0 or less is for ever. */
  function Limit(w: Watch): int {
    if (w.output || w.progress) && w.stall > 0 then w.stall else w.first
  }

  function Armed(w: Watch, now: int): Watch {
    if Limit(w) <= 0 || !w.started || w.ended || w.stalled then w else w.(timer := Some(now + Limit(w)))
  }

  function Begun(w: Watch, now: int): Watch {
    if w.started then w else Armed(w.(last := now, started := true), now)
  }

  function Signed(w: Watch, sign: Sign, now: int): Watch {
    Armed(w.(last := now, output := w.output || sign == Token, progress := w.progress || sign == Progress), now)
  }

  /** The runtime's part: a timer that is due goes off. */
  function WentOff(w: Watch, now: int): Watch {
    if w.timer.Some? && w.timer.value <= now then w.(timer := None, going := w.going + 1) else w
  }

  function Fired(w: Watch, now: int): Watch {
    if w.going == 0 then w
    else
      var v := w.(going := w.going - 1);
      var limit, idle := Limit(v), now - v.last;
      if limit <= 0 then v
      else if idle < limit then v.(timer := Some(now + (limit - idle)))
      else if v.stalled then v
      else v.(stalled := true, gaveUp := v.gaveUp + [(now, idle)])
  }

  function Finished(w: Watch): Watch {
    w.(timer := None, ended := true)
  }

  /** The call is over once it has finished. */
  function Stepped(w: Watch, s: Step, now: int): Watch {
    if w.ended then w
    else match s
    case Start => Begun(w, now)
    case Alive(sign) => if w.started then Signed(w, sign, now) else w
    case GoOff => WentOff(w, now)
    case Fire => Fired(w, now)
    case Finish => Finished(w)
  }

  /** Steps at the times they happen. */
  function Run(first: int, stall: int, steps: seq<(Step, int)>): Watch {
    if steps == [] then Fresh(first, stall)
    else
      var (s, now) := steps[|steps| - 1];
      Stepped(Run(first, stall, steps[..|steps| - 1]), s, now)
  }

  // ---- What it keeps ----

  /** While the call runs, quiet is limited and the watchdog has not given up:
      the timer, if set, is set for the last sign of life plus the limit, and
      if it is not set, it has gone off and is about to be looked at. */
  predicate Watching(w: Watch) {
    w.started && !w.ended && !w.stalled && Limit(w) > 0 ==>
      (w.timer.Some? ==> w.timer.value == w.last + Limit(w)) && (w.timer.None? ==> w.going > 0)
  }

  predicate Inv(w: Watch) {
    && Watching(w)
    && |w.gaveUp| <= 1 && (w.stalled <==> |w.gaveUp| == 1)
    && (!w.started ==> w.timer.None? && w.going == 0 && !w.output && !w.progress)
    && (Limit(w) <= 0 ==> w.timer.None? && w.going == 0)
    && forall i :: 0 <= i < |w.gaveUp| ==> QuietTooLong(w.first, w.stall, w.gaveUp[i])
  }

  /** Nothing arrived for as long as one of the limits allows. */
  predicate QuietTooLong(first: int, stall: int, g: (int, int)) {
    (g.1 >= first && first > 0) || (g.1 >= stall && stall > 0)
  }

  lemma StepKeeps(w: Watch, s: Step, now: int)
    requires Inv(w)
    ensures Inv(Stepped(w, s, now))
  {
  }

  /** In every run, before it ends and until it gives up, the watchdog's
      deadline is the last sign of life plus the current limit, and nothing
      lets it be forgotten. */
  lemma {:induction false} AlwaysWatching(first: int, stall: int, steps: seq<(Step, int)>)
    ensures Inv(Run(first, stall, steps))
  {
    if steps != [] {
      var (s, now) := steps[|steps| - 1];
      AlwaysWatching(first, stall, steps[..|steps| - 1]);
      StepKeeps(Run(first, stall, steps[..|steps| - 1]), s, now);
    }
  }

  lemma {:induction false} LimitsStay(first: int, stall: int, steps: seq<(Step, int)>)
    ensures Run(first, stall, steps).first == first && Run(first, stall, steps).stall == stall
  {
    if steps != [] {
      hide Stepped;
      var (s, now) := steps[|steps| - 1];
      LimitsStay(first, stall, steps[..|steps| - 1]);
      StepKeepsLimits(Run(first, stall, steps[..|steps| - 1]), s, now);
    }
  }

  lemma StepKeepsLimits(w: Watch, s: Step, now: int)
    ensures Stepped(w, s, now).first == w.first && Stepped(w, s, now).stall == w.stall
  {
  }

  /** It gives up at most once, and only on a response quiet for a limit. */
  lemma GivesUpOnce(first: int, stall: int, steps: seq<(Step, int)>)
    ensures var w := Run(first, stall, steps);
            |w.gaveUp| <= 1 && (w.gaveUp != [] ==> QuietTooLong(first, stall, w.gaveUp[0]))
  {
    AlwaysWatching(first, stall, steps);
    LimitsStay(first, stall, steps);
  }

  lemma RunOneMore(first: int, stall: int, steps: seq<(Step, int)>, s: Step, now: int)
    ensures Run(first, stall, steps + [(s, now)]) == Stepped(Run(first, stall, steps), s, now)
  {
    assert (steps + [(s, now)])[..|steps|] == steps;
  }

  // ---- What the deadline is ----

  /** Step k of a run starts the call, or is a sign of life in it. */
  ghost predicate Heard(first: int, stall: int, steps: seq<(Step, int)>, k: int) {
    && 0 <= k < |steps| && !Run(first, stall, steps[..k]).ended
    && (if Run(first, stall, steps[..k]).started then steps[k].0.Alive? else steps[k].0.Start?)
  }

  /** It is a token, or a report that the prompt is being read. */
  ghost predicate Talked(first: int, stall: int, steps: seq<(Step, int)>, k: int) {
    Heard(first, stall, steps, k) && (steps[k].0 == Alive(Token) || steps[k].0 == Alive(Progress))
  }

  ghost predicate LastHeard(first: int, stall: int, steps: seq<(Step, int)>, k: int) {
    Heard(first, stall, steps, k) && forall j :: k < j < |steps| ==> !Heard(first, stall, steps, j)
  }

  ghost predicate HasTalked(first: int, stall: int, steps: seq<(Step, int)>) {
    exists k :: Talked(first, stall, steps, k)
  }

  lemma HeardSnoc(first: int, stall: int, init: seq<(Step, int)>, last: (Step, int), k: int)
    ensures var steps := init + [last];
            && (k != |init| ==> (Heard(first, stall, steps, k) <==> Heard(first, stall, init, k)))
            && (Heard(first, stall, steps, |init|) <==>
                !Run(first, stall, init).ended &&
                if Run(first, stall, init).started then last.0.Alive? else last.0.Start?)
  {
    hide Run;
    var steps := init + [last];
    assert steps[..|init|] == init;
    if 0 <= k < |init| {
      assert steps[..k] == init[..k] && steps[k] == init[k];
    }
  }

  lemma HeardStep(w: Watch, s: Step, now: int)
    ensures var v, heard := Stepped(w, s, now), !w.ended && if w.started then s.Alive? else s.Start?;
            && v.started == (w.started || (heard && s.Start?)) && v.last == (if heard then now else w.last)
            && (v.output || v.progress <==>
                w.output || w.progress || (heard && (s == Alive(Token) || s == Alive(Progress))))
  {
  }

  /** In every run the limit is the one for the whole response until the first
      token or progress report, and the one between signs from then on, if there
      is one; and the last sign of life is the last one heard. */
  lemma {:induction false} LimitIs(first: int, stall: int, steps: seq<(Step, int)>)
    ensures var w := Run(first, stall, steps);
            && Limit(w) == (if HasTalked(first, stall, steps) && stall > 0 then stall else first)
            && (w.started ==> exists k :: LastHeard(first, stall, steps, k) && w.last == steps[k].1)
  {
    Says(first, stall, steps);
    LimitsStay(first, stall, steps);
  }

  lemma {:induction false} Says(first: int, stall: int, steps: seq<(Step, int)>)
    ensures var w := Run(first, stall, steps);
            && (w.output || w.progress <==> HasTalked(first, stall, steps))
            && (w.started ==> exists k :: LastHeard(first, stall, steps, k) && w.last == steps[k].1)
  {
    if steps != [] {
      var init, last := steps[..|steps| - 1], steps[|steps| - 1];
      assert steps == init + [last];
      Says(first, stall, init);
      HeardStep(Run(first, stall, init), last.0, last.1);
      hide Stepped;
      RunOneMore(first, stall, init, last.0, last.1);
      TalkedSnoc(first, stall, init, last);
      if Run(first, stall, steps).started {
        LastHeardSnoc(first, stall, init, last);
      }
    } else {
      assert !Fresh(first, stall).started;
    }
  }

  lemma TalkedSnoc(first: int, stall: int, init: seq<(Step, int)>, last: (Step, int))
    ensures var steps := init + [last];
            HasTalked(first, stall, steps) <==> HasTalked(first, stall, init) || Talked(first, stall, steps, |init|)
  {
    hide Heard, Run;
    var steps := init + [last];
    if HasTalked(first, stall, init) {
      var k :| Talked(first, stall, init, k);
      HeardSnoc(first, stall, init, last, k);
      assert 0 <= k < |init| by { HeardWithin(first, stall, init, k); }
      assert Talked(first, stall, steps, k);
    }
    if HasTalked(first, stall, steps) {
      var k :| Talked(first, stall, steps, k);
      HeardSnoc(first, stall, init, last, k);
      HeardWithin(first, stall, steps, k);
      if k != |init| {
        assert Talked(first, stall, init, k);
      }
    }
  }

  lemma HeardWithin(first: int, stall: int, steps: seq<(Step, int)>, k: int)
    requires Heard(first, stall, steps, k)
    ensures 0 <= k < |steps|
  {
  }

  lemma LastHeardSnoc(first: int, stall: int, init: seq<(Step, int)>, last: (Step, int))
    requires var steps := init + [last];
             Heard(first, stall, steps, |init|) || exists k :: LastHeard(first, stall, init, k)
    ensures var steps := init + [last];
            && (Heard(first, stall, steps, |init|) ==> LastHeard(first, stall, steps, |init|))
            && (!Heard(first, stall, steps, |init|) ==>
                  forall k :: LastHeard(first, stall, init, k) ==>
                    LastHeard(first, stall, steps, k) && 0 <= k < |init| && steps[k] == init[k])
  {
    hide Heard, Run;
    var steps := init + [last];
    if !Heard(first, stall, steps, |init|) {
      forall k | LastHeard(first, stall, init, k)
        ensures LastHeard(first, stall, steps, k) && 0 <= k < |init| && steps[k] == init[k]
      {
        HeardWithin(first, stall, init, k);
        HeardSnoc(first, stall, init, last, k);
        forall j | k < j < |steps| ensures !Heard(first, stall, steps, j) {
          HeardSnoc(first, stall, init, last, j);
        }
      }
    }
  }

  /** So while the call runs, the timer is set for the last sign heard plus that
      limit, or has gone off. */
  lemma DeadlineIs(first: int, stall: int, steps: seq<(Step, int)>)
    requires var w := Run(first, stall, steps); w.started && !w.ended && !w.stalled
    ensures var w := Run(first, stall, steps);
            var limit := if HasTalked(first, stall, steps) && stall > 0 then stall else first;
            if limit <= 0 then w.timer.None? && w.going == 0
            else
              && (w.timer.None? ==> w.going > 0)
              && (w.timer.Some? ==>
                    exists k :: LastHeard(first, stall, steps, k) && w.timer == Some(steps[k].1 + limit))
  {
    hide Run, LastHeard, HasTalked;
    AlwaysWatching(first, stall, steps);
    LimitIs(first, stall, steps);
  }

  /** In every run, a look gives up if and only if the response has been quiet
      for its limit. Otherwise, even when a sign of life came in as the timer
      went off, the timer is set again for the sign plus the limit. */
  lemma LookDecides(first: int, stall: int, steps: seq<(Step, int)>, now: int)
    requires var w := Run(first, stall, steps); w.started && !w.ended && !w.stalled && w.going > 0
    ensures var w, w' := Run(first, stall, steps), Run(first, stall, steps + [(Fire, now)]);
            && (w'.stalled <==> now - w.last >= Limit(w))
            && (!w'.stalled ==> w'.timer == Some(w.last + Limit(w)))
  {
    AlwaysWatching(first, stall, steps);
    RunOneMore(first, stall, steps, Fire, now);
  }

  /** Nothing arrives, and the clock does not go back. */
  ghost predicate Quiet(more: seq<(Step, int)>) {
    && (forall i :: 0 <= i < |more| ==> more[i].0 == GoOff || more[i].0 == Fire)
    && (forall i, j :: 0 <= i < j < |more| ==> more[i].1 <= more[j].1)
  }

  /** The timer went off past the deadline, at step i: a look is on its way, or
      has been taken and has given up. */
  predicate Caught(w: Watch, v: Watch) {
    v.last == w.last && Limit(v) == Limit(w) && v.started && !v.ended && (v.stalled || v.going > 0)
  }

  lemma QuietStep(w: Watch, v: Watch, s: Step, now: int)
    requires Inv(v) && v.last == w.last && Limit(v) == Limit(w) > 0 && v.started && !v.ended
    requires s == GoOff || s == Fire
    ensures var v' := Stepped(v, s, now);
            && v'.last == w.last && Limit(v') == Limit(w) && v'.started && !v'.ended && (v.stalled ==> v'.stalled)
            && (now >= w.last + Limit(w) ==>
                  (s == GoOff ==> Caught(w, v')) && (Caught(w, v) ==> Caught(w, v') && (s == Fire ==> v'.stalled)))
  {
  }

  lemma {:induction false} QuietRun(first: int, stall: int, steps: seq<(Step, int)>, more: seq<(Step, int)>, i: nat)
    requires var w := Run(first, stall, steps); w.started && !w.ended && Limit(w) > 0
    requires Quiet(more)
    ensures var w, v := Run(first, stall, steps), Run(first, stall, steps + more);
            && v.last == w.last && Limit(v) == Limit(w) && v.started && !v.ended
            && (i < |more| && more[i].0 == GoOff && more[i].1 >= w.last + Limit(w) ==> Caught(w, v))
    decreases |more|
  {
    hide Stepped, Run, Inv, Limit;
    var w := Run(first, stall, steps);
    if more == [] {
      assert steps + more == steps;
    } else {
      var init, last := more[..|more| - 1], more[|more| - 1];
      assert Quiet(init);
      QuietRun(first, stall, steps, init, i);
      AlwaysWatching(first, stall, steps + init);
      assert steps + more == (steps + init) + [last];
      RunOneMore(first, stall, steps + init, last.0, last.1);
      QuietStep(w, Run(first, stall, steps + init), last.0, last.1);
    }
  }

  /** A call that stays quiet is given up in every run: once the timer has gone
      off at its deadline or later, the next look gives up, whatever looks were
      pending from before. */
  lemma {:induction false} QuietCallsEnd(first: int, stall: int, steps: seq<(Step, int)>, more: seq<(Step, int)>,
                                         i: nat, j: nat)
    requires var w := Run(first, stall, steps);
             && w.started && !w.ended && Limit(w) > 0 && Quiet(more) && i < j < |more|
             && more[i].0 == GoOff && more[i].1 >= w.last + Limit(w) && more[j].0 == Fire
    ensures Run(first, stall, steps + more).stalled
    decreases |more|
  {
    hide Stepped, Run, Inv, Limit;
    var w := Run(first, stall, steps);
    var init, last := more[..|more| - 1], more[|more| - 1];
    assert Quiet(init);
    QuietRun(first, stall, steps, init, i);
    AlwaysWatching(first, stall, steps + init);
    assert steps + more == (steps + init) + [last];
    RunOneMore(first, stall, steps + init, last.0, last.1);
    if j < |init| {
      QuietCallsEnd(first, stall, steps, init, i, j);
    }
    QuietStep(w, Run(first, stall, steps + init), last.0, last.1);
  }

  // ---- The code ----

  class Watcher {
    const first: int
    const stall: int
    var output: bool
    var progress: bool
    var last: int
    var started: bool
    var ended: bool
    var stalled: bool
    var timer: Option<int>
    var going: nat
    var gaveUp: seq<(int, int)>

    function Value(): Watch
      reads this
    {
      Watch(first, stall, output, progress, last, started, ended, stalled, timer, going, gaveUp)
    }

    constructor (first: int, stall: int)
      ensures Value() == Fresh(first, stall)
    {
      this.first, this.stall := first, stall;
      output, progress, last, started, ended, stalled := false, false, 0, false, false, false;
      timer, going, gaveUp := None, 0, [];
    }

    method LimitLocked() returns (limit: int)
      ensures limit == Limit(Value())
    {
      if output || progress {
        if stall > 0 {
          return stall;
        }
      }
      return first;
    }

    method ArmLocked(now: int)
      modifies this`timer
      ensures Value() == Armed(old(Value()), now)
    {
      var limit := LimitLocked();
      if limit <= 0 || !started || ended || stalled {
        return;
      }
      timer := Some(now + limit);
    }

    method StartAt(now: int)
      requires !started
      modifies this
      ensures Value() == Begun(old(Value()), now)
    {
      last, started := now, true;
      ArmLocked(now);
    }

    method AliveAt(sign: Sign, now: int)
      modifies this
      ensures Value() == Signed(old(Value()), sign, now)
    {
      last := now;
      match sign {
        case Token => output := true;
        case Progress => progress := true;
        case _ =>
      }
      ArmLocked(now);
    }

    /** The timer's function, once it has the lock. */
    method FireAt(now: int)
      requires going > 0
      modifies this
      ensures Value() == Fired(old(Value()), now)
    {
      going := going - 1;
      var limit := LimitLocked();
      if limit <= 0 {
        return;
      }
      var idle := now - last;
      if idle < limit {
        timer := Some(now + (limit - idle));
        return;
      }
      if stalled {
        return;
      }
      stalled := true;
      gaveUp := gaveUp + [(now, idle)];
    }

    method FinishCall()
      modifies this`timer, this`ended
      ensures Value() == Finished(old(Value()))
    {
      timer, ended := None, true;
    }
  }
}
