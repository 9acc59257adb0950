/** Choosing where a compaction's summary ends. */
module Compact {
  import opened Events
  import opened Context

  /** A summary of all events up to number covered, with kept user messages
      after that. */
  datatype Cut = Cut(covered: int, kept: int)

  /** The loop's variables: the starts of user messages, of the last turn's
      model calls, and the last event seen. */
  datatype Starts = Starts(users: seq<int>, steps: seq<int>, last: int)

  function NextStarts(s: Starts, ev: Event, after: int): Starts {
    if ev.no <= after then s
    else if UserStart(ev.payload) then Starts(s.users + [ev.no], [], ev.no)
    else if ev.payload.MessageStarted? then Starts(s.users, s.steps + [ev.no], ev.no)
    else s.(last := ev.no)
  }

  function StartsOf(events: seq<Event>, after: int): Starts {
    if events == [] then Starts([], [], 0)
    else NextStarts(StartsOf(events[..|events| - 1], after), events[|events| - 1], after)
  }

  /** Keeping k turns or fewer, down to minKeep. */
  function FewerTurns(s: Starts, k: int, minKeep: int): Option<Cut>
    requires minKeep >= 0
    decreases k
  {
    if k < minKeep then None
    else if |s.users| > k then Some(if k == 0 then Cut(s.last, 0) else Cut(s.users[|s.users| - k] - 1, k))
    else FewerTurns(s, k - 1, minKeep)
  }

  function CutAmong(s: Starts, keep: int, minKeep: int, midTurn: bool): Option<Cut>
    requires keep >= 1 && minKeep >= 0
  {
    if |s.users| > keep then Some(Cut(s.users[|s.users| - keep] - 1, keep))
    else if midTurn && |s.steps| >= 2 then Some(Cut(s.steps[|s.steps| - 1] - 1, 1))
    else FewerTurns(s, keep - 1, minKeep)
  }

  function ChosenCut(events: seq<Event>, after: int, keep: int, minKeep: int, midTurn: bool): Option<Cut>
    requires keep >= 1 && minKeep >= 0
  {
    CutAmong(StartsOf(events, after), keep, minKeep, midTurn)
  }

  /** keep is at least 1 because the configuration is refused otherwise, and
      minKeep is 0 or 1 wherever the server calls this. */
  method ChooseCut(events: seq<Event>, after: int, keep: int, minKeep: int, midTurn: bool) returns (c: Option<Cut>)
    requires keep >= 1 && minKeep >= 0
    ensures c == ChosenCut(events, after, keep, minKeep, midTurn)
  {
    var users: seq<int>, steps: seq<int>, last := [], [], 0;
    var i := 0;
    while i < |events|
      invariant 0 <= i <= |events|
      invariant Starts(users, steps, last) == StartsOf(events[..i], after)
    {
      assert events[..i + 1][..i] == events[..i];
      var ev := events[i];
      i := i + 1;
      if ev.no <= after {
        continue;
      }
      last := ev.no;
      if ev.payload.MessageStarted? {
        if ev.payload.role == User {
          users, steps := users + [ev.no], [];
        } else {
          steps := steps + [ev.no];
        }
      }
    }
    assert events[..i] == events;
    if |users| > keep {
      return Some(Cut(users[|users| - keep] - 1, keep));
    }
    if midTurn && |steps| >= 2 {
      return Some(Cut(steps[|steps| - 1] - 1, 1));
    }
    var k := keep - 1;
    while k >= minKeep
      invariant FewerTurns(Starts(users, steps, last), k, minKeep) ==
                FewerTurns(Starts(users, steps, last), keep - 1, minKeep)
    {
      if |users| > k {
        if k == 0 {
          return Some(Cut(last, 0));
        }
        return Some(Cut(users[|users| - k] - 1, k));
      }
      k := k - 1;
    }
    return None;
  }

  // ---- What a cut promises ----

  ghost predicate StartsAt(events: seq<Event>, no: int) {
    exists i :: 0 <= i < |events| && events[i].no == no && events[i].payload.MessageStarted?
  }

  ghost predicate UserStartsAt(events: seq<Event>, no: int) {
    exists i :: 0 <= i < |events| && events[i].no == no && UserStart(events[i].payload)
  }

  /** A reply starts at number no, with no user message after it. */
  ghost predicate StepStartsAt(events: seq<Event>, no: int) {
    exists i :: 0 <= i < |events| && events[i].no == no && LastStep(events, i)
  }

  ghost predicate LastStep(events: seq<Event>, i: nat)
    requires i < |events|
  {
    && events[i].payload.MessageStarted? && !UserStart(events[i].payload)
    && forall j :: i < j < |events| ==> !UserStart(events[j].payload)
  }

  ghost predicate Sorted(s: seq<int>) {
    forall i, j :: 0 <= i < j < |s| ==> s[i] < s[j]
  }

  /** What the loop has found: all of it after the previous summary, in
      order, the steps after the last user message. */
  ghost predicate Found(s: Starts, events: seq<Event>, after: int) {
    && Ordered(s, after)
    && (forall i :: 0 <= i < |s.users| ==> UserStartsAt(events, s.users[i]))
    && (forall i :: 0 <= i < |s.steps| ==> StartsAt(events, s.steps[i]))
    && (forall no :: UserStartsAt(events, no) && no > after ==> no in s.users)
    && (forall no :: no in s.steps <==> StepStartsAt(events, no) && no > after)
    && (if events != [] && events[|events| - 1].no > after then s.last == events[|events| - 1].no
        else s == Starts([], [], 0))
  }

  ghost predicate Ordered(s: Starts, after: int) {
    && Sorted(s.users) && Sorted(s.steps)
    && Between(s.users, after, s.last) && Between(s.steps, after, s.last)
    && (forall i, j :: 0 <= i < |s.users| && 0 <= j < |s.steps| ==> s.users[i] < s.steps[j])
  }

  lemma StartsSnoc(events: seq<Event>, no: int)
    requires events != []
    ensures var ev := events[|events| - 1]; var init := events[..|events| - 1];
            && (StartsAt(events, no) <==> StartsAt(init, no) || (ev.no == no && ev.payload.MessageStarted?))
            && (UserStartsAt(events, no) <==> UserStartsAt(init, no) || (ev.no == no && UserStart(ev.payload)))
  {
    var init := events[..|events| - 1];
    if StartsAt(init, no) {
      var i :| 0 <= i < |init| && init[i].no == no && init[i].payload.MessageStarted?;
      assert events[i] == init[i];
    }
    if UserStartsAt(init, no) {
      var i :| 0 <= i < |init| && init[i].no == no && UserStart(init[i].payload);
      assert events[i] == init[i];
    }
    if StartsAt(events, no) {
      var i :| 0 <= i < |events| && events[i].no == no && events[i].payload.MessageStarted?;
      assert i < |init| ==> init[i] == events[i];
    }
    if UserStartsAt(events, no) {
      var i :| 0 <= i < |events| && events[i].no == no && UserStart(events[i].payload);
      assert i < |init| ==> init[i] == events[i];
    }
  }

  lemma StepsSnoc(events: seq<Event>, no: int)
    requires events != []
    ensures var ev := events[|events| - 1]; var init := events[..|events| - 1];
            StepStartsAt(events, no) <==>
              (StepStartsAt(init, no) && !UserStart(ev.payload)) ||
              (ev.no == no && ev.payload.MessageStarted? && !UserStart(ev.payload))
  {
    var n := |events| - 1;
    var init := events[..n];
    if StepStartsAt(init, no) && !UserStart(events[n].payload) {
      var i :| 0 <= i < |init| && init[i].no == no && LastStep(init, i);
      forall j | i < j < |events| ensures !UserStart(events[j].payload) {
        assert j < n ==> events[j] == init[j];
      }
      assert events[i] == init[i] && LastStep(events, i);
    }
    if events[n].no == no && events[n].payload.MessageStarted? && !UserStart(events[n].payload) {
      assert LastStep(events, n);
    }
    if StepStartsAt(events, no) {
      var i :| 0 <= i < |events| && events[i].no == no && LastStep(events, i);
      if i < n {
        forall j | i < j < n ensures !UserStart(init[j].payload) {
          assert init[j] == events[j];
        }
        assert init[i] == events[i] && LastStep(init, i);
      }
    }
  }

  lemma SortedSnoc(s: seq<int>, x: int)
    requires Sorted(s) && forall i :: 0 <= i < |s| ==> s[i] < x
    ensures Sorted(s + [x])
  {
  }

  /** s lies after after, up to last. */
  ghost predicate Between(s: seq<int>, after: int, last: int) {
    forall i :: 0 <= i < |s| ==> after < s[i] <= last
  }

  lemma BetweenNext(s: seq<int>, after: int, last: int, x: int)
    requires Between(s, after, last) && after < x && (s != [] ==> last < x)
    ensures Between(s, after, x) && Between(s + [x], after, x) && forall i :: 0 <= i < |s| ==> s[i] < x
  {
  }

  lemma OrderedNext(s: Starts, ev: Event, after: int)
    requires Ordered(s, after) && (s.last < ev.no || s == Starts([], [], 0))
    ensures Ordered(NextStarts(s, ev, after), after)
  {
    if ev.no > after {
      hide Sorted;
      BetweenNext(s.users, after, s.last, ev.no);
      BetweenNext(s.steps, after, s.last, ev.no);
      SortedSnoc(s.users, ev.no);
      SortedSnoc(s.steps, ev.no);
      SortedNone();
    }
  }

  lemma SortedNone()
    ensures Sorted([])
  {
  }

  lemma {:induction false} LoopFinds(events: seq<Event>, after: int)
    requires Increasing(events)
    ensures Found(StartsOf(events, after), events, after)
  {
    if events != [] {
      var init, ev := events[..|events| - 1], events[|events| - 1];
      LoopFinds(init, after);
      var s, s' := StartsOf(init, after), StartsOf(events, after);
      assert init != [] ==> init[|init| - 1].no < ev.no;
      OrderedNext(s, ev, after);
      FoundNext(events, s, after);
    }
  }

  lemma FoundNext(events: seq<Event>, s: Starts, after: int)
    requires events != [] && Increasing(events) && Found(s, events[..|events| - 1], after)
    requires Ordered(NextStarts(s, events[|events| - 1], after), after)
    ensures Found(NextStarts(s, events[|events| - 1], after), events, after)
  {
    var init, ev := events[..|events| - 1], events[|events| - 1];
    var s' := NextStarts(s, ev, after);
    forall no | UserStartsAt(events, no) && no > after ensures no in s'.users {
      StartsSnoc(events, no);
      if UserStartsAt(init, no) {
        assert ev.no > after by {
          var i :| 0 <= i < |init| && init[i].no == no && UserStart(init[i].payload);
          assert events[i] == init[i];
        }
      }
    }
    forall i | 0 <= i < |s'.users| ensures UserStartsAt(events, s'.users[i]) {
      StartsSnoc(events, s'.users[i]);
    }
    forall i | 0 <= i < |s'.steps| ensures StartsAt(events, s'.steps[i]) {
      StartsSnoc(events, s'.steps[i]);
    }
    StepsNext(events, s, after);
  }

  lemma StepsNext(events: seq<Event>, s: Starts, after: int)
    requires events != [] && Increasing(events) && Found(s, events[..|events| - 1], after)
    ensures var s' := NextStarts(s, events[|events| - 1], after);
            forall no :: no in s'.steps <==> StepStartsAt(events, no) && no > after
  {
    hide StepStartsAt, StartsAt, UserStartsAt, Ordered;
    var init, ev := events[..|events| - 1], events[|events| - 1];
    var s' := NextStarts(s, ev, after);
    forall no ensures no in s'.steps <==> StepStartsAt(events, no) && no > after {
      StepsSnoc(events, no);
      StepStarts(init, no);
      if ev.no <= after && StepStartsAt(init, no) {
        StartsBefore(events, no);
      }
    }
  }

  lemma StepStarts(events: seq<Event>, no: int)
    ensures StepStartsAt(events, no) ==> StartsAt(events, no)
  {
  }

  lemma StartsBefore(events: seq<Event>, no: int)
    requires events != [] && Increasing(events) && StartsAt(events[..|events| - 1], no)
    ensures no < events[|events| - 1].no
  {
    var init := events[..|events| - 1];
    var i :| 0 <= i < |init| && init[i].no == no && init[i].payload.MessageStarted?;
    assert events[i] == init[i];
  }

  /** Every cut makes progress, lies directly before a message start or after
      the last event, and the latter only when no turn need be kept. */
  lemma CutsMakeProgress(events: seq<Event>, after: int, keep: int, minKeep: int, midTurn: bool)
    requires Increasing(events) && keep >= 1 && minKeep >= 0
    requires ChosenCut(events, after, keep, minKeep, midTurn).Some?
    ensures var c := ChosenCut(events, after, keep, minKeep, midTurn).value;
            && events != [] && after < c.covered <= events[|events| - 1].no
            && (StartsAt(events, c.covered + 1) || (minKeep == 0 && c.covered == events[|events| - 1].no))
  {
    hide UserStartsAt, StepStartsAt, StartsAt, FewerTurns;
    LoopFinds(events, after);
    var s := StartsOf(events, after);
    FewerTurnsFound(events, s, after, keep - 1, minKeep);
    var c := ChosenCut(events, after, keep, minKeep, midTurn).value;
    if |s.users| > keep {
      assert s.users[0] < s.users[|s.users| - keep];
      UserStarts(events, s.users[|s.users| - keep]);
    } else if midTurn && |s.steps| >= 2 {
      assert s.steps[0] < s.steps[|s.steps| - 1] && StartsAt(events, s.steps[|s.steps| - 1]);
    } else if c.kept > 0 {
      UserStarts(events, s.users[|s.users| - c.kept]);
    }
  }

  /** Every cut covers the start of a message no summary covered before. */
  lemma CutsCoverAMessage(events: seq<Event>, after: int, keep: int, minKeep: int, midTurn: bool)
    requires Increasing(events) && keep >= 1 && minKeep >= 0
    requires ChosenCut(events, after, keep, minKeep, midTurn).Some?
    ensures exists no ::
              after < no <= ChosenCut(events, after, keep, minKeep, midTurn).value.covered && StartsAt(events, no)
  {
    hide StartsAt, UserStartsAt;
    LoopFinds(events, after);
    var s := StartsOf(events, after);
    FewerTurnsFound(events, s, after, keep - 1, minKeep);
    if |s.users| > keep || !(midTurn && |s.steps| >= 2) {
      UserStarts(events, s.users[0]);
      assert StartsAt(events, s.users[0]);
    } else {
      assert s.steps[0] < s.steps[|s.steps| - 1] && StartsAt(events, s.steps[0]);
    }
  }

  lemma UserStarts(events: seq<Event>, no: int)
    requires UserStartsAt(events, no)
    ensures StartsAt(events, no)
  {
  }

  lemma {:induction false} FewerTurnsFound(events: seq<Event>, s: Starts, after: int, k: int, minKeep: int)
    requires Found(s, events, after) && minKeep >= 0
    ensures var c := FewerTurns(s, k, minKeep);
            && (c.Some? ==>
                  && after < c.value.covered <= s.last && minKeep <= c.value.kept <= k
                  && c.value.kept < |s.users|
                  && (c.value.kept > 0 ==> c.value.covered + 1 == s.users[|s.users| - c.value.kept])
                  && (c.value.kept == 0 ==> c.value.covered == s.last))
            && (c.Some? <==> minKeep <= k && |s.users| > minKeep)
    decreases k
  {
    if k >= minKeep {
      if |s.users| <= k {
        FewerTurnsFound(events, s, after, k - 1, minKeep);
      } else if k > 0 {
        assert s.users[0] < s.users[|s.users| - k];
      } else {
        assert s.users[0] > after;
      }
    }
  }

  // ---- How many turns stay ----

  /** The numbers of the user messages started past number no: its turns. */
  ghost function Turns(events: seq<Event>, no: int): set<int> {
    set i | 0 <= i < |events| && UserStart(events[i].payload) && events[i].no > no :: events[i].no
  }

  /** The numbers of the replies started past number no with no user message
      after them: the last turn's steps. */
  ghost function Steps(events: seq<Event>, no: int): set<int> {
    set i | 0 <= i < |events| && LastStep(events, i) && events[i].no > no :: events[i].no
  }

  lemma TurnsAre(events: seq<Event>, no: int, x: int)
    ensures x in Turns(events, no) <==> UserStartsAt(events, x) && x > no
    ensures x in Steps(events, no) <==> StepStartsAt(events, x) && x > no
  {
  }

  ghost function Members(s: seq<int>): set<int> {
    set x | x in s
  }

  lemma {:induction false} SortedSize(s: seq<int>)
    requires Sorted(s)
    ensures |Members(s)| == |s|
  {
    if s != [] {
      var init, last := s[..|s| - 1], s[|s| - 1];
      SortedSize(init);
      assert s == init + [last];
      assert Members(s) == Members(init) + {last};
    }
  }

  lemma SortedTail(s: seq<int>, k: nat, x: int)
    requires Sorted(s) && k <= |s|
    ensures Sorted(s[k..]) && (x in s[k..] <==> x in s && (k < |s| && x >= s[k]))
  {
    if x in s && k < |s| && x >= s[k] {
      var i :| 0 <= i < |s| && s[i] == x;
      assert s[k..][i - k] == x;
    }
  }

  /** Past the k-th turn from the end there are k. */
  lemma TurnsFound(events: seq<Event>, after: int, no: int, k: nat)
    requires Increasing(events) && no >= after
    requires var users := StartsOf(events, after).users;
             k <= |users| && (if k < |users| then no >= users[|users| - k - 1] else no == after)
    requires var users := StartsOf(events, after).users; k > 0 ==> no < users[|users| - k]
    ensures |Turns(events, no)| == k
  {
    hide UserStartsAt, StepStartsAt, StartsAt;
    LoopFinds(events, after);
    var users := StartsOf(events, after).users;
    var tail := users[|users| - k..];
    forall x ensures x in Turns(events, no) <==> x in tail {
      TurnsAre(events, no, x);
      SortedTail(users, |users| - k, x);
      if x in users && x > no && k < |users| {
        var i :| 0 <= i < |users| && users[i] == x;
        assert i > |users| - k - 1;
      }
    }
    assert Turns(events, no) == Members(tail);
    SortedTail(users, |users| - k, 0);
    SortedSize(tail);
  }

  lemma StepsFound(events: seq<Event>, after: int)
    requires Increasing(events)
    ensures |Steps(events, after)| == |StartsOf(events, after).steps|
    ensures |Turns(events, after)| == |StartsOf(events, after).users|
  {
    hide UserStartsAt, StepStartsAt, StartsAt;
    LoopFinds(events, after);
    var s := StartsOf(events, after);
    forall x ensures x in Steps(events, after) <==> x in s.steps {
      TurnsAre(events, after, x);
    }
    assert Steps(events, after) == Members(s.steps);
    SortedSize(s.steps);
    TurnsFound(events, after, after, |s.users|);
  }

  /** How many turns a cut leaves: as many as are to be kept if there are more,
      and otherwise all but the first, unless it goes inside the last turn. Then
      only that turn's last step is left of it. */
  lemma CutKeepsTurns(events: seq<Event>, after: int, keep: int, minKeep: int, midTurn: bool)
    requires Increasing(events) && keep >= 1 && minKeep >= 0
    requires ChosenCut(events, after, keep, minKeep, midTurn).Some?
    ensures var c, turns := ChosenCut(events, after, keep, minKeep, midTurn).value, |Turns(events, after)|;
            var left := |Turns(events, c.covered)|;
            if turns > keep then c.kept == keep == left
            else if midTurn && |Steps(events, after)| >= 2
            then c.kept == 1 && left == 0 && Steps(events, c.covered) == {c.covered + 1}
            else c.kept == left == turns - 1
  {
    hide UserStartsAt, StepStartsAt, StartsAt, Turns, Steps, FewerTurns;
    LoopFinds(events, after);
    StepsFound(events, after);
    var s, c := StartsOf(events, after), ChosenCut(events, after, keep, minKeep, midTurn).value;
    if |s.users| > keep {
      assert s.users[|s.users| - keep - 1] < s.users[|s.users| - keep];
      TurnsFound(events, after, c.covered, keep);
    } else if midTurn && |s.steps| >= 2 {
      LastStepLeft(events, after, c.covered);
    } else {
      FewerTurnsLeft(events, after, keep - 1, minKeep);
    }
  }

  lemma FewerTurnsLeft(events: seq<Event>, after: int, k: int, minKeep: int)
    requires Increasing(events) && minKeep >= 0
    requires var s := StartsOf(events, after); |s.users| - 1 <= k && FewerTurns(s, k, minKeep).Some?
    ensures var s := StartsOf(events, after); var c := FewerTurns(s, k, minKeep).value;
            c.kept == |Turns(events, c.covered)| == |s.users| - 1
  {
    hide UserStartsAt, StepStartsAt, StartsAt, Turns;
    LoopFinds(events, after);
    var s := StartsOf(events, after);
    FewerTurnsMost(events, s, after, k, minKeep);
    var c := FewerTurns(s, k, minKeep).value;
    if c.kept > 0 {
      assert s.users[|s.users| - c.kept - 1] < s.users[|s.users| - c.kept];
    }
    TurnsFound(events, after, c.covered, c.kept);
  }

  lemma LastStepLeft(events: seq<Event>, after: int, covered: int)
    requires Increasing(events)
    requires var s := StartsOf(events, after); |s.steps| >= 2 && covered == s.steps[|s.steps| - 1] - 1
    ensures |Turns(events, covered)| == 0 && Steps(events, covered) == {covered + 1}
  {
    hide UserStartsAt, StepStartsAt, StartsAt;
    LoopFinds(events, after);
    var s := StartsOf(events, after);
    var last := s.steps[|s.steps| - 1];
    assert s.steps[0] < last;
    forall x ensures x in Steps(events, covered) <==> x == last {
      TurnsAre(events, after, x);
      TurnsAre(events, covered, x);
      assert last in s.steps;
    }
    forall x ensures x !in Turns(events, covered) {
      TurnsAre(events, covered, x);
    }
    assert Turns(events, covered) == {};
  }

  /** The most turns that still leave something to cover. */
  lemma {:induction false} FewerTurnsMost(events: seq<Event>, s: Starts, after: int, k: int, minKeep: int)
    requires Found(s, events, after) && minKeep >= 0 && FewerTurns(s, k, minKeep).Some?
    ensures var c := FewerTurns(s, k, minKeep).value;
            && 0 <= c.kept == (if |s.users| - 1 < k then |s.users| - 1 else k)
            && (if c.kept > 0 then c.covered == s.users[|s.users| - c.kept] - 1 else c.covered == s.last)
    decreases k
  {
    if |s.users| <= k {
      FewerTurnsMost(events, s, after, k - 1, minKeep);
    }
  }

  /** When nothing is chosen: there are no more turns than must be kept, and
      the running turn has no step to cut before. */
  lemma NothingToSummarize(events: seq<Event>, after: int, keep: int, minKeep: int, midTurn: bool)
    requires Increasing(events) && keep >= 1 && minKeep >= 0
    ensures ChosenCut(events, after, keep, minKeep, midTurn).None? <==>
            |Turns(events, after)| <= (if minKeep < keep then minKeep else keep) &&
            !(midTurn && |Steps(events, after)| >= 2)
  {
    hide UserStartsAt, StepStartsAt, StartsAt;
    LoopFinds(events, after);
    StepsFound(events, after);
    FewerTurnsFound(events, StartsOf(events, after), after, keep - 1, minKeep);
  }

  // ---- The request survives the cut ----

  ghost predicate LatestUser(events: seq<Event>, i: int) {
    && 0 <= i < |events| && UserStart(events[i].payload) && events[i].payload.messageId != Empty
    && forall j :: i < j < |events| ==> !UserStart(events[j].payload)
  }

  lemma {:induction false} FirstRoleFound(events: seq<Event>)
    requires FirstRole(events).Some?
    ensures exists i ::
              0 <= i < |events| && events[i].payload.MessageStarted? &&
              events[i].payload.role == FirstRole(events).value
  {
    if !events[0].payload.MessageStarted? {
      FirstRoleFound(events[1..]);
      var i :| 0 <= i < |events[1..]| && events[1..][i].payload.MessageStarted? &&
               events[1..][i].payload.role == FirstRole(events).value;
      assert events[i + 1] == events[1..][i];
    }
  }

  lemma {:induction false} FirstRoleExists(events: seq<Event>, i: nat)
    requires i < |events| && events[i].payload.MessageStarted?
    ensures FirstRole(events).Some?
  {
    if i > 0 && !events[0].payload.MessageStarted? {
      FirstRoleExists(events[1..], i - 1);
    }
  }

  lemma {:induction false} LastUserIs(events: seq<Event>, i: nat)
    requires i < |events| && UserStart(events[i].payload)
    requires forall j :: i < j < |events| ==> !UserStart(events[j].payload)
    ensures LastUser(events) == events[i].payload.messageId
  {
    if i < |events| - 1 {
      LastUserIs(events[..|events| - 1], i);
    }
  }

  /** As long as some message starts after the cut, the model still sees the
      latest request, whole, and every event after the cut. */
  lemma LatestRequestKept(events: seq<Event>, c: Compaction, i: nat, j: nat)
    requires Increasing(events) && FirstRole(After(events, c.coveredSeq)).Some?
    requires LatestUser(events, i) && i <= j < |events| && OfMessage(events[j].payload, events[i].payload.messageId)
    ensures events[j] in ContextEvents(events, Some(c))
  {
    hide ContextEvents, FirstRole, Covering;
    var n := Covering(events, c.coveredSeq);
    if j >= n {
      LaterEventShown(events, c, j);
    } else {
      KeptRole(events, c, i);
      OlderRequestKept(events, c, n, i, j);
    }
  }

  lemma LaterEventShown(events: seq<Event>, c: Compaction, j: nat)
    requires Covering(events, c.coveredSeq) <= j < |events|
    ensures events[j] in ContextEvents(events, Some(c))
  {
    hide ContextEvents, Covering;
    KeptIsShown(events, c);
    SuffixMember(ContextEvents(events, Some(c)), events, Covering(events, c.coveredSeq), j);
  }

  lemma SuffixMember(shown: seq<Event>, events: seq<Event>, n: nat, j: nat)
    requires n <= j < |events| && |events| - n <= |shown| && shown[|shown| - (|events| - n)..] == events[n..]
    ensures events[j] in shown
  {
    assert events[n..][j - n] == events[j];
    assert shown[|shown| - (|events| - n)..][j - n] == shown[|shown| - (|events| - n) + (j - n)];
  }

  /** No user message starts after the latest. */
  lemma KeptRole(events: seq<Event>, c: Compaction, i: nat)
    requires LatestUser(events, i) && i < Covering(events, c.coveredSeq)
    requires FirstRole(After(events, c.coveredSeq)).Some?
    ensures FirstRole(After(events, c.coveredSeq)).value != User
  {
    var n, kept := Covering(events, c.coveredSeq), After(events, c.coveredSeq);
    FirstRoleFound(kept);
    hide FirstRole, Covering;
    var k :| 0 <= k < |kept| && kept[k].payload.MessageStarted? && kept[k].payload.role == FirstRole(kept).value;
    assert events[n + k] == kept[k];
  }

  lemma OlderRequestKept(events: seq<Event>, c: Compaction, n: nat, i: nat, j: nat)
    requires n == Covering(events, c.coveredSeq) && i <= j < n
    requires LatestUser(events, i) && OfMessage(events[j].payload, events[i].payload.messageId)
    requires FirstRole(After(events, c.coveredSeq)).Some? && FirstRole(After(events, c.coveredSeq)).value != User
    ensures events[j] in ContextEvents(events, Some(c))
  {
    var older := UpTo(events, c.coveredSeq);
    assert older[i] == events[i] && older[j] == events[j];
    LastUserIs(older, i);
    MessageEventsHas(older, LastUser(older), j);
  }

  lemma KeptIsShown(events: seq<Event>, c: Compaction)
    ensures var n := Covering(events, c.coveredSeq); var shown := ContextEvents(events, Some(c));
            |events| - n <= |shown| && shown[|shown| - (|events| - n)..] == events[n..]
  {
  }

  /** The first message past number no is a reply. */
  ghost predicate CutInside(events: seq<Event>, no: int) {
    exists i: nat :: FirstMessage(events, no, i) && !FirstFromUser(events, i)
  }

  /** Which of the events a summary covers are shown again: those of the last
      request, and those only if the cut falls inside its turn. */
  lemma {:induction false} OldShownExactly(events: seq<Event>, c: Compaction, ev: Event, k: nat)
    requires Increasing(events) && ev in events && ev.no <= c.coveredSeq
    requires LastRequest(events, c.coveredSeq, k) && events[k].payload.messageId != Empty
    ensures ev in ContextEvents(events, Some(c)) <==>
            CutInside(events, c.coveredSeq) && OfMessage(ev.payload, events[k].payload.messageId)
  {
    hide ContextEvents, FirstMessage;
    if ev in ContextEvents(events, Some(c)) {
      OldShownOnlyInside(events, c, ev);
      var l: nat :| LastRequest(events, c.coveredSeq, l) && OfMessage(ev.payload, events[l].payload.messageId);
      OneLastRequest(events, c.coveredSeq, k, l);
    }
    if CutInside(events, c.coveredSeq) && OfMessage(ev.payload, events[k].payload.messageId) {
      var i: nat :| FirstMessage(events, c.coveredSeq, i) && !FirstFromUser(events, i);
      FirstRolePast(events, c.coveredSeq, i);
      FirstIsMessage(events, c.coveredSeq, i);
      RequestShown(events, c, ev, k);
    }
  }

  lemma OneLastRequest(events: seq<Event>, no: int, k: nat, l: nat)
    requires LastRequest(events, no, k) && LastRequest(events, no, l)
    ensures k == l
  {
  }

  lemma RequestShown(events: seq<Event>, c: Compaction, ev: Event, k: nat)
    requires Increasing(events) && ev in events && ev.no <= c.coveredSeq
    requires LastRequest(events, c.coveredSeq, k) && events[k].payload.messageId != Empty
    requires OfMessage(ev.payload, events[k].payload.messageId)
    requires FirstRole(After(events, c.coveredSeq)).Some? && FirstRole(After(events, c.coveredSeq)).value != User
    ensures ev in ContextEvents(events, Some(c))
  {
    hide FirstRole, LastUser, MessageEvents;
    AfterIs(events, c.coveredSeq);
    var older := UpTo(events, c.coveredSeq);
    LastUserIs(older, k);
    var j :| 0 <= j < |events| && events[j] == ev;
    assert older[j] == ev;
    MessageEventsHas(older, LastUser(older), j);
  }

  /** Whatever happens later, a cut that must keep a turn keeps the latest
      request. */
  lemma CutKeepsRequest(events: seq<Event>, later: seq<Event>, after: int, keep: int, minKeep: int, midTurn: bool,
                        c: Compaction, i: nat, j: nat)
    requires Increasing(events + later) && keep >= 1 && minKeep >= 1
    requires ChosenCut(events, after, keep, minKeep, midTurn) == Some(Cut(c.coveredSeq, c.keptTurns))
    requires var all := events + later;
             LatestUser(all, i) && i <= j < |all| && OfMessage(all[j].payload, all[i].payload.messageId)
    ensures (events + later)[j] in ContextEvents(events + later, Some(c))
  {
    var all := events + later;
    assert Increasing(events) by {
      forall a, b | 0 <= a < b < |events| ensures events[a].no < events[b].no {
        assert all[a] == events[a] && all[b] == events[b];
      }
    }
    CutsMakeProgress(events, after, keep, minKeep, midTurn);
    var k :| 0 <= k < |events| && events[k].no == c.coveredSeq + 1 && events[k].payload.MessageStarted?;
    assert all[k] == events[k];
    var n := Covering(all, c.coveredSeq);
    assert n <= k;
    assert After(all, c.coveredSeq)[k - n] == all[k];
    FirstRoleExists(After(all, c.coveredSeq), k - n);
    LatestRequestKept(all, c, i, j);
  }
}
