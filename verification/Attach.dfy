/** Clients following a session's log: replay from the store, then drain a
    bounded subscription, dropped when they are too slow. The appender and any
    number of readers take steps in any order. */
module Attach {
  import opened Events

  const SUBSCRIBER_BUFFER := 4096
  const REPLAY_PAGE := 1000

  /** Where an attached client's loop is. Stopped(at) is a client told to
      attach again from seq at; Gone is one that left, or could not be sent
      to. */
  datatype Phase = Replaying | Following | Stopped(at: int) | Gone

  /** A client's loop variables, its subscription (channel, dropped), and what
      it has been sent. head counts the events logged before those in the
      channel. */
  datatype Reader = Reader(from: int, last: int, next: int, page: seq<Event>, channel: seq<Event>, dropped: bool,
                           phase: Phase, sent: seq<Event>, head: int)

  datatype System = System(log: seq<Event>, readers: seq<Reader>)

  datatype Step =
    | Append(branch: Id, payload: Payload)
    | Subscribe(fromSeq: int)
    | ReadPage(r: nat)
    | SendPage(r: nat)
    | Follow(r: nat)
    | Receive(r: nat)
    | Drop(r: nat)
    | Leave(r: nat)

  function Max(a: int, b: int): int {
    if a < b then b else a
  }

  function Min(a: int, b: int): int {
    if a < b then a else b
  }

  /** The store's events numbered from a to b. */
  function Stored(log: seq<Event>, a: int, b: int): seq<Event>
    requires a >= 1
  {
    var end := Min(b, |log|);
    if a <= end then log[a - 1..end] else []
  }

  // ---- The steps ----

  function Publish(r: Reader, ev: Event): Reader {
    if r.dropped || r.phase.Stopped? || r.phase.Gone? then r
    else if |r.channel| < SUBSCRIBER_BUFFER then r.(channel := r.channel + [ev])
    else r.(dropped := true)
  }

  function Attached(log: seq<Event>, fromSeq: int): Reader {
    var from := Max(fromSeq, 1);
    Reader(from, |log|, from, [], [], false, Replaying, [], |log|)
  }

  function PageRead(r: Reader, log: seq<Event>): Reader {
    if !r.phase.Replaying? || r.page != [] || r.next > r.last || r.next < 1 then r
    else
      var evs := Stored(log, r.next, Min(r.last, r.next + REPLAY_PAGE - 1));
      if evs == [] then r.(phase := Following) else r.(page := evs)
  }

  function PageSent(r: Reader): Reader {
    if !r.phase.Replaying? || r.page == [] then r
    else r.(sent := r.sent + [r.page[0]], next := r.page[0].no + 1, page := r.page[1..])
  }

  function Followed(r: Reader): Reader {
    if r.phase.Replaying? && r.page == [] && r.next > r.last then r.(phase := Following) else r
  }

  function Received(r: Reader): Reader {
    if !r.phase.Following? || r.channel == [] then r
    else
      var ev := r.channel[0];
      var r1 := r.(channel := r.channel[1..], head := r.head + 1);
      if ev.no < r.next then r1 else r1.(sent := r.sent + [ev], next := ev.no + 1)
  }

  /** A closed channel is drained before the client is told. */
  function Dropped(r: Reader): Reader {
    if r.phase.Following? && r.channel == [] && r.dropped then r.(phase := Stopped(r.next)) else r
  }

  function Left(r: Reader): Reader {
    if r.phase.Stopped? then r else r.(phase := Gone)
  }

  /** What a reader's own step makes of it. */
  function Stepped(r: Reader, log: seq<Event>, step: Step): Reader {
    match step
    case ReadPage(_) => PageRead(r, log)
    case SendPage(_) => PageSent(r)
    case Follow(_) => Followed(r)
    case Receive(_) => Received(r)
    case Drop(_) => Dropped(r)
    case Leave(_) => Left(r)
    case _ => r
  }

  function Next(sys: System, step: Step): System {
    match step
    case Append(branch, payload) =>
      var ev := Event(|sys.log| + 1, branch, payload);
      System(sys.log + [ev], seq(|sys.readers|, i requires 0 <= i < |sys.readers| => Publish(sys.readers[i], ev)))
    case Subscribe(fromSeq) => sys.(readers := sys.readers + [Attached(sys.log, fromSeq)])
    case _ =>
      if step.r < |sys.readers| then
        sys.(readers := sys.readers[step.r := Stepped(sys.readers[step.r], sys.log, step)])
      else sys
  }

  function Run(steps: seq<Step>): System {
    if steps == [] then System([], []) else Next(Run(steps[..|steps| - 1]), steps[|steps| - 1])
  }

  // ---- The invariant ----

  /** The events a client attached from a has been sent when b is next. */
  function Delivered(log: seq<Event>, a: int, b: int): seq<Event>
    requires a >= 1
  {
    Stored(log, a, b - 1)
  }

  ghost predicate InStep(r: Reader, log: seq<Event>) {
    && 1 <= r.from <= r.next && (r.next > r.from ==> r.next <= |log| + 1)
    && r.sent == Delivered(log, r.from, r.next)
    && 0 <= r.last <= r.head && r.head + |r.channel| <= |log|
    && r.channel == log[r.head..r.head + |r.channel|]
    && (!r.dropped && !r.phase.Stopped? && !r.phase.Gone? ==> r.head + |r.channel| == |log|)
    && |r.channel| <= SUBSCRIBER_BUFFER
    && (r.phase.Replaying? ==> Paging(r, log))
    && (r.phase.Following? ==> r.next == Max(r.from, r.head + 1))
    && (r.phase.Stopped? ==> r.phase.at == r.next)
  }

  /** While it replays: the page in hand is the next stretch of the log, and
      the channel starts where the replay ends. */
  ghost predicate Paging(r: Reader, log: seq<Event>)
    requires r.next >= 1
  {
    && r.head == r.last && (r.next > r.from ==> r.next <= r.last + 1)
    && (r.page != [] ==> r.next + |r.page| <= r.last + 1)
    && r.page == Delivered(log, r.next, r.next + |r.page|)
  }

  ghost predicate Inv(sys: System) {
    Numbered(sys.log) && forall i :: 0 <= i < |sys.readers| ==> InStep(sys.readers[i], sys.log)
  }

  lemma DeliveredMore(log: seq<Event>, ev: Event, a: int, b: int)
    requires a >= 1 && b <= |log| + 1
    ensures Delivered(log + [ev], a, b) == Delivered(log, a, b)
  {
  }

  lemma PublishKeepsSent(r: Reader, log: seq<Event>, ev: Event)
    requires InStep(r, log)
    ensures r.sent == Delivered(log + [ev], r.from, r.next)
    ensures r.phase.Replaying? ==> Paging(r, log + [ev])
  {
    if r.next <= |log| + 1 {
      DeliveredMore(log, ev, r.from, r.next);
    }
    if r.phase.Replaying? && r.page != [] {
      DeliveredMore(log, ev, r.next, r.next + |r.page|);
    }
  }

  lemma ChannelGrows(log: seq<Event>, ev: Event, head: nat, channel: seq<Event>)
    requires head + |channel| <= |log| && channel == log[head..head + |channel|]
    ensures channel == (log + [ev])[head..head + |channel|]
    ensures head + |channel| == |log| ==> channel + [ev] == (log + [ev])[head..head + |channel| + 1]
  {
  }

  lemma PublishInStep(r: Reader, log: seq<Event>, ev: Event)
    requires InStep(r, log) && ev.no == |log| + 1
    ensures InStep(Publish(r, ev), log + [ev])
  {
    PublishKeepsSent(r, log, ev);
    hide Delivered, Stored;
    ChannelGrows(log, ev, r.head, r.channel);
  }

  lemma AttachedInStep(log: seq<Event>, fromSeq: int)
    ensures InStep(Attached(log, fromSeq), log)
  {
  }

  lemma PageReadInStep(r: Reader, log: seq<Event>)
    requires InStep(r, log)
    ensures InStep(PageRead(r, log), log)
  {
  }

  /** Sending the next event of the log moves on by one. */
  lemma DeliveredOneMore(log: seq<Event>, a: int, b: int)
    requires 1 <= a <= b <= |log|
    ensures Delivered(log, a, b + 1) == Delivered(log, a, b) + [log[b - 1]]
  {
    assert log[a - 1..b] == log[a - 1..b - 1] + [log[b - 1]];
  }

  /** The page in hand starts with the next event of the log. */
  lemma PageHead(log: seq<Event>, next: int, page: seq<Event>)
    requires 1 <= next && page != [] && page == Delivered(log, next, next + |page|) && next + |page| <= |log| + 1
    ensures next <= |log| && page[0] == log[next - 1] && page[1..] == Delivered(log, next + 1, next + |page|)
  {
    assert page == log[next - 1..next - 1 + |page|];
  }

  lemma PageSentInStep(r: Reader, log: seq<Event>)
    requires InStep(r, log) && Numbered(log)
    ensures InStep(PageSent(r), log)
  {
    hide Delivered;
    if r.phase.Replaying? && r.page != [] {
      PageHead(log, r.next, r.page);
      DeliveredOneMore(log, r.from, r.next);
    }
  }

  lemma ReceivedInStep(r: Reader, log: seq<Event>)
    requires InStep(r, log) && Numbered(log)
    ensures InStep(Received(r), log)
  {
    hide Delivered;
    if r.phase.Following? && r.channel != [] {
      assert r.channel[0] == log[r.head] && r.channel[0].no == r.head + 1;
      assert r.channel[1..] == log[r.head + 1..r.head + |r.channel|];
      if r.channel[0].no >= r.next {
        DeliveredOneMore(log, r.from, r.next);
      }
    }
  }

  lemma OtherStepsInStep(r: Reader, log: seq<Event>)
    requires InStep(r, log)
    ensures InStep(Followed(r), log) && InStep(Dropped(r), log) && InStep(Left(r), log)
  {
  }

  lemma SteppedInStep(r: Reader, log: seq<Event>, step: Step)
    requires InStep(r, log) && Numbered(log)
    ensures InStep(Stepped(r, log, step), log)
  {
    hide InStep;
    PageReadInStep(r, log);
    PageSentInStep(r, log);
    ReceivedInStep(r, log);
    OtherStepsInStep(r, log);
  }

  lemma NextKeeps(sys: System, step: Step)
    requires Inv(sys)
    ensures Inv(Next(sys, step))
  {
    hide InStep;
    match step {
      case Append(branch, payload) =>
        var ev := Event(|sys.log| + 1, branch, payload);
        forall i | 0 <= i < |sys.readers| ensures InStep(Publish(sys.readers[i], ev), sys.log + [ev]) {
          PublishInStep(sys.readers[i], sys.log, ev);
        }
      case Subscribe(fromSeq) => AttachedInStep(sys.log, fromSeq);
      case _ =>
        if step.r < |sys.readers| {
          SteppedInStep(sys.readers[step.r], sys.log, step);
        }
    }
  }

  lemma {:induction false} RunKeeps(steps: seq<Step>)
    ensures Inv(Run(steps))
  {
    if steps != [] {
      RunKeeps(steps[..|steps| - 1]);
      NextKeeps(Run(steps[..|steps| - 1]), steps[|steps| - 1]);
    }
  }

  // ---- What a client gets ----

  /** However the steps fall, what a client has been sent is the log from
      where it asked to be attached, in order, without a gap or a repeat, up to
      the event before the one it would be told to attach again from. */
  lemma SendsTheLog(steps: seq<Step>, i: nat)
    requires i < |Run(steps).readers|
    ensures var sys := Run(steps); var r := sys.readers[i];
            && 1 <= r.from <= r.next && r.sent == Delivered(sys.log, r.from, r.next)
            && |r.sent| == r.next - r.from && (r.phase.Stopped? ==> r.phase.at == r.next)
            && forall k :: 0 <= k < |r.sent| ==> r.sent[k].no == r.from + k
  {
    RunKeeps(steps);
    var r := Run(steps).readers[i];
    if r.next > r.from {
      assert r.sent == Run(steps).log[r.from - 1..r.next - 1];
    }
  }

  lemma {:induction false} ReadersStay(steps: seq<Step>, more: seq<Step>, i: nat)
    requires i < |Run(steps).readers|
    ensures i < |Run(steps + more).readers| && Run(steps + more).readers[i].from == Run(steps).readers[i].from
  {
    if more == [] {
      assert steps + more == steps;
    } else {
      var init, last := more[..|more| - 1], more[|more| - 1];
      ReadersStay(steps, init, i);
      assert (steps + more)[..|steps + more| - 1] == steps + init;
    }
  }

  /** A client that asks for the log from fromSeq is sent it from there on,
      whatever happens meanwhile. */
  lemma SentFromWhereAsked(before: seq<Step>, fromSeq: int, more: seq<Step>)
    ensures var i, steps := |Run(before).readers|, before + [Subscribe(fromSeq)] + more;
            && i < |Run(steps).readers|
            && var r := Run(steps).readers[i];
               forall k :: 0 <= k < |r.sent| ==>
                 var no := k + if fromSeq < 1 then 1 else fromSeq;
                 no <= |Run(steps).log| && r.sent[k] == Run(steps).log[no - 1]
  {
    var i, start := |Run(before).readers|, before + [Subscribe(fromSeq)];
    assert start[..|before|] == before;
    ReadersStay(start, more, i);
    var sys := Run(start + more);
    RunKeeps(start + more);
    var r := sys.readers[i];
    assert InStep(r, sys.log);
    if r.next > r.from {
      assert r.sent == sys.log[r.from - 1..r.next - 1];
    }
  }

  /** This many events of the log have not been taken from the channel yet. */
  predicate Behind(sys: System, i: nat, n: int) {
    i < |sys.readers| && |sys.log| - sys.readers[i].head == n
  }

  /** A client is dropped when an event comes while 4096 others wait for it, and
      at no other time: with room in its channel it never is. */
  lemma DroppedWhenFull(steps: seq<Step>, step: Step, i: nat)
    requires i < |Run(steps).readers|
    ensures var sys, sys' := Run(steps), Run(steps + [step]); var r := sys.readers[i];
            && i < |sys'.readers|
            && (sys'.readers[i].dropped <==>
                r.dropped || (step.Append? && Behind(sys, i, 4096) && !r.phase.Stopped? && !r.phase.Gone?))
  {
    RunKeeps(steps);
    assert (steps + [step])[..|steps|] == steps;
    assert InStep(Run(steps).readers[i], Run(steps).log);
  }

  ghost predicate FellBehind(steps: seq<Step>, i: nat, k: int) {
    0 <= k < |steps| && steps[k].Append? && Behind(Run(steps[..k]), i, SUBSCRIBER_BUFFER)
  }

  lemma ToldWhenDropped(r: Reader, log: seq<Event>, step: Step)
    requires r.phase.Stopped? ==> r.dropped && r.channel == []
    ensures var r' := Stepped(r, log, step);
            (r'.phase.Stopped? ==> r'.dropped && r'.channel == []) && (r'.dropped ==> r.dropped)
  {
  }

  /** Nobody is told to attach again who did not once fall that far behind, or
      who has not been given everything that waited for it. */
  lemma {:induction false} StoppedFellBehind(steps: seq<Step>, i: nat)
    requires i < |Run(steps).readers|
    ensures var r := Run(steps).readers[i];
            (r.phase.Stopped? ==> r.dropped && r.channel == []) && (r.dropped ==> exists k :: FellBehind(steps, i, k))
  {
    var init, step := steps[..|steps| - 1], steps[|steps| - 1];
    var sys := Run(init);
    if i < |sys.readers| {
      StoppedFellBehind(init, i);
      assert init + [step] == steps;
      DroppedWhenFull(init, step, i);
      if sys.readers[i].dropped {
        var k :| FellBehind(init, i, k);
        assert steps[..k] == init[..k] && FellBehind(steps, i, k);
      } else if Run(steps).readers[i].dropped {
        assert FellBehind(steps, i, |init|);
      }
      if !step.Append? && !step.Subscribe? && step.r == i {
        ToldWhenDropped(sys.readers[i], sys.log, step);
      }
    }
  }

  /** A client that is not stopped and has nothing left to drain has been sent
      everything. */
  lemma CaughtUp(steps: seq<Step>, i: nat)
    requires i < |Run(steps).readers|
    requires var r := Run(steps).readers[i]; r.phase.Following? && r.channel == [] && !r.dropped
    ensures var sys := Run(steps);
            sys.readers[i].from >= 1 && sys.readers[i].sent == Delivered(sys.log, sys.readers[i].from, |sys.log| + 1)
  {
    RunKeeps(steps);
  }

  /** A client dropped for being slow that attaches again where it was told to
      gets exactly the rest: together, one run of the log. */
  lemma AttachAgainContinues(steps: seq<Step>, i: nat, j: nat)
    requires i < |Run(steps).readers| && j < |Run(steps).readers|
    requires var r, r2 := Run(steps).readers[i], Run(steps).readers[j]; r.phase.Stopped? && r2.from == r.phase.at
    ensures var sys := Run(steps); var r, r2 := sys.readers[i], sys.readers[j];
            r.from >= 1 && r.sent + r2.sent == Delivered(sys.log, r.from, r2.next)
  {
    RunKeeps(steps);
    var sys := Run(steps);
    var r, r2 := sys.readers[i], sys.readers[j];
    assert InStep(r, sys.log) && InStep(r2, sys.log);
    hide Delivered;
    DeliveredJoins(sys.log, r.from, r.next, r2.next);
  }

  lemma DeliveredJoins(log: seq<Event>, a: int, b: int, c: int)
    requires 1 <= a <= b <= c && (b > a ==> b <= |log| + 1) && (c > b ==> c <= |log| + 1)
    ensures Delivered(log, a, b) + Delivered(log, b, c) == Delivered(log, a, c)
  {
    if a < b < c {
      assert log[a - 1..b - 1] + log[b - 1..c - 1] == log[a - 1..c - 1];
    }
  }

  /** The replay on its own, page by page: everything from fromSeq up to what
      was logged when the client subscribed. */
  method Replay(log: seq<Event>, fromSeq: int, last: int) returns (sent: seq<Event>, next: int)
    requires Numbered(log) && 0 <= last <= |log|
    ensures next == Max(Max(fromSeq, 1), last + 1) && sent == Delivered(log, Max(fromSeq, 1), next)
  {
    hide Delivered;
    var from := Max(fromSeq, 1);
    next, sent := from, [];
    NothingYet(log, from);
    while next <= last
      invariant from <= next && (next > from ==> next <= last + 1) && sent == Delivered(log, from, next)
      decreases last + 1 - next
    {
      var evs := Stored(log, next, Min(last, next + REPLAY_PAGE - 1));
      if evs == [] {
        break;
      }
      sent, next := SendAll(log, from, sent, next, evs);
    }
  }

  lemma NothingYet(log: seq<Event>, from: int)
    requires from >= 1
    ensures Delivered(log, from, from) == []
  {
  }

  /** A page sent, one event after another. */
  method SendAll(log: seq<Event>, from: int, before: seq<Event>, start: int, evs: seq<Event>)
    returns (sent: seq<Event>, next: int)
    requires Numbered(log) && 1 <= from <= start && start - 1 + |evs| <= |log| &&
             evs == log[start - 1..start - 1 + |evs|]
    requires before == Delivered(log, from, start)
    ensures next == start + |evs| && sent == Delivered(log, from, next)
  {
    hide Delivered;
    sent, next := before, start;
    var i := 0;
    while i < |evs|
      invariant 0 <= i <= |evs| && next == start + i && sent == Delivered(log, from, next)
    {
      assert evs[i] == log[next - 1] && evs[i].no == next;
      DeliveredOneMore(log, from, next);
      sent := sent + [evs[i]];
      next := evs[i].no + 1;
      i := i + 1;
    }
  }

  // ---- A client is never stuck ----

  predicate Settled(r: Reader) {
    r.phase.Stopped? || r.phase.Gone? || (r.phase.Following? && r.channel == [] && !r.dropped)
  }

  /** How many steps a client needs to settle, if nothing more is logged. */
  function Backlog(r: Reader): nat {
    (if r.phase.Replaying? then
       1 + 2 * (if r.next <= r.last then r.last + 1 - r.next else 0) + (if r.page == [] then 1 else 0) else 0)
    + (if r.phase.Stopped? || r.phase.Gone? then 0 else |r.channel| + if r.dropped then 1 else 0)
  }

  function Turn(r: Reader, i: nat): Step {
    if r.phase.Replaying? then
      if r.page != [] then SendPage(i) else if r.next <= r.last then ReadPage(i) else Follow(i)
    else if r.channel != [] then Receive(i) else Drop(i)
  }

  /** An unsettled client has a step to take, and each brings it nearer to
      being stopped or having everything. */
  lemma NeverStuck(steps: seq<Step>, i: nat)
    requires i < |Run(steps).readers| && !Settled(Run(steps).readers[i])
    ensures var sys := Run(steps); var r := sys.readers[i];
            Backlog(Next(sys, Turn(r, i)).readers[i]) < Backlog(r)
  {
    RunKeeps(steps);
    var sys := Run(steps);
    var r := sys.readers[i];
    assert InStep(r, sys.log);
    TurnHelps(r, sys.log, i);
  }

  lemma TurnHelps(r: Reader, log: seq<Event>, i: nat)
    requires InStep(r, log) && Numbered(log) && !Settled(r)
    ensures Backlog(Stepped(r, log, Turn(r, i))) < Backlog(r)
  {
    if r.phase.Replaying? && r.page != [] {
      PageHead(log, r.next, r.page);
    }
  }
}
