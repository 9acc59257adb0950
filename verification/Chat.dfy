/** Rebuilding the chat the model sees from a session's events. */
module Chat {
  import opened Events

  datatype Call = Call(id: Id, name: string, arguments: string)

  datatype Msg =
    | UserMsg(text: string)
    | AssistantMsg(text: string, calls: seq<Call>)
    | ToolMsg(callId: Id, content: string)

  /** The result given to a call whose turn ended before it had one. */
  const NOT_RUN := "[not run: the turn was interrupted]"

  // ---- What the loop computes ----

  /** The loop's variables. */
  datatype Builder = Builder(msgs: seq<Msg>, roles: map<Id, Role>, assistantAt: map<Id, nat>,
                             pending: seq<Id>, done: set<Id>)

  const START := Builder([], map[], map[], [], {})

  predicate Indexed(b: Builder) {
    forall id :: id in b.assistantAt ==> b.assistantAt[id] < |b.msgs| && b.msgs[b.assistantAt[id]].AssistantMsg?
  }

  function NotRun(pending: seq<Id>, done: set<Id>): seq<Msg> {
    if pending == [] then []
    else
      var id := pending[|pending| - 1];
      NotRun(pending[..|pending| - 1], done) + if id in done then [] else [ToolMsg(id, NOT_RUN)]
  }

  function Flushed(b: Builder): Builder {
    b.(msgs := b.msgs + NotRun(b.pending, b.done), pending := [])
  }

  function Step(b: Builder, p: Payload): (b': Builder)
    requires Indexed(b)
    ensures Indexed(b')
  {
    match p
    case MessageStarted(id, role) => b.(roles := b.roles[id := role])
    case MessageDone(id, text) =>
      var f := Flushed(b);
      if id !in b.roles || b.roles[id] == NoRole then f
      else if b.roles[id] == User then f.(msgs := f.msgs + [UserMsg(text)])
      else f.(assistantAt := f.assistantAt[id := |f.msgs|], msgs := f.msgs + [AssistantMsg(text, [])])
    case ToolCallStarted(mid, cid, name, arguments) =>
      if mid !in b.assistantAt then b
      else
        var i := b.assistantAt[mid];
        var m := b.msgs[i];
        b.(msgs := b.msgs[i := m.(calls := m.calls + [Call(cid, name, arguments)])], pending := b.pending + [cid])
    case ToolCallDone(cid, result) => b.(done := b.done + {cid}, msgs := b.msgs + [ToolMsg(cid, result)])
    case _ => b
  }

  function Built(events: seq<Event>): (b: Builder)
    ensures Indexed(b)
  {
    if events == [] then START else Step(Built(events[..|events| - 1]), events[|events| - 1].payload)
  }

  predicate Empty(m: Msg) {
    m.AssistantMsg? && m.text == "" && m.calls == []
  }

  function NonEmpty(msgs: seq<Msg>): seq<Msg> {
    if msgs == [] then []
    else NonEmpty(msgs[..|msgs| - 1]) + if Empty(msgs[|msgs| - 1]) then [] else [msgs[|msgs| - 1]]
  }

  function Messages(events: seq<Event>): seq<Msg> {
    NonEmpty(Flushed(Built(events)).msgs)
  }

  // ---- The code ----

  method Flush(msgs: seq<Msg>, pending: seq<Id>, done: set<Id>) returns (out: seq<Msg>)
    ensures out == msgs + NotRun(pending, done)
  {
    out := msgs;
    var i := 0;
    while i < |pending|
      invariant 0 <= i <= |pending|
      invariant out == msgs + NotRun(pending[..i], done)
    {
      assert pending[..i + 1][..i] == pending[..i];
      if pending[i] !in done {
        out := out + [ToolMsg(pending[i], NOT_RUN)];
      }
      i := i + 1;
    }
    assert pending[..i] == pending;
  }

  method DropEmpty(msgs: seq<Msg>) returns (out: seq<Msg>)
    ensures out == NonEmpty(msgs)
  {
    out := [];
    var k := 0;
    while k < |msgs|
      invariant 0 <= k <= |msgs|
      invariant out == NonEmpty(msgs[..k])
    {
      assert msgs[..k + 1][..k] == msgs[..k];
      if !(msgs[k].AssistantMsg? && msgs[k].text == "" && msgs[k].calls == []) {
        out := out + [msgs[k]];
      }
      k := k + 1;
    }
    assert msgs[..k] == msgs;
  }

  lemma BuiltNone()
    ensures Built([]) == START
  {
  }

  lemma BuiltNext(events: seq<Event>, k: nat)
    requires k < |events|
    ensures Built(events[..k + 1]) == Step(Built(events[..k]), events[k].payload)
  {
    assert events[..k + 1][..k] == events[..k];
  }

  method BuildMessages(events: seq<Event>) returns (out: seq<Msg>)
    ensures out == Messages(events)
  {
    hide Built, NotRun, NonEmpty;
    BuiltNone();
    var msgs: seq<Msg> := [];
    var roles: map<Id, Role> := map[];
    var assistantAt: map<Id, nat> := map[];
    var pending: seq<Id> := [];
    var done: set<Id> := {};
    var k := 0;
    while k < |events|
      invariant 0 <= k <= |events|
      invariant Builder(msgs, roles, assistantAt, pending, done) == Built(events[..k])
      invariant Indexed(Builder(msgs, roles, assistantAt, pending, done))
    {
      BuiltNext(events, k);
      match events[k].payload {
        case MessageStarted(id, role) =>
          roles := roles[id := role];
        case MessageDone(id, text) =>
          msgs := Flush(msgs, pending, done);
          pending := [];
          if id in roles && roles[id] == User {
            msgs := msgs + [UserMsg(text)];
          } else if id in roles && roles[id] == Assistant {
            assistantAt := assistantAt[id := |msgs|];
            msgs := msgs + [AssistantMsg(text, [])];
          }
        case ToolCallStarted(mid, cid, name, arguments) =>
          if mid in assistantAt {
            var i := assistantAt[mid];
            msgs := msgs[i := msgs[i].(calls := msgs[i].calls + [Call(cid, name, arguments)])];
            pending := pending + [cid];
          }
        case ToolCallDone(cid, result) =>
          done := done + {cid};
          msgs := msgs + [ToolMsg(cid, result)];
        case _ =>
      }
      k := k + 1;
    }
    assert events[..k] == events;
    assert Built(events) == Builder(msgs, roles, assistantAt, pending, done);
    msgs := Flush(msgs, pending, done);
    out := DropEmpty(msgs);
  }

  // ---- What a chat must be ----

  function CallIds(calls: seq<Call>): seq<Id> {
    if calls == [] then [] else CallIds(calls[..|calls| - 1]) + [calls[|calls| - 1].id]
  }

  function ResultIds(msgs: seq<Msg>): seq<Id> {
    if msgs == [] then []
    else
      var m := msgs[|msgs| - 1];
      ResultIds(msgs[..|msgs| - 1]) + if m.ToolMsg? then [m.callId] else []
  }

  /** How many tool results the chat starts with. */
  function LeadingResults(msgs: seq<Msg>): (n: nat)
    ensures n <= |msgs|
    ensures forall i :: 0 <= i < n ==> msgs[i].ToolMsg?
    ensures n < |msgs| ==> !msgs[n].ToolMsg?
  {
    if msgs == [] || !msgs[0].ToolMsg? then 0 else 1 + LeadingResults(msgs[1..])
  }

  /** What a chat endpoint accepts: every assistant message says or calls
      something, every call has exactly one result before the next user or
      assistant message, and no result is without its call. */
  ghost predicate WellFormedChat(msgs: seq<Msg>)
    decreases |msgs|
  {
    msgs == [] ||
    match msgs[0]
    case UserMsg(_) => WellFormedChat(msgs[1..])
    case AssistantMsg(text, calls) =>
      var n := LeadingResults(msgs[1..]);
      && !Empty(msgs[0])
      && multiset(ResultIds(msgs[1..][..n])) == multiset(CallIds(calls))
      && WellFormedChat(msgs[1..][n..])
    case ToolMsg(_, _) => false
  }

  // ---- The order a turn records its events in ----

  /** Where a conversation's events have got to. Opened: a message was
      started. Replying: an assistant message is done, and may be making
      calls, in order, and recording their results, in the same order. The
      calls of a reply stay open until the next message is done. */
  datatype Shape =
    | Between
    | Opened(id: Id, role: Role, calls: seq<Id>, answered: nat)
    | Replying(id: Id, calls: seq<Id>, answered: nat)

  function OpenCalls(sh: Shape): seq<Id> {
    if sh.Between? then [] else sh.calls
  }

  function OpenAnswered(sh: Shape): nat {
    if sh.Between? then 0 else sh.answered
  }

  /** A turn may be cut off anywhere, so a message may start in any state. */
  function NextShape(sh: Shape, p: Payload): Option<Shape> {
    match p
    case MessageStarted(id, role) => Some(Opened(id, role, OpenCalls(sh), OpenAnswered(sh)))
    case MessageDone(id, _) =>
      if sh.Opened? && sh.id == id then Some(if sh.role == Assistant then Replying(id, [], 0) else Between) else None
    case ToolCallStarted(mid, cid, _, _) =>
      if sh.Replying? && sh.id == mid && sh.answered == 0 then Some(sh.(calls := sh.calls + [cid])) else None
    case ToolCallDone(cid, _) =>
      if sh.Replying? && sh.answered < |sh.calls| && sh.calls[sh.answered] == cid
      then Some(sh.(answered := sh.answered + 1)) else None
    case _ => Some(sh)
  }

  function Scan(events: seq<Event>): Option<Shape> {
    if events == [] then Some(Between)
    else
      var sh := Scan(events[..|events| - 1]);
      if sh.None? then None else NextShape(sh.value, events[|events| - 1].payload)
  }

  lemma ScanOne(events: seq<Event>, ev: Event)
    ensures Scan(events + [ev]) == if Scan(events).None? then None else NextShape(Scan(events).value, ev.payload)
  {
    assert (events + [ev])[..|events|] == events;
  }

  /** The ids some result in events carries. */
  function Answered(events: seq<Event>): set<Id> {
    if events == [] then {}
    else
      var p := events[|events| - 1].payload;
      Answered(events[..|events| - 1]) + if p.ToolCallDone? then {p.callId} else {}
  }

  /** The open calls that never got a result. */
  function Unanswered(sh: Shape): seq<Id> {
    if OpenAnswered(sh) <= |OpenCalls(sh)| then OpenCalls(sh)[OpenAnswered(sh)..] else []
  }

  /** At this point of the log, no unanswered call has an id that a result,
      of this reply or of any earlier one, already carries. */
  ghost predicate Fresh(events: seq<Event>) {
    Scan(events).Some? ==> forall id :: id in Unanswered(Scan(events).value) ==> id !in Answered(events)
  }

  /** Fresh wherever a reply is closed: at each message's end and at the end
      of the log. */
  ghost predicate NoStaleCalls(events: seq<Event>) {
    Fresh(events) && forall i :: 0 <= i < |events| && events[i].payload.MessageDone? ==> Fresh(events[..i])
  }

  // ---- The chat as a list of segments ----

  datatype Segment = Said(text: string) | Reply(text: string, calls: seq<Call>, results: seq<Msg>)

  function Render(s: Segment): seq<Msg> {
    if s.Said? then [UserMsg(s.text)] else [AssistantMsg(s.text, s.calls)] + s.results
  }

  function RenderAll(segs: seq<Segment>): seq<Msg> {
    if segs == [] then [] else RenderAll(segs[..|segs| - 1]) + Render(segs[|segs| - 1])
  }

  ghost predicate AllTools(msgs: seq<Msg>) {
    forall i :: 0 <= i < |msgs| ==> msgs[i].ToolMsg?
  }

  ghost predicate Proper(s: Segment) {
    s.Reply? ==> AllTools(s.results) && (s.calls == [] ==> s.results == [])
  }

  ghost predicate AllProper(segs: seq<Segment>) {
    forall i :: 0 <= i < |segs| ==> Proper(segs[i])
  }

  ghost predicate Balanced(s: Segment) {
    s.Reply? ==> multiset(ResultIds(s.results)) == multiset(CallIds(s.calls))
  }

  /** What a log has said so far: the segments that are closed, and the reply
      whose calls may still be open. */
  datatype Replay = Replay(closed: seq<Segment>, open: Option<Segment>)

  function RenderOpen(open: Option<Segment>): seq<Msg> {
    if open.None? then [] else Render(open.value)
  }

  /** The open reply with its unanswered calls given up on. */
  function GivenUp(s: Segment, missing: seq<Id>, done: set<Id>): Segment {
    if s.Said? then s else s.(results := s.results + NotRun(missing, done))
  }

  function ClosedUp(r: Replay, missing: seq<Id>, done: set<Id>): seq<Segment> {
    if r.open.None? then r.closed else r.closed + [GivenUp(r.open.value, missing, done)]
  }

  function NextReplay(r: Replay, sh: Shape, done: set<Id>, p: Payload): Replay {
    match p
    case MessageDone(_, text) =>
      var c := ClosedUp(r, Unanswered(sh), done);
      if !sh.Opened? || sh.role == NoRole then Replay(c, None)
      else if sh.role == User then Replay(c + [Said(text)], None)
      else Replay(c, Some(Reply(text, [], [])))
    case ToolCallStarted(_, cid, name, arguments) =>
      if r.open.None? || r.open.value.Said? then r
      else r.(open := Some(r.open.value.(calls := r.open.value.calls + [Call(cid, name, arguments)])))
    case ToolCallDone(cid, result) =>
      if r.open.None? || r.open.value.Said? then r
      else r.(open := Some(r.open.value.(results := r.open.value.results + [ToolMsg(cid, result)])))
    case _ => r
  }

  function Replayed(events: seq<Event>): Replay {
    if events == [] then Replay([], None)
    else
      var before := events[..|events| - 1];
      var sh := Scan(before);
      NextReplay(Replayed(before), if sh.Some? then sh.value else Between, Answered(before),
                 events[|events| - 1].payload)
  }

  /** An open reply records exactly the calls the scan has open and a result
      for each of those it counts as answered. */
  ghost predicate Holds(s: Segment, open: seq<Id>, n: nat) {
    s.Reply? && Proper(s) && n <= |open| && CallIds(s.calls) == open && ResultIds(s.results) == open[..n]
  }

  /** How the loop's variables, the scan and the segments hang together. */
  ghost predicate Linked(b: Builder, sh: Shape, r: Replay, done: set<Id>) {
    var open, n := OpenCalls(sh), OpenAnswered(sh);
    && b.msgs == RenderAll(r.closed) + RenderOpen(r.open) && b.done == done && b.pending == open
    && n <= |open| && (forall i :: 0 <= i < n ==> open[i] in done)
    && AllProper(r.closed)
    && (if r.open.None? then open == [] else Holds(r.open.value, open, n))
    && (sh.Opened? ==> sh.id in b.roles && b.roles[sh.id] == sh.role)
    && (sh.Replying? ==> r.open.Some? && sh.id in b.assistantAt && b.assistantAt[sh.id] == |RenderAll(r.closed)|)
  }

  lemma {:induction false} NotRunSkipsAnswered(pending: seq<Id>, done: set<Id>, n: nat)
    requires n <= |pending| && forall i :: 0 <= i < n ==> pending[i] in done
    ensures NotRun(pending, done) == NotRun(pending[n..], done)
  {
    if n < |pending| {
      var init := pending[..|pending| - 1];
      NotRunSkipsAnswered(init, done, n);
      assert pending[n..][..|pending| - n - 1] == init[n..];
    } else if n > 0 {
      NotRunSkipsAnswered(pending[..n - 1], done, n - 1);
      assert pending[..n - 1][n - 1..] == [] && pending[n..] == [];
    }
  }

  /** Giving up on calls adds one result per call whose id is not marked done;
      it is all of them exactly when no id is. */
  lemma {:induction false} NotRunIds(missing: seq<Id>, done: set<Id>)
    ensures var r := NotRun(missing, done);
            && AllTools(r)
            && |r| <= |missing|
            && ((forall id :: id in missing ==> id !in done) ==> ResultIds(r) == missing)
            && ((exists id :: id in missing && id in done) ==> |r| < |missing|)
  {
    if missing != [] {
      var init := missing[..|missing| - 1];
      NotRunIds(init, done);
      assert missing == init + [missing[|missing| - 1]];
      if missing[|missing| - 1] !in done {
        var r := NotRun(missing, done);
        assert r[..|r| - 1] == NotRun(init, done);
      }
    }
  }

  lemma {:induction false} ResultIdsConcat(a: seq<Msg>, b: seq<Msg>)
    ensures ResultIds(a + b) == ResultIds(a) + ResultIds(b)
  {
    if b == [] {
      assert a + b == a;
    } else {
      var b' := b[..|b| - 1];
      assert (a + b)[..|a + b| - 1] == a + b';
      ResultIdsConcat(a, b');
    }
  }

  lemma {:induction false} ResultIdsLength(msgs: seq<Msg>)
    ensures |ResultIds(msgs)| <= |msgs|
  {
    if msgs != [] {
      ResultIdsLength(msgs[..|msgs| - 1]);
    }
  }

  lemma {:induction false} CallIdsLength(calls: seq<Call>)
    ensures |CallIds(calls)| == |calls|
  {
    if calls != [] {
      CallIdsLength(calls[..|calls| - 1]);
    }
  }

  lemma CallIdsSnoc(calls: seq<Call>, c: Call)
    ensures CallIds(calls + [c]) == CallIds(calls) + [c.id]
  {
    assert (calls + [c])[..|calls|] == calls;
  }

  lemma ResultIdsSnoc(results: seq<Msg>, m: Msg)
    requires m.ToolMsg?
    ensures ResultIds(results + [m]) == ResultIds(results) + [m.callId]
  {
    assert (results + [m])[..|results|] == results;
  }

  lemma RenderSnoc(segs: seq<Segment>, s: Segment)
    ensures RenderAll(segs + [s]) == RenderAll(segs) + Render(s)
  {
    assert (segs + [s])[..|segs|] == segs;
  }

  lemma SameMultiset(a: seq<Id>, missing: seq<Id>, given: seq<Id>)
    requires given == missing || |given| < |missing|
    ensures multiset(a + given) == multiset(a + missing) <==> given == missing
  {
    assert |multiset(a + given)| == |a| + |given|;
    assert |multiset(a + missing)| == |a| + |missing|;
  }

  lemma AllToolsConcat(a: seq<Msg>, b: seq<Msg>)
    requires AllTools(a) && AllTools(b)
    ensures AllTools(a + b)
  {
  }

  /** Closing a reply balances it exactly when none of its unanswered calls
      is stale. */
  lemma CloseBalances(s: Segment, open: seq<Id>, n: nat, done: set<Id>)
    requires Holds(s, open, n)
    ensures var s' := GivenUp(s, open[n..], done);
            Proper(s') && (Balanced(s') <==> forall id :: id in open[n..] ==> id !in done)
  {
    hide NotRun, ResultIds, CallIds;
    var missing := open[n..];
    var given := NotRun(missing, done);
    NotRunIds(missing, done);
    ResultIdsConcat(s.results, given);
    ResultIdsLength(given);
    CallIdsLength(s.calls);
    AllToolsConcat(s.results, given);
    SameMultiset(open[..n], missing, ResultIds(given));
    assert open == open[..n] + missing;
  }

  lemma UnansweredIs(sh: Shape)
    requires OpenAnswered(sh) <= |OpenCalls(sh)|
    ensures Unanswered(sh) == OpenCalls(sh)[OpenAnswered(sh)..]
  {
  }

  /** Flushing is closing the open reply. */
  lemma FlushCloses(b: Builder, sh: Shape, r: Replay, done: set<Id>)
    requires Linked(b, sh, r, done)
    ensures Flushed(b).msgs == RenderAll(ClosedUp(r, Unanswered(sh), done))
    ensures AllProper(ClosedUp(r, Unanswered(sh), done))
    ensures r.open.Some? ==>
      (Balanced(GivenUp(r.open.value, Unanswered(sh), done)) <==> forall id :: id in Unanswered(sh) ==> id !in done)
    ensures r.open.None? ==> Unanswered(sh) == []
  {
    hide Holds, Render, RenderAll, Proper, Balanced, GivenUp, NotRun, Unanswered;
    var open, n := OpenCalls(sh), OpenAnswered(sh);
    UnansweredIs(sh);
    NotRunSkipsAnswered(open, done, n);
    if r.open.Some? {
      var s := r.open.value;
      HoldsReply(s, open, n);
      CloseBalances(s, open, n, done);
      RenderGivenUp(r.closed, s, open[n..], done);
    } else {
      NothingRun(done);
    }
  }

  lemma HoldsReply(s: Segment, open: seq<Id>, n: nat)
    requires Holds(s, open, n)
    ensures s.Reply?
  {
  }

  lemma NothingRun(done: set<Id>)
    ensures NotRun([], done) == []
  {
  }

  lemma RenderGivenUp(closed: seq<Segment>, s: Segment, missing: seq<Id>, done: set<Id>)
    requires s.Reply?
    ensures RenderAll(closed + [GivenUp(s, missing, done)]) == RenderAll(closed) + Render(s) + NotRun(missing, done)
  {
    RenderSnoc(closed, GivenUp(s, missing, done));
    assert Render(GivenUp(s, missing, done)) == Render(s) + NotRun(missing, done);
  }

  lemma LinkedMessageDone(b: Builder, sh: Shape, r: Replay, done: set<Id>, p: Payload)
    requires Linked(b, sh, r, done) && Indexed(b) && p.MessageDone? && NextShape(sh, p).Some?
    ensures Linked(Step(b, p), NextShape(sh, p).value, NextReplay(r, sh, done, p), done)
  {
    hide Render, RenderAll, Proper, GivenUp, NotRun, Unanswered, Holds;
    var c, f := ClosedUp(r, Unanswered(sh), done), Flushed(b);
    assert f.msgs == RenderAll(c) && AllProper(c) by {
      FlushCloses(b, sh, r, done);
    }
    assert f.done == done && f.roles == b.roles && b.roles[p.messageId] == sh.role;
    var b', sh', r' := Step(b, p), NextShape(sh, p).value, NextReplay(r, sh, done, p);
    if sh.role == User {
      assert b' == f.(msgs := f.msgs + [UserMsg(p.text)]) && sh' == Between && r' == Replay(c + [Said(p.text)], None);
      SaidRendered(c, p.text);
      LinkedAfresh(b', c + [Said(p.text)]);
    } else if sh.role == Assistant {
      assert b' == f.(assistantAt := f.assistantAt[p.messageId := |f.msgs|],
                      msgs := f.msgs + [AssistantMsg(p.text, [])]);
      assert sh' == Replying(p.messageId, [], 0) && r' == Replay(c, Some(Reply(p.text, [], [])));
      LinkedReply(f, c, p.messageId, p.text);
    } else {
      assert b' == f && sh' == Between && r' == Replay(c, None);
      LinkedAfresh(f, c);
    }
  }

  lemma SaidRendered(c: seq<Segment>, text: string)
    ensures RenderAll(c + [Said(text)]) == RenderAll(c) + [UserMsg(text)]
    ensures AllProper(c) ==> AllProper(c + [Said(text)])
  {
    RenderSnoc(c, Said(text));
  }

  lemma LinkedReply(f: Builder, c: seq<Segment>, id: Id, text: string)
    requires f.msgs == RenderAll(c) && f.pending == [] && AllProper(c)
    ensures Linked(f.(assistantAt := f.assistantAt[id := |f.msgs|], msgs := f.msgs + [AssistantMsg(text, [])]),
                   Replying(id, [], 0), Replay(c, Some(Reply(text, [], []))), f.done)
  {
    assert Render(Reply(text, [], [])) == [AssistantMsg(text, [])];
  }

  lemma LinkedAfresh(b: Builder, c: seq<Segment>)
    requires b.msgs == RenderAll(c) && b.pending == [] && AllProper(c)
    ensures Linked(b, Between, Replay(c, None), b.done)
  {
  }

  lemma LinkedCall(b: Builder, sh: Shape, r: Replay, done: set<Id>, p: Payload)
    requires Linked(b, sh, r, done) && Indexed(b) && p.ToolCallStarted? && NextShape(sh, p).Some?
    ensures Linked(Step(b, p), NextShape(sh, p).value, NextReplay(r, sh, done, p), done)
  {
    var s, call := r.open.value, Call(p.callId, p.name, p.arguments);
    CallIdsSnoc(s.calls, call);
    NoResults(s);
    var before := RenderAll(r.closed);
    var i := b.assistantAt[p.messageId];
    assert b.msgs == before + [AssistantMsg(s.text, s.calls)];
    assert b.msgs[i := AssistantMsg(s.text, s.calls + [call])] == before + [AssistantMsg(s.text, s.calls + [call])];
  }

  /** A reply nobody has answered yet has recorded no results. */
  lemma NoResults(s: Segment)
    requires s.Reply? && Proper(s) && ResultIds(s.results) == []
    ensures s.results == []
  {
  }

  lemma LinkedResult(b: Builder, sh: Shape, r: Replay, done: set<Id>, p: Payload)
    requires Linked(b, sh, r, done) && Indexed(b) && p.ToolCallDone? && NextShape(sh, p).Some?
    ensures Linked(Step(b, p), NextShape(sh, p).value, NextReplay(r, sh, done, p), done + {p.callId})
  {
    hide Holds, Render, RenderAll, AllProper;
    var s, m := r.open.value, ToolMsg(p.callId, p.result);
    HoldsReply(s, OpenCalls(sh), sh.answered);
    ResultHeld(s, OpenCalls(sh), sh.answered, m);
    ResultRendered(r.closed, s, m);
  }

  lemma ResultHeld(s: Segment, open: seq<Id>, n: nat, m: Msg)
    requires Holds(s, open, n) && n < |open| && m.ToolMsg? && open[n] == m.callId
    ensures Holds(s.(results := s.results + [m]), open, n + 1)
  {
    ResultIdsSnoc(s.results, m);
    CallIdsLength(s.calls);
    AllToolsConcat(s.results, [m]);
    assert open[..n + 1] == open[..n] + [m.callId];
  }

  lemma ResultRendered(closed: seq<Segment>, s: Segment, m: Msg)
    requires s.Reply? && m.ToolMsg?
    ensures RenderAll(closed) + Render(s.(results := s.results + [m])) == RenderAll(closed) + Render(s) + [m]
  {
    assert Render(s.(results := s.results + [m])) == Render(s) + [m];
  }

  lemma {:induction false} AlwaysLinked(events: seq<Event>)
    requires Scan(events).Some?
    ensures Linked(Built(events), Scan(events).value, Replayed(events), Answered(events))
  {
    if events != [] {
      var before, p := events[..|events| - 1], events[|events| - 1].payload;
      AlwaysLinked(before);
      hide Linked, Step, NextShape, NextReplay;
      LinkedStep(Built(before), Scan(before).value, Replayed(before), Answered(before), p);
    } else {
      assert Linked(START, Between, Replay([], None), {});
    }
  }

  lemma LinkedStep(b: Builder, sh: Shape, r: Replay, done: set<Id>, p: Payload)
    requires Linked(b, sh, r, done) && Indexed(b) && NextShape(sh, p).Some?
    ensures Linked(Step(b, p), NextShape(sh, p).value, NextReplay(r, sh, done, p),
                   done + if p.ToolCallDone? then {p.callId} else {})
  {
    hide Render, RenderAll, AllProper, Holds, Unanswered;
    assert done + {} == done;
    if p.MessageDone? {
      LinkedMessageDone(b, sh, r, done, p);
    } else if p.ToolCallStarted? {
      LinkedCall(b, sh, r, done, p);
    } else if p.ToolCallDone? {
      LinkedResult(b, sh, r, done, p);
    }
  }

  ghost predicate NoStaleBefore(events: seq<Event>) {
    forall i :: 0 <= i < |events| && events[i].payload.MessageDone? ==> Fresh(events[..i])
  }

  lemma NoStaleBeforeSnoc(events: seq<Event>)
    requires events != []
    ensures var before := events[..|events| - 1];
            NoStaleBefore(events) <==>
              NoStaleBefore(before) && (events[|events| - 1].payload.MessageDone? ==> Fresh(before))
  {
    hide Fresh;
    var before := events[..|events| - 1];
    forall i | 0 <= i < |before| ensures before[..i] == events[..i] {}
    if NoStaleBefore(events) {
      forall i | 0 <= i < |before| && before[i].payload.MessageDone? ensures Fresh(before[..i]) {
        assert events[i] == before[i] && before[..i] == events[..i];
      }
    }
    if NoStaleBefore(before) && (events[|events| - 1].payload.MessageDone? ==> Fresh(before)) {
      forall i | 0 <= i < |events| && events[i].payload.MessageDone? ensures Fresh(events[..i]) {
        if i < |before| {
          assert events[i] == before[i] && before[..i] == events[..i];
        }
      }
    }
  }

  ghost predicate AllBalanced(segs: seq<Segment>) {
    forall i :: 0 <= i < |segs| ==> Balanced(segs[i])
  }

  /** Closing what is open keeps the balance exactly when nothing is stale. */
  lemma ClosingBalances(events: seq<Event>)
    requires Scan(events).Some?
    ensures var r := Replayed(events);
            AllBalanced(ClosedUp(r, Unanswered(Scan(events).value), Answered(events))) <==>
              AllBalanced(r.closed) && Fresh(events)
  {
    AlwaysLinked(events);
    var sh, r, done := Scan(events).value, Replayed(events), Answered(events);
    FlushCloses(Built(events), sh, r, done);
    if r.open.Some? {
      AllBalancedSnoc(r.closed, GivenUp(r.open.value, Unanswered(sh), done));
    }
  }

  lemma AllBalancedSnoc(segs: seq<Segment>, s: Segment)
    ensures AllBalanced(segs + [s]) <==> AllBalanced(segs) && Balanced(s)
  {
    assert (segs + [s])[|segs|] == s;
    assert forall i :: 0 <= i < |segs| ==> (segs + [s])[i] == segs[i];
  }

  /** The closed segments balance exactly when nothing stale was given up on. */
  lemma {:induction false} ClosedSegmentsBalance(events: seq<Event>)
    requires Scan(events).Some?
    ensures NoStaleBefore(events) <==> AllBalanced(Replayed(events).closed)
  {
    if events != [] {
      var before, p := events[..|events| - 1], events[|events| - 1].payload;
      ClosedSegmentsBalance(before);
      NoStaleBeforeSnoc(events);
      ClosingBalances(before);
      var sh, r, done := Scan(before).value, Replayed(before), Answered(before);
      assert Replayed(events) == NextReplay(r, sh, done, p);
      NextReplayBalance(r, sh, done, p);
    }
  }

  lemma NextReplayBalance(r: Replay, sh: Shape, done: set<Id>, p: Payload)
    ensures AllBalanced(NextReplay(r, sh, done, p).closed) <==>
      AllBalanced(if p.MessageDone? then ClosedUp(r, Unanswered(sh), done) else r.closed)
  {
    if p.MessageDone? {
      AllBalancedSnoc(ClosedUp(r, Unanswered(sh), done), Said(p.text));
    }
  }

  lemma {:induction false} NonEmptyConcat(a: seq<Msg>, b: seq<Msg>)
    ensures NonEmpty(a + b) == NonEmpty(a) + NonEmpty(b)
  {
    if b == [] {
      assert a + b == a;
    } else {
      assert (a + b)[..|a + b| - 1] == a + b[..|b| - 1];
      NonEmptyConcat(a, b[..|b| - 1]);
    }
  }

  lemma {:induction false} NonEmptyTools(msgs: seq<Msg>)
    requires AllTools(msgs)
    ensures NonEmpty(msgs) == msgs
  {
    if msgs != [] {
      var init := msgs[..|msgs| - 1];
      assert AllTools(init);
      NonEmptyTools(init);
      assert msgs == init + [msgs[|msgs| - 1]];
    }
  }

  lemma {:induction false} RenderHead(segs: seq<Segment>)
    requires segs != []
    ensures RenderAll(segs) == Render(segs[0]) + RenderAll(segs[1..])
  {
    hide Render, RenderAll;
    var last := segs[|segs| - 1];
    if |segs| == 1 {
      assert segs == [] + [last] && segs[1..] == [];
      RenderSnoc([], last);
      RenderNone();
    } else {
      var init, mid := segs[..|segs| - 1], segs[1..|segs| - 1];
      RenderHead(init);
      assert init[1..] == mid && segs == init + [last] && segs[1..] == mid + [last];
      RenderSnoc(init, last);
      RenderSnoc(mid, last);
    }
  }

  lemma RenderNone()
    ensures RenderAll([]) == []
  {
  }

  lemma {:induction false} ResultsLead(results: seq<Msg>, rest: seq<Msg>)
    requires AllTools(results)
    requires rest != [] ==> !rest[0].ToolMsg?
    ensures LeadingResults(results + rest) == |results|
  {
    if results != [] {
      assert (results + rest)[1..] == results[1..] + rest;
      ResultsLead(results[1..], rest);
    } else {
      assert results + rest == rest;
    }
  }

  /** A segment as the model sees it: nothing, if it is an empty reply. */
  function Shown(s: Segment): seq<Msg> {
    if s.Reply? && s.text == "" && s.calls == [] then [] else Render(s)
  }

  lemma NonEmptyOne(m: Msg)
    ensures NonEmpty([m]) == if Empty(m) then [] else [m]
  {
    assert [m][..0] == [];
  }

  lemma {:induction false} NonEmptySegment(s: Segment)
    requires Proper(s)
    ensures NonEmpty(Render(s)) == Shown(s)
  {
    hide NonEmpty;
    var first := Render(s)[0];
    var rest := Render(s)[1..];
    assert Render(s) == [first] + rest;
    NonEmptyConcat([first], rest);
    NonEmptyTools(rest);
    NonEmptyOne(first);
  }

  lemma {:induction false} FirstNotTool(segs: seq<Segment>)
    requires AllProper(segs)
    ensures var r := NonEmpty(RenderAll(segs)); r != [] ==> !r[0].ToolMsg?
  {
    if segs != [] {
      RenderHead(segs);
      NonEmptyConcat(Render(segs[0]), RenderAll(segs[1..]));
      FirstNotTool(segs[1..]);
      NonEmptySegment(segs[0]);
    }
  }

  lemma {:induction false} SaidHead(text: string, tail: seq<Msg>)
    ensures WellFormedChat([UserMsg(text)] + tail) <==> WellFormedChat(tail)
  {
    assert ([UserMsg(text)] + tail)[1..] == tail;
  }

  lemma {:induction false} ChatHead(s: Segment, tail: seq<Msg>)
    requires Proper(s) && (tail != [] ==> !tail[0].ToolMsg?)
    ensures WellFormedChat(Shown(s) + tail) <==> Balanced(s) && WellFormedChat(tail)
  {
    if s.Said? {
      assert Shown(s) == [UserMsg(s.text)];
      SaidHead(s.text, tail);
    } else if s.text == "" && s.calls == [] {
      assert Shown(s) + tail == tail;
    } else {
      ShownReplyHead(s, tail);
    }
  }

  lemma {:induction false} ShownReplyHead(s: Segment, tail: seq<Msg>)
    requires s.Reply? && Proper(s) && !(s.text == "" && s.calls == []) && (tail != [] ==> !tail[0].ToolMsg?)
    ensures WellFormedChat(Shown(s) + tail) <==> Balanced(s) && WellFormedChat(tail)
  {
    hide WellFormedChat, ResultIds, CallIds, AllTools;
    assert AllTools(s.results);
    ReplyHead(s.text, s.calls, s.results, tail);
    assert Shown(s) + tail == [AssistantMsg(s.text, s.calls)] + (s.results + tail);
  }

  lemma {:induction false} ReplyHead(text: string, calls: seq<Call>, results: seq<Msg>, tail: seq<Msg>)
    requires !(text == "" && calls == [])
    requires AllTools(results) && (tail != [] ==> !tail[0].ToolMsg?)
    ensures WellFormedChat([AssistantMsg(text, calls)] + (results + tail)) <==>
      multiset(ResultIds(results)) == multiset(CallIds(calls)) && WellFormedChat(tail)
  {
    ResultsLead(results, tail);
    var msgs := [AssistantMsg(text, calls)] + (results + tail);
    assert msgs[1..] == results + tail;
    assert (results + tail)[..|results|] == results && (results + tail)[|results|..] == tail;
  }

  lemma {:induction false} ChatOfSegments(segs: seq<Segment>)
    requires AllProper(segs)
    ensures WellFormedChat(NonEmpty(RenderAll(segs))) <==> AllBalanced(segs)
  {
    if segs != [] {
      var s, rest := segs[0], segs[1..];
      var tail := NonEmpty(RenderAll(rest));
      RenderHead(segs);
      NonEmptyConcat(Render(s), RenderAll(rest));
      NonEmptySegment(s);
      ChatOfSegments(rest);
      FirstNotTool(rest);
      ChatHead(s, tail);
      AllBalancedCons(segs);
    }
  }

  lemma AllBalancedCons(segs: seq<Segment>)
    requires segs != []
    ensures AllBalanced(segs) <==> Balanced(segs[0]) && AllBalanced(segs[1..])
  {
    var rest := segs[1..];
    assert forall i :: 0 <= i < |rest| ==> rest[i] == segs[i + 1];
    if AllBalanced(rest) && Balanced(segs[0]) {
      forall i | 0 <= i < |segs| ensures Balanced(segs[i]) {
        if i > 0 {
          assert segs[i] == rest[i - 1];
        }
      }
    }
  }

  /** The rebuilt chat is well formed exactly when no call is given up on
      under an id that already has a result. */
  lemma RebuiltChatWellFormed(events: seq<Event>)
    requires Scan(events).Some?
    ensures WellFormedChat(Messages(events)) <==> NoStaleCalls(events)
  {
    AlwaysLinked(events);
    ClosedSegmentsBalance(events);
    ClosingBalances(events);
    var sh, r := Scan(events).value, Replayed(events);
    FlushCloses(Built(events), sh, r, Answered(events));
    ChatOfSegments(ClosedUp(r, Unanswered(sh), Answered(events)));
  }

  // ---- One more message at the end ----

  lemma {:induction false} LeadingBeforeUser(msgs: seq<Msg>, text: string)
    ensures LeadingResults(msgs + [UserMsg(text)]) == LeadingResults(msgs)
  {
    if msgs != [] {
      assert (msgs + [UserMsg(text)])[1..] == msgs[1..] + [UserMsg(text)];
      LeadingBeforeUser(msgs[1..], text);
    }
  }

  /** A user message may follow exactly a chat that is well formed. */
  lemma {:induction false} ThenUser(msgs: seq<Msg>, text: string)
    ensures WellFormedChat(msgs + [UserMsg(text)]) <==> WellFormedChat(msgs)
    decreases |msgs|
  {
    var all := msgs + [UserMsg(text)];
    if msgs == [] {
      assert all[1..] == [];
    } else {
      assert all[1..] == msgs[1..] + [UserMsg(text)];
      if msgs[0].UserMsg? {
        ThenUser(msgs[1..], text);
      } else if msgs[0].AssistantMsg? {
        var n := LeadingResults(msgs[1..]);
        LeadingBeforeUser(msgs[1..], text);
        ThenUser(msgs[1..][n..], text);
        assert all[1..][..n] == msgs[1..][..n] && all[1..][n..] == msgs[1..][n..] + [UserMsg(text)];
      }
    }
  }
}
