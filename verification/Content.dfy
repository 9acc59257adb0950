/** What is said is what the model is shown: how each thing a log records comes
    out of the rebuilding, word for word. */
module Content {
  import opened Events
  import opened Chat

  // ---- The loop over payloads ----

  function Payloads(evs: seq<Event>): (ps: seq<Payload>)
    ensures |ps| == |evs| && forall i :: 0 <= i < |evs| ==> ps[i] == evs[i].payload
  {
    seq(|evs|, i requires 0 <= i < |evs| => evs[i].payload)
  }

  /** The loop's variables after more events. */
  function Fold(b: Builder, ps: seq<Payload>): (b': Builder)
    requires Indexed(b)
    ensures Indexed(b')
  {
    if ps == [] then b else Step(Fold(b, ps[..|ps| - 1]), ps[|ps| - 1])
  }

  lemma FoldSnoc(b: Builder, ps: seq<Payload>, p: Payload)
    requires Indexed(b)
    ensures Fold(b, ps + [p]) == Step(Fold(b, ps), p)
  {
    assert (ps + [p])[..|ps|] == ps;
  }

  lemma {:induction false} FoldConcat(b: Builder, ps: seq<Payload>, qs: seq<Payload>)
    requires Indexed(b)
    ensures Fold(b, ps + qs) == Fold(Fold(b, ps), qs)
  {
    if qs == [] {
      assert ps + qs == ps;
    } else {
      var init, last := qs[..|qs| - 1], qs[|qs| - 1];
      FoldConcat(b, ps, init);
      assert ps + qs == (ps + init) + [last];
      FoldSnoc(b, ps + init, last);
    }
  }

  lemma {:induction false} BuiltFold(h: seq<Event>, evs: seq<Event>)
    ensures Built(h + evs) == Fold(Built(h), Payloads(evs))
  {
    if evs == [] {
      assert h + evs == h;
    } else {
      var init, last := evs[..|evs| - 1], evs[|evs| - 1];
      BuiltFold(h, init);
      assert (h + evs)[..|h + evs| - 1] == h + init;
      assert Payloads(evs)[..|evs| - 1] == Payloads(init);
    }
  }

  // ---- User messages ----

  function UserPayloads(id: Id, text: string): seq<Payload> {
    [MessageStarted(id, User), MessageDone(id, text)]
  }

  /** A user message is shown as its text, after all that was shown before. */
  lemma UserShown(h: seq<Event>, evs: seq<Event>, id: Id, text: string)
    requires Payloads(evs) == UserPayloads(id, text)
    ensures Messages(h + evs) == Messages(h) + [UserMsg(text)]
  {
    var b := Built(h);
    var start, done := MessageStarted(id, User), MessageDone(id, text);
    BuiltFold(h, evs);
    assert UserPayloads(id, text) == ([] + [start]) + [done];
    FoldSnoc(b, [], start);
    FoldSnoc(b, [] + [start], done);
    var said := Flushed(b).msgs;
    FlushedAgain(Built(h + evs));
    assert Built(h + evs).msgs == said + [UserMsg(text)];
    NonEmptyMore(said, UserMsg(text));
  }

  lemma FlushedAgain(b: Builder)
    requires b.pending == []
    ensures Flushed(b).msgs == b.msgs
  {
  }

  lemma NonEmptyMore(msgs: seq<Msg>, m: Msg)
    ensures NonEmpty(msgs + [m]) == NonEmpty(msgs) + if Chat.Empty(m) then [] else [m]
  {
    assert (msgs + [m])[..|msgs|] == msgs;
  }

  /** Whole user messages with these texts, under new ids from n on. */
  function UsersPayloads(n: nat, texts: seq<string>): seq<Payload>
    decreases |texts|
  {
    if texts == [] then [] else UserPayloads(Minted(n), texts[0]) + UsersPayloads(n + 1, texts[1..])
  }

  /** The texts as user messages. */
  function UserMsgs(texts: seq<string>): seq<Msg> {
    seq(|texts|, i requires 0 <= i < |texts| => UserMsg(texts[i]))
  }

  /** Several user messages are shown as their texts, in order. */
  lemma {:induction false} UsersShown(h: seq<Event>, evs: seq<Event>, n: nat, texts: seq<string>)
    requires Payloads(evs) == UsersPayloads(n, texts)
    ensures Messages(h + evs) == Messages(h) + UserMsgs(texts)
    decreases |texts|
  {
    hide Messages, Payloads, UserMsgs, UserPayloads;
    if texts == [] {
      NoneShown(h, evs);
    } else {
      var ps, qs := UserPayloads(Minted(n), texts[0]), UsersPayloads(n + 1, texts[1..]);
      PayloadsSplit(evs, ps, qs);
      var one, rest := evs[..|ps|], evs[|ps|..];
      UserShown(h, one, Minted(n), texts[0]);
      UsersShown(h + one, rest, n + 1, texts[1..]);
      assert h + evs == (h + one) + rest;
      UserMsgsFirst(texts);
    }
  }

  lemma NoneShown(h: seq<Event>, evs: seq<Event>)
    requires Payloads(evs) == []
    ensures h + evs == h && UserMsgs([]) == []
  {
  }

  lemma PayloadsSplit(evs: seq<Event>, ps: seq<Payload>, qs: seq<Payload>)
    requires Payloads(evs) == ps + qs
    ensures |ps| <= |evs| && Payloads(evs[..|ps|]) == ps && Payloads(evs[|ps|..]) == qs
  {
    assert |evs| == |ps| + |qs|;
    assert Payloads(evs[..|ps|]) == Payloads(evs)[..|ps|] == ps;
    assert Payloads(evs[|ps|..]) == Payloads(evs)[|ps|..] == qs;
  }

  lemma UserMsgsFirst(texts: seq<string>)
    requires texts != []
    ensures UserMsgs(texts) == [UserMsg(texts[0])] + UserMsgs(texts[1..])
  {
  }

  // ---- Replies ----

  function CallPayloads(id: Id, calls: seq<Call>): seq<Payload> {
    if calls == [] then []
    else
      var c := calls[|calls| - 1];
      CallPayloads(id, calls[..|calls| - 1]) + [ToolCallStarted(id, c.id, c.name, c.arguments)]
  }

  function ResultPayloads(calls: seq<Call>, results: seq<string>): seq<Payload>
    requires |results| <= |calls|
  {
    if results == [] then []
    else
      var n := |results| - 1;
      ResultPayloads(calls, results[..n]) + [ToolCallDone(calls[n].id, results[n])]
  }

  function ReplyPayloads(id: Id, text: string, calls: seq<Call>, results: seq<string>): seq<Payload>
    requires |results| <= |calls|
  {
    [MessageStarted(id, Assistant), MessageDone(id, text)] + CallPayloads(id, calls) + ResultPayloads(calls, results)
  }

  /** The results as messages, each under its call's id. */
  function ResultMsgs(calls: seq<Call>, results: seq<string>): seq<Msg>
    requires |results| <= |calls|
  {
    seq(|results|, i requires 0 <= i < |results| => ToolMsg(calls[i].id, results[i]))
  }

  function DoneIds(calls: seq<Call>, n: nat): set<Id>
    requires n <= |calls|
  {
    set i | 0 <= i < n :: calls[i].id
  }

  lemma FoldNone(b: Builder)
    requires Indexed(b)
    ensures Fold(b, []) == b
  {
  }

  /** The reply, just ended, is the last message so far. */
  predicate Open(b: Builder, id: Id) {
    b.msgs != [] && b.msgs[|b.msgs| - 1].AssistantMsg? && id in b.assistantAt && b.assistantAt[id] == |b.msgs| - 1
  }

  function WithCalls(b: Builder, calls: seq<Call>): Builder
    requires b.msgs != [] && b.msgs[|b.msgs| - 1].AssistantMsg?
  {
    b.(msgs := b.msgs[|b.msgs| - 1 := b.msgs[|b.msgs| - 1].(calls := calls)], pending := CallIds(calls))
  }

  lemma CallStep(b: Builder, id: Id, calls: seq<Call>, c: Call)
    requires Indexed(b) && Open(b, id) && Indexed(WithCalls(b, calls))
    ensures Step(WithCalls(b, calls), ToolCallStarted(id, c.id, c.name, c.arguments)) == WithCalls(b, calls + [c])
  {
    CallIdsSnoc(calls, c);
    hide CallIds;
    var n := |b.msgs| - 1;
    assert WithCalls(b, calls).msgs[n] == b.msgs[n].(calls := calls);
    assert WithCalls(b, calls).msgs[n := b.msgs[n].(calls := calls + [c])] ==
           b.msgs[n := b.msgs[n].(calls := calls + [c])];
  }

  lemma WithNoCalls(b: Builder)
    requires b.msgs != [] && b.msgs[|b.msgs| - 1].AssistantMsg? && b.msgs[|b.msgs| - 1].calls == [] && b.pending == []
    ensures WithCalls(b, []) == b
  {
    assert b.msgs[|b.msgs| - 1 := b.msgs[|b.msgs| - 1].(calls := [])] == b.msgs;
  }

  lemma {:induction false} CallsFold(b: Builder, id: Id, calls: seq<Call>)
    requires Indexed(b) && Open(b, id) && b.msgs[|b.msgs| - 1].calls == [] && b.pending == []
    ensures Fold(b, CallPayloads(id, calls)) == WithCalls(b, calls)
  {
    hide Fold, Step, Indexed, WithCalls;
    if calls == [] {
      FoldNone(b);
      WithNoCalls(b);
    } else {
      var init, c := calls[..|calls| - 1], calls[|calls| - 1];
      CallsFold(b, id, init);
      FoldSnoc(b, CallPayloads(id, init), ToolCallStarted(id, c.id, c.name, c.arguments));
      assert init + [c] == calls;
      CallStep(b, id, init, c);
    }
  }

  lemma ResultStep(b: Builder, id: Id, result: string)
    requires Indexed(b)
    ensures Step(b, ToolCallDone(id, result)) ==
            b.(msgs := b.msgs + [ToolMsg(id, result)], done := b.done + {id})
  {
  }

  function WithResults(b: Builder, calls: seq<Call>, results: seq<string>): Builder
    requires |results| <= |calls|
  {
    b.(msgs := b.msgs + ResultMsgs(calls, results), done := b.done + DoneIds(calls, |results|))
  }

  lemma ResultsSnoc(b: Builder, calls: seq<Call>, results: seq<string>)
    requires 0 < |results| <= |calls|
    ensures var n := |results| - 1;
            var b1 := WithResults(b, calls, results[..n]);
            b1.(msgs := b1.msgs + [ToolMsg(calls[n].id, results[n])], done := b1.done + {calls[n].id}) ==
            WithResults(b, calls, results)
  {
    var n := |results| - 1;
    assert ResultMsgs(calls, results) == ResultMsgs(calls, results[..n]) + [ToolMsg(calls[n].id, results[n])];
    assert DoneIds(calls, n + 1) == DoneIds(calls, n) + {calls[n].id};
  }

  lemma NoResultsYet(b: Builder, calls: seq<Call>)
    ensures WithResults(b, calls, []) == b
  {
    assert b.msgs + ResultMsgs(calls, []) == b.msgs && b.done + DoneIds(calls, 0) == b.done;
  }

  lemma {:induction false} ResultsFold(b: Builder, calls: seq<Call>, results: seq<string>)
    requires Indexed(b) && |results| <= |calls|
    ensures Fold(b, ResultPayloads(calls, results)) == WithResults(b, calls, results)
  {
    hide Fold, Step, Indexed, WithResults;
    if results == [] {
      FoldNone(b);
      NoResultsYet(b, calls);
    } else {
      var n := |results| - 1;
      var init := results[..n];
      ResultsFold(b, calls, init);
      FoldSnoc(b, ResultPayloads(calls, init), ToolCallDone(calls[n].id, results[n]));
      ResultStep(WithResults(b, calls, init), calls[n].id, results[n]);
      ResultsSnoc(b, calls, results);
    }
  }

  lemma ReplyOpens(b: Builder, id: Id, text: string)
    requires Indexed(b)
    ensures var b', said := Fold(b, [MessageStarted(id, Assistant), MessageDone(id, text)]), Flushed(b).msgs;
            && b'.msgs == said + [AssistantMsg(text, [])] && b'.pending == [] && b'.done == b.done
            && id in b'.assistantAt && b'.assistantAt[id] == |said|
  {
    var start, done := MessageStarted(id, Assistant), MessageDone(id, text);
    assert [start, done] == ([] + [start]) + [done];
    FoldSnoc(b, [], start);
    FoldSnoc(b, [] + [start], done);
  }

  lemma ReplyBuilt(h: seq<Event>, evs: seq<Event>, id: Id, text: string, calls: seq<Call>, results: seq<string>)
    requires |results| <= |calls| && Payloads(evs) == ReplyPayloads(id, text, calls, results)
    ensures var b, b' := Built(h), Built(h + evs);
            && b'.msgs == Flushed(b).msgs + [AssistantMsg(text, calls)] + ResultMsgs(calls, results)
            && b'.pending == CallIds(calls) && b'.done == b.done + DoneIds(calls, |results|)
  {
    hide Fold, Flushed, Built, CallPayloads, ResultPayloads;
    var b, opening := Built(h), [MessageStarted(id, Assistant), MessageDone(id, text)];
    BuiltFold(h, evs);
    ReplyOpens(b, id, text);
    var b1 := Fold(b, opening);
    FoldConcat(b, opening + CallPayloads(id, calls), ResultPayloads(calls, results));
    FoldConcat(b, opening, CallPayloads(id, calls));
    CallsFold(b1, id, calls);
    var said := Flushed(b).msgs;
    assert (said + [AssistantMsg(text, [])])[|said| := AssistantMsg(text, calls)] == said + [AssistantMsg(text, calls)];
    ResultsFold(Fold(b1, CallPayloads(id, calls)), calls, results);
  }

  /** A reply and the results of its calls, as the model is shown them. */
  function ReplyMsgs(text: string, calls: seq<Call>, results: seq<string>): seq<Msg>
    requires |results| <= |calls|
  {
    (if text == "" && calls == [] then [] else [AssistantMsg(text, calls)]) + ResultMsgs(calls, results)
  }

  lemma {:induction false} AllDone(calls: seq<Call>, done: set<Id>)
    requires DoneIds(calls, |calls|) <= done
    ensures NotRun(CallIds(calls), done) == []
  {
    if calls != [] {
      var init := calls[..|calls| - 1];
      assert forall i :: 0 <= i < |init| ==> calls[i].id in DoneIds(calls, |calls|);
      assert DoneIds(init, |init|) <= DoneIds(calls, |calls|);
      AllDone(init, done);
      assert init + [calls[|calls| - 1]] == calls;
      CallIdsSnoc(init, calls[|calls| - 1]);
      assert CallIds(calls)[..|CallIds(calls)| - 1] == CallIds(init);
      assert calls[|calls| - 1].id in DoneIds(calls, |calls|);
    }
  }

  lemma NonEmptyTail(msgs: seq<Msg>, results: seq<Msg>)
    requires AllTools(results)
    ensures NonEmpty(msgs + results) == NonEmpty(msgs) + results
  {
    hide NonEmpty, AllTools;
    NonEmptyConcat(msgs, results);
    NonEmptyTools(results);
  }

  /** A reply whose calls all have results is shown with its text, its calls as
      the model made them, and their results under their ids, after all that was
      shown before. */
  lemma ReplyShown(h: seq<Event>, evs: seq<Event>, id: Id, text: string, calls: seq<Call>, results: seq<string>)
    requires |results| == |calls| && Payloads(evs) == ReplyPayloads(id, text, calls, results)
    ensures Messages(h + evs) == Messages(h) + ReplyMsgs(text, calls, results)
  {
    hide Built, NotRun, CallIds, NonEmpty, ReplyPayloads;
    ReplyBuilt(h, evs, id, text, calls, results);
    var said, b' := Flushed(Built(h)).msgs, Built(h + evs);
    AllDone(calls, b'.done);
    assert Flushed(b').msgs == b'.msgs;
    NonEmptyMore(said, AssistantMsg(text, calls));
    NonEmptyTail(said + [AssistantMsg(text, calls)], ResultMsgs(calls, results));
  }

  lemma {:induction false} DoneMeans(h: seq<Event>, id: Id)
    ensures id in Built(h).done <==>
            exists j :: 0 <= j < |h| && h[j].payload.ToolCallDone? && h[j].payload.callId == id
  {
    if h != [] {
      var init := h[..|h| - 1];
      DoneMeans(init, id);
      StepDone(Built(init), h[|h| - 1].payload);
      if id in Built(init).done {
        var j :| 0 <= j < |init| && init[j].payload.ToolCallDone? && init[j].payload.callId == id;
        assert h[j] == init[j];
      }
      forall j | 0 <= j < |init| ensures init[j] == h[j] {}
    }
  }

  lemma StepDone(b: Builder, p: Payload)
    requires Indexed(b)
    ensures Step(b, p).done == b.done + if p.ToolCallDone? then {p.callId} else {}
  {
  }

  /** No call was answered under this id. */
  ghost predicate NeverAnswered(h: seq<Event>, id: Id) {
    forall j :: 0 <= j < |h| ==> !(h[j].payload.ToolCallDone? && h[j].payload.callId == id)
  }

  /** The results that stand in for those calls never had. */
  function NotRunMsgs(calls: seq<Call>): seq<Msg> {
    seq(|calls|, i requires 0 <= i < |calls| => ToolMsg(calls[i].id, NOT_RUN))
  }

  /** One cut off before its calls had all their results: each that had none is
      shown as not run, if its id was never answered before. */
  lemma CutReplyShown(h: seq<Event>, evs: seq<Event>, id: Id, text: string, calls: seq<Call>, results: seq<string>)
    requires |results| <= |calls| && Payloads(evs) == ReplyPayloads(id, text, calls, results)
    requires forall i :: |results| <= i < |calls| ==>
               NeverAnswered(h, calls[i].id) && forall k :: 0 <= k < |results| ==> calls[k].id != calls[i].id
    ensures Messages(h + evs) == Messages(h) + ReplyMsgs(text, calls, results) + NotRunMsgs(calls[|results|..])
  {
    hide Built, NotRun, CallIds, NonEmpty, ReplyPayloads;
    ReplyBuilt(h, evs, id, text, calls, results);
    var said, b' := Flushed(Built(h)).msgs, Built(h + evs);
    var rest := NotRunMsgs(calls[|results|..]);
    forall i | |results| <= i < |calls| ensures calls[i].id !in b'.done {
      DoneMeans(h, calls[i].id);
    }
    RestNotRun(calls, |results|, b'.done);
    assert Flushed(b').msgs == b'.msgs + rest;
    NonEmptyMore(said, AssistantMsg(text, calls));
    NonEmptyTail(said + [AssistantMsg(text, calls)], ResultMsgs(calls, results));
    NonEmptyTail(said + [AssistantMsg(text, calls)] + ResultMsgs(calls, results), rest);
  }

  lemma {:induction false} RestNotRun(calls: seq<Call>, n: nat, done: set<Id>)
    requires n <= |calls| && DoneIds(calls, n) <= done && forall i :: n <= i < |calls| ==> calls[i].id !in done
    ensures NotRun(CallIds(calls), done) == NotRunMsgs(calls[n..])
  {
    if n == |calls| {
      AllDone(calls, done);
      assert calls[n..] == [];
    } else {
      var init, last := calls[..|calls| - 1], calls[|calls| - 1];
      assert DoneIds(init, n) == DoneIds(calls, n);
      RestNotRun(init, n, done);
      assert init + [last] == calls;
      CallIdsSnoc(init, last);
      assert CallIds(calls)[..|CallIds(calls)| - 1] == CallIds(init);
      assert NotRunMsgs(calls[n..]) == NotRunMsgs(init[n..]) + [ToolMsg(last.id, NOT_RUN)];
    }
  }
}
