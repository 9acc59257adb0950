/** A session in which a provider reuses its call ids, and what the model is
    shown of it. */
module Reuse {
  import opened Events
  import opened Branches
  import opened Context
  import opened Model
  import opened Conversations
  import opened Live
  import opened Guarantees
  import Chat

  const CALL := Chat.Call(Text("call_0"), "shell", "{}")

  /** A message is answered by a call, its result by a second call of the same
      id, and then the turn gets stuck. */
  const OPS: seq<Op> := [
    OpSend("fix it", ""), OpStep,
    OpStartReply, OpEndReply("", [CALL]), OpStartCall, OpEndCall("ok"), OpNextStep, OpStep,
    OpStartReply, OpEndReply("", [CALL]), OpStartCall,
    OpEndTurn(End(Stuck, "no space left"))]

  const LOG: seq<Event> := [
    Event(1, ROOT, MessageStarted(Minted(0), User)),
    Event(2, ROOT, TextDelta(Minted(0), "fix it")),
    Event(3, ROOT, MessageDone(Minted(0), "fix it")),
    Event(4, ROOT, TaskStateChanged(Working, "")),
    Event(5, ROOT, MessageStarted(Minted(1), Assistant)),
    Event(6, ROOT, MessageDone(Minted(1), "")),
    Event(7, ROOT, ToolCallStarted(Minted(1), Text("call_0"), "shell", "{}")),
    Event(8, ROOT, ToolCallDone(Text("call_0"), "ok")),
    Event(9, ROOT, MessageStarted(Minted(2), Assistant)),
    Event(10, ROOT, MessageDone(Minted(2), "")),
    Event(11, ROOT, ToolCallStarted(Minted(2), Text("call_0"), "shell", "{}")),
    Event(12, ROOT, TaskStateChanged(Stuck, "no space left"))]

  // ---- The run ----

  /** The first n events are logged and the turn is here. */
  ghost predicate At(s: State, n: nat, turn: Turn, minted: nat) {
    && n <= |LOG| && s.log == LOG[..n] && s.info.lastNo == n && s.info.branch == ROOT && s.tree == UNFORKED
    && s.queue == [] && !s.cancelled && !s.closing && !s.compactAsk && s.turn == turn && s.minted == minted
  }

  lemma Logs(s: State, n: nat, turn: Turn, minted: nat, p: Payload)
    requires At(s, n, turn, minted) && n < |LOG| && LOG[n] == Event(n + 1, ROOT, p)
    requires !p.BranchCreated? && !p.BranchSwitched?
    ensures At(Append(s, p), n + 1, turn, minted)
  {
    assert LOG[..n] + [LOG[n]] == LOG[..n + 1];
  }

  lemma Sends(s: State)
    requires At(s, 0, NoTurn, 0)
    ensures At(Apply(s, OPS[0]), 4, Boundary(true), 1)
  {
    var text := "fix it";
    var s1 := AppendUser(s, text);
    UserSent(s);
    assert !Blank(text) by { assert !IsSpace(text[0]); }
    assert Deliver(s) == s;
    hide AppendUser, Blank, Deliver;
    Logs(s1, 3, NoTurn, 1, TaskStateChanged(Working, ""));
  }

  lemma UserSent(s: State)
    requires At(s, 0, NoTurn, 0)
    ensures At(AppendUser(s, "fix it"), 3, NoTurn, 1)
  {
    hide Append;
    var id, text := Minted(0), "fix it";
    var s1 := Append(Mint(s), MessageStarted(id, User));
    var s2 := Append(s1, TextDelta(id, text));
    Logs(Mint(s), 0, NoTurn, 1, MessageStarted(id, User));
    Logs(s1, 1, NoTurn, 1, TextDelta(id, text));
    Logs(s2, 2, NoTurn, 1, MessageDone(id, text));
  }

  lemma Begins(s: State, n: nat, first: bool, minted: nat)
    requires At(s, n, Boundary(first), minted)
    ensures At(Apply(s, OpStep), n, Ready(true), minted)
  {
    assert Deliver(s) == s;
  }

  /** A reply that makes the call. */
  lemma Replies(s: State, n: nat, minted: nat)
    requires At(s, n, Ready(true), minted) && n + 2 < |LOG|
    requires LOG[n] == Event(n + 1, ROOT, MessageStarted(Minted(minted), Assistant))
    requires LOG[n + 1] == Event(n + 2, ROOT, MessageDone(Minted(minted), ""))
    requires LOG[n + 2] == Event(n + 3, ROOT, ToolCallStarted(Minted(minted), CALL.id, CALL.name, CALL.arguments))
    ensures var id := Minted(minted);
            var s1 := Apply(s, OpStartReply);
            var s2 := Apply(s1, OpEndReply("", [CALL]));
            var s3 := Apply(s2, OpStartCall);
            At(s3, n + 3, Calling(id, [CALL], 1, 0), minted + 1)
  {
    hide Apply, At;
    ReplyOpens(s, n, minted);
    ReplyEnds(Apply(s, OpStartReply), n + 1, minted + 1, Minted(minted));
    CallStarts(Apply(Apply(s, OpStartReply), OpEndReply("", [CALL])), n + 2, minted + 1, Minted(minted));
  }

  lemma ReplyOpens(s: State, n: nat, minted: nat)
    requires At(s, n, Ready(true), minted) && n < |LOG|
    requires LOG[n] == Event(n + 1, ROOT, MessageStarted(Minted(minted), Assistant))
    ensures At(Apply(s, OpStartReply), n + 1, Streaming(Minted(minted)), minted + 1)
  {
    Logs(Mint(s), n, Ready(true), minted + 1, MessageStarted(Minted(minted), Assistant));
  }

  lemma ReplyEnds(s: State, n: nat, minted: nat, id: Id)
    requires At(s, n, Streaming(id), minted) && n < |LOG| && LOG[n] == Event(n + 1, ROOT, MessageDone(id, ""))
    ensures At(Apply(s, OpEndReply("", [CALL])), n + 1, Calling(id, [CALL], 0, 0), minted)
  {
    Logs(s, n, Streaming(id), minted, MessageDone(id, ""));
  }

  lemma CallStarts(s: State, n: nat, minted: nat, id: Id)
    requires At(s, n, Calling(id, [CALL], 0, 0), minted) && n < |LOG|
    requires LOG[n] == Event(n + 1, ROOT, ToolCallStarted(id, CALL.id, CALL.name, CALL.arguments))
    ensures At(Apply(s, OpStartCall), n + 1, Calling(id, [CALL], 1, 0), minted)
  {
    Logs(s, n, s.turn, minted, ToolCallStarted(id, CALL.id, CALL.name, CALL.arguments));
  }

  lemma Answers(s: State)
    requires At(s, 7, Calling(Minted(1), [CALL], 1, 0), 2)
    ensures At(Apply(Apply(s, OpEndCall("ok")), OpNextStep), 8, Boundary(false), 2)
  {
    Logs(s, 7, s.turn, 2, ToolCallDone(CALL.id, "ok"));
  }

  lemma GetsStuck(s: State)
    requires At(s, 11, Calling(Minted(2), [CALL], 1, 0), 3)
    ensures At(Apply(s, OPS[11]), 12, NoTurn, 3)
  {
    var s0 := s.(turn := NoTurn, compactAsk := false);
    Logs(s0, 11, NoTurn, 3, TaskStateChanged(Stuck, "no space left"));
  }

  lemma Next(info: Info, k: nat)
    requires k < |OPS|
    ensures Run(info, OPS[..k + 1]) == Apply(Run(info, OPS[..k]), OPS[k])
  {
    assert OPS[..k + 1][..k] == OPS[..k];
    RunOne(info, OPS[..k + 1]);
  }

  lemma Starts(info: Info)
    requires New(info)
    ensures At(Run(info, OPS[..0]), 0, NoTurn, 0)
  {
    assert OPS[..0] == [] && LOG[..0] == [];
  }

  lemma RunsToFirstReply(info: Info)
    requires New(info)
    ensures At(Run(info, OPS[..2]), 4, Ready(true), 1)
  {
    hide Apply, Run, At;
    Starts(info);
    Next(info, 0);
    Next(info, 1);
    Sends(Run(info, OPS[..0]));
    Begins(Run(info, OPS[..1]), 4, true, 1);
  }

  lemma RunsReply(info: Info, k: nat, n: nat, minted: nat)
    requires k + 3 <= |OPS| && OPS[k..k + 3] == [OpStartReply, OpEndReply("", [CALL]), OpStartCall]
    requires At(Run(info, OPS[..k]), n, Ready(true), minted) && n + 2 < |LOG|
    requires LOG[n] == Event(n + 1, ROOT, MessageStarted(Minted(minted), Assistant))
    requires LOG[n + 1] == Event(n + 2, ROOT, MessageDone(Minted(minted), ""))
    requires LOG[n + 2] == Event(n + 3, ROOT, ToolCallStarted(Minted(minted), CALL.id, CALL.name, CALL.arguments))
    ensures At(Run(info, OPS[..k + 3]), n + 3, Calling(Minted(minted), [CALL], 1, 0), minted + 1)
  {
    hide Apply, Run, At;
    assert OPS[k..k + 3][0] == OPS[k] && OPS[k..k + 3][1] == OPS[k + 1] && OPS[k..k + 3][2] == OPS[k + 2];
    Next(info, k);
    Next(info, k + 1);
    Next(info, k + 2);
    Replies(Run(info, OPS[..k]), n, minted);
  }

  lemma RunsToSecondReply(info: Info)
    requires At(Run(info, OPS[..5]), 7, Calling(Minted(1), [CALL], 1, 0), 2)
    ensures At(Run(info, OPS[..8]), 8, Ready(true), 2)
  {
    hide Apply, Run, At;
    Next(info, 5);
    Next(info, 6);
    Next(info, 7);
    Answers(Run(info, OPS[..5]));
    Begins(Run(info, OPS[..7]), 8, false, 2);
  }

  lemma Runs(info: Info)
    requires New(info)
    ensures At(Run(info, OPS), 12, NoTurn, 3)
  {
    hide Apply, Run, At;
    RunsToFirstReply(info);
    RunsReply(info, 2, 4, 1);
    RunsToSecondReply(info);
    RunsReply(info, 8, 8, 2);
    Next(info, 11);
    GetsStuck(Run(info, OPS[..11]));
    assert OPS[..12] == OPS;
  }

  // ---- What the model is shown ----

  lemma {:induction false} AllFiltered(p: Path, h: seq<Event>)
    requires forall i :: 0 <= i < |h| ==> Contains(p, h[i])
    ensures Filtered(p, h) == h
  {
    hide Contains, Filtered;
    if h != [] {
      var init, last := h[..|h| - 1], h[|h| - 1];
      AllFiltered(p, init);
      FilteredSnoc(p, init, last);
      assert h == init + [last];
    } else {
      NoneFiltered(p);
    }
  }

  lemma NoneFiltered(p: Path)
    ensures Filtered(p, []) == []
  {
  }

  lemma {:induction false} NoneEffective(h: seq<Event>)
    requires forall i :: 0 <= i < |h| ==> !Effective(h[i].payload)
    ensures LastCompaction(h).None?
  {
    if h != [] {
      NoneEffective(h[..|h| - 1]);
    }
  }

  lemma OneMore(k: nat, h: seq<Event>)
    requires k < |LOG| && HistoryEvents(LOG[..k]) == h
    ensures HistoryEvents(LOG[..k + 1]) == if HistoryKind(LOG[k].payload) then h + [LOG[k]] else h
  {
    assert LOG[..k + 1] == LOG[..k] + [LOG[k]] && h + [] == h;
    HistorySnoc(LOG[..k], LOG[k]);
  }

  lemma HistoryOfFirstReply()
    ensures HistoryEvents(LOG[..7]) == REUSED[..5]
  {
    hide HistoryEvents;
    NoHistory();
    assert LOG[..0] == [] && REUSED[..0] == [];
    Kept(0, 0);
    Passed(1, 1);
    Kept(2, 1);
    Passed(3, 2);
    Kept(4, 2);
    Kept(5, 3);
    Kept(6, 4);
  }

  lemma HistoryOfLog()
    ensures HistoryEvents(LOG) == REUSED
  {
    hide HistoryEvents;
    HistoryOfFirstReply();
    assert LOG[..12] == LOG && REUSED[..9] == REUSED;
    Kept(7, 5);
    Kept(8, 6);
    Kept(9, 7);
    Kept(10, 8);
    Passed(11, 9);
  }

  lemma Kept(k: nat, j: nat)
    requires k < |LOG| && j < |REUSED| && HistoryEvents(LOG[..k]) == REUSED[..j]
    requires HistoryKind(LOG[k].payload) && REUSED[j] == LOG[k]
    ensures HistoryEvents(LOG[..k + 1]) == REUSED[..j + 1]
  {
    hide HistoryEvents;
    OneMore(k, REUSED[..j]);
    assert REUSED[..j] + [REUSED[j]] == REUSED[..j + 1];
  }

  lemma Passed(k: nat, j: nat)
    requires k < |LOG| && j <= |REUSED| && HistoryEvents(LOG[..k]) == REUSED[..j] && !HistoryKind(LOG[k].payload)
    ensures HistoryEvents(LOG[..k + 1]) == REUSED[..j]
  {
    hide HistoryEvents;
    OneMore(k, REUSED[..j]);
  }

  lemma NoHistory()
    ensures HistoryEvents([]) == []
  {
  }

  /** A reachable session, whatever its settings, whose model is shown a call
      without a result: a provider that reuses call ids is all it takes. */
  lemma ReusedIdsReached(info: Info)
    requires New(info)
    ensures var s := Run(info, OPS);
            Reached(info, OPS, s) && ROOT in s.tree.byID && !Chat.WellFormedChat(Chat.Messages(Shown(s, ROOT)))
  {
    hide Run, HistoryEvents, Chat.WellFormedChat, Chat.Messages;
    Runs(info);
    assert LOG[..12] == LOG;
    HistoryOfLog();
    AllFiltered(PathOf(UNFORKED, ROOT), REUSED);
    NoneEffective(REUSED);
    ReusedIdsBreakTheChat();
  }
}
