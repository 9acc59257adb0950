/** A reply as it comes in, with whatever else happens to the session in
    between, is what the model is shown of it afterwards. */
module Replies {
  import opened Events
  import opened Branches
  import opened Model
  import opened Content
  import opened Invariant
  import opened Live
  import opened Guarantees
  import opened Requests
  import opened Operations
  import Chat
  import Compact

  /** A step of the reply itself. */
  predicate ReplyStep(op: Op) {
    op.OpStartReply? || op.OpEndReply? || op.OpStartCall? || op.OpEndCall?
  }

  /** Anything else that can happen while the reply comes in and its calls run:
      messages sent, changed or queued, forks and switches asked for, notes, an
      interrupt, a question to somebody. */
  predicate Meanwhile(op: Op) {
    op.OpSend? || op.OpUpdateQueued? || op.OpFork? || op.OpSwitch? || op.OpRequestCompact? || op.OpInterrupt? ||
    op.OpShutdown? || op.OpAside? || op.OpAsk? || op.OpResume?
  }

  predicate Undisturbed(ops: seq<Op>) {
    forall k :: 0 <= k < |ops| ==> ReplyStep(ops[k]) || Meanwhile(ops[k])
  }

  function ReplySteps(ops: seq<Op>): seq<Op> {
    if ops == [] then []
    else ReplySteps(ops[..|ops| - 1]) + if ReplyStep(ops[|ops| - 1]) then [ops[|ops| - 1]] else []
  }

  /** The steps of a whole reply. */
  function Script(text: string, calls: seq<Chat.Call>, results: seq<string>): (ops: seq<Op>)
    requires |results| <= |calls|
    ensures |ops| == 2 + |calls| + |results| && ops[0] == OpStartReply && ops[1] == OpEndReply(text, calls)
    ensures forall i :: 2 <= i < 2 + |calls| ==> ops[i] == OpStartCall
    ensures forall i :: 2 + |calls| <= i < |ops| ==> ops[i] == OpEndCall(results[i - 2 - |calls|])
  {
    [OpStartReply, OpEndReply(text, calls)] + seq(|calls|, i => OpStartCall) +
    seq(|results|, i requires 0 <= i < |results| => OpEndCall(results[i]))
  }

  // ---- After k of its steps ----

  /** The turn, from the state t it was in before. */
  function TurnAt(t: Turn, id: Id, calls: seq<Chat.Call>, k: nat): Turn {
    if k == 0 then t
    else if k == 1 then Streaming(id)
    else if k - 2 <= |calls| then Calling(id, calls, k - 2, 0)
    else Calling(id, calls, |calls|, k - 2 - |calls|)
  }

  /** The calls recorded, and the results. */
  function CallsAt(calls: seq<Chat.Call>, k: nat): seq<Chat.Call> {
    if k < 2 then [] else if k - 2 <= |calls| then calls[..k - 2] else calls
  }

  function ResultsAt(calls: seq<Chat.Call>, results: seq<string>, k: nat): (r: seq<string>)
    requires k <= 2 + |calls| + |results|
  {
    if k <= 2 + |calls| then [] else results[..k - 2 - |calls|]
  }

  function SaidAt(id: Id, text: string, calls: seq<Chat.Call>, results: seq<string>, k: nat): seq<Payload>
    requires |results| <= |calls| && k <= 2 + |calls| + |results|
  {
    if k == 0 then []
    else if k == 1 then [MessageStarted(id, Assistant)]
    else ReplyPayloads(id, text, CallsAt(calls, k), ResultsAt(calls, results, k))
  }

  function TurnId(t: Turn): Id {
    if t.Streaming? then t.id else if t.Calling? then t.id else Empty
  }

  ghost predicate At(s: State, s': State, text: string, calls: seq<Chat.Call>, results: seq<string>, k: nat)
    requires |results| <= |calls| && k <= 2 + |calls| + |results|
  {
    var id := TurnId(s'.turn);
    s'.turn == TurnAt(s.turn, id, calls, k) && Adds(s, s', SaidAt(id, text, calls, results, k))
  }

  /** What it logs, if it logs anything. */
  function MeanwhileEvent(s: State, op: Op): Option<Payload> {
    match op
    case OpSend(text, client) =>
      if Blank(text) then None else Some(MessageQueued(Minted(s.minted), text, client))
    case OpUpdateQueued(id, text, cancel) =>
      if InQueue(s.queue, id) then Some(QueuedMessageUpdated(id, text, cancel)) else None
    case OpAside(p) => if Aside(p) then Some(p) else None
    case OpAsk(title) => if RunningCall(s.turn) then Some(TaskStateChanged(Waiting, title)) else None
    case OpResume => if RunningCall(s.turn) then Some(TaskStateChanged(Working, "")) else None
    case _ => None
  }

  /** The step logs that and nothing else, and the turn goes on. */
  predicate Logs(s: State, s': State, p: Option<Payload>) {
    && s'.turn == s.turn && s'.log == (if p.None? then s.log else Append(s, p.value).log)
    && s'.tree == (if p.None? then s.tree else Append(s, p.value).tree)
    && s'.info == (if p.None? then s.info else Append(s, p.value).info)
  }

  lemma SendLogs(s: State, text: string, client: string)
    requires s.turn != NoTurn
    ensures Logs(s, Send(s, text, client).0, MeanwhileEvent(s, OpSend(text, client)))
  {
    hide Blank, Recorded, Added;
  }

  lemma UpdateLogs(s: State, id: Id, text: string, cancel: bool)
    ensures Logs(s, UpdateQueued(s, id, text, cancel).0, MeanwhileEvent(s, OpUpdateQueued(id, text, cancel)))
  {
    hide InQueue, Edited, Recorded, Added;
  }

  lemma MeanwhileLogs(s: State, op: Op)
    requires s.turn != NoTurn && Meanwhile(op)
    ensures Logs(s, Apply(s, op), MeanwhileEvent(s, op))
  {
    hide Send, UpdateQueued, Edited, Blank, HistoryOf, Compact.ChosenCut, Recorded, Added, PathOf, InQueue;
    match op {
      case OpSend(text, client) => SendLogs(s, text, client);
      case OpUpdateQueued(id, text, cancel) => UpdateLogs(s, id, text, cancel);
      case _ =>
    }
  }

  lemma MeanwhileSays(s: State, op: Op)
    ensures var p := MeanwhileEvent(s, op);
            p.Some? ==> !HistoryKind(p.value) && !p.value.BranchCreated? && !p.value.BranchSwitched?
  {
    hide Blank, InQueue;
  }

  lemma MeanwhileStays(s: State, op: Op)
    requires Base(s) && s.turn != NoTurn && Meanwhile(op)
    ensures Apply(s, op).turn == s.turn && Adds(s, Apply(s, op), [])
  {
    hide Base, Adds, Apply, Append, MeanwhileEvent;
    var s', p := Apply(s, op), MeanwhileEvent(s, op);
    MeanwhileLogs(s, op);
    MeanwhileSays(s, op);
    if p.None? {
      AddsNothing(s, s');
    } else {
      OneLogged(s, s', p.value);
    }
  }

  /** One event logged, and whatever else is no part of the history. */
  lemma OneLogged(s: State, s': State, p: Payload)
    requires Base(s) && !p.BranchCreated? && !p.BranchSwitched?
    requires s'.log == Append(s, p).log && s'.tree == Append(s, p).tree && s'.info == Append(s, p).info
    ensures Adds(s, s', if HistoryKind(p) then [p] else [])
  {
    hide Base, Adds, HistoryKind;
    LoggedAdds(s, p);
    AddsNothing(Append(s, p), s');
    AddsOnly(s, Append(s, p), s', if HistoryKind(p) then [p] else []);
  }

  // ---- The reply's own steps ----

  lemma SaidNext(id: Id, text: string, calls: seq<Chat.Call>, results: seq<string>, k: nat, p: Payload)
    requires |results| <= |calls| && k < 2 + |calls| + |results|
    requires k == 0 ==> p == MessageStarted(id, Assistant)
    requires k == 1 ==> p == MessageDone(id, text)
    requires 2 <= k < 2 + |calls| ==>
               p == ToolCallStarted(id, calls[k - 2].id, calls[k - 2].name, calls[k - 2].arguments)
    requires k >= 2 + |calls| ==>
               p == ToolCallDone(calls[k - 2 - |calls|].id, results[k - 2 - |calls|])
    ensures SaidAt(id, text, calls, results, k + 1) == SaidAt(id, text, calls, results, k) + [p]
  {
    hide ReplyPayloads;
    if k >= 2 + |calls| {
      var j := k - 2 - |calls|;
      assert calls[..|calls|] == calls;
      ResultSaid(id, text, calls, results[..j], results[j]);
      assert results[..j + 1] == results[..j] + [results[j]] && results[..0] == [];
    } else if k >= 2 {
      var j := k - 2;
      CallSaid(id, text, calls[..j], calls[j]);
      assert calls[..j + 1] == calls[..j] + [calls[j]];
    } else if k == 1 {
      assert calls[..0] == [];
      TextSaid(id, text);
    }
  }

  lemma TextSaid(id: Id, text: string)
    ensures ReplyPayloads(id, text, [], []) == [MessageStarted(id, Assistant), MessageDone(id, text)]
  {
  }

  lemma CallSaid(id: Id, text: string, calls: seq<Chat.Call>, c: Chat.Call)
    ensures ReplyPayloads(id, text, calls + [c], []) ==
            ReplyPayloads(id, text, calls, []) + [ToolCallStarted(id, c.id, c.name, c.arguments)]
  {
    assert (calls + [c])[..|calls|] == calls;
  }

  lemma ResultSaid(id: Id, text: string, calls: seq<Chat.Call>, results: seq<string>, result: string)
    requires |results| < |calls|
    ensures ReplyPayloads(id, text, calls, results + [result]) ==
            ReplyPayloads(id, text, calls, results) + [ToolCallDone(calls[|results|].id, result)]
  {
    assert (results + [result])[..|results|] == results;
  }

  /** The event a reply's step logs, in a turn that has got so far. */
  function StepEvent(t: Turn, op: Op, minted: nat): Payload
    requires ReplyStep(op) && (op.OpStartCall? ==> t.Calling? && t.started < |t.calls|)
    requires (op.OpEndReply? ==> t.Streaming?) && (op.OpEndCall? ==> t.Calling? && t.answered < |t.calls|)
  {
    match op
    case OpStartReply => MessageStarted(Minted(minted), Assistant)
    case OpEndReply(text, _) => MessageDone(t.id, text)
    case OpStartCall =>
      ToolCallStarted(t.id, t.calls[t.started].id, t.calls[t.started].name, t.calls[t.started].arguments)
    case OpEndCall(result) => ToolCallDone(t.calls[t.answered].id, result)
  }

  /** What a reply's step makes of a turn that has got so far. */
  lemma StepLogs(s: State, op: Op)
    requires match op
             case OpStartReply => s.turn.Ready?
             case OpEndReply(_, _) => s.turn.Streaming?
             case OpStartCall => s.turn.Calling? && s.turn.started < |s.turn.calls|
             case OpEndCall(_) =>
               s.turn.Calling? && s.turn.started == |s.turn.calls| && s.turn.answered < |s.turn.calls|
             case _ => false
    ensures var s', p := Apply(s, op), StepEvent(s.turn, op, s.minted);
            && s'.log == Append(s, p).log && s'.tree == Append(s, p).tree && s'.info == Append(s, p).info
            && s'.turn == match op
                          case OpStartReply => Streaming(Minted(s.minted))
                          case OpEndReply(_, calls) => Calling(s.turn.id, calls, 0, 0)
                          case OpStartCall => s.turn.(started := s.turn.started + 1)
                          case OpEndCall(_) => s.turn.(answered := s.turn.answered + 1)
                          case _ => s.turn
  {
    hide Recorded, Added;
  }

  lemma NextReplyStep(s: State, s': State, text: string, calls: seq<Chat.Call>, results: seq<string>, k: nat)
    requires |results| <= |calls| && k < 2 + |calls| + |results| && At(s, s', text, calls, results, k)
    requires s.turn.Ready? && Base(s')
    ensures At(s, Apply(s', Script(text, calls, results)[k]), text, calls, results, k + 1)
  {
    hide Base, Adds, SaidAt, Apply, Append;
    var op := Script(text, calls, results)[k];
    var s2, p := Apply(s', op), StepEvent(s'.turn, op, s'.minted);
    var id := TurnId(s2.turn);
    StepLogs(s', op);
    assert s2.turn == TurnAt(s.turn, id, calls, k + 1);
    OneLogged(s', s2, p);
    if k == 0 {
      NothingSaid(TurnId(s'.turn), id, text, calls, results);
    }
    SaidNext(id, text, calls, results, k, p);
    AddsTwice(s, s', s2, SaidAt(id, text, calls, results, k), [p]);
  }

  lemma NothingSaid(a: Id, b: Id, text: string, calls: seq<Chat.Call>, results: seq<string>)
    requires |results| <= |calls|
    ensures SaidAt(a, text, calls, results, 0) == SaidAt(b, text, calls, results, 0)
  {
  }

  lemma MeanwhileAt(s: State, s': State, op: Op, text: string, calls: seq<Chat.Call>, results: seq<string>, k: nat)
    requires |results| <= |calls| && k <= 2 + |calls| + |results| && At(s, s', text, calls, results, k)
    requires s.turn.Ready? && Base(s') && Meanwhile(op)
    ensures At(s, Apply(s', op), text, calls, results, k)
  {
    hide Base, Adds, SaidAt, Apply;
    MeanwhileStays(s', op);
    AddsOnly(s, s', Apply(s', op), SaidAt(TurnId(s'.turn), text, calls, results, k));
  }

  // ---- Any number of steps ----

  predicate Prefix(a: seq<Op>, b: seq<Op>) {
    |a| <= |b| && a == b[..|a|]
  }

  lemma {:induction false} SoFar(info: Info, ops: seq<Op>, mid: seq<Op>, s': State, text: string,
                                 calls: seq<Chat.Call>, results: seq<string>)
    requires |results| <= |calls| && Undisturbed(mid) && Prefix(ReplySteps(mid), Script(text, calls, results))
    requires Reached(info, ops + mid, s') && Run(info, ops).turn.Ready?
    ensures At(Run(info, ops), s', text, calls, results, |ReplySteps(mid)|)
  {
    hide Run, Apply, At, Core, Base, Script;
    var s := Run(info, ops);
    if mid == [] {
      assert ops + mid == ops;
      AtFirst(s, text, calls, results);
    } else {
      var init, op := mid[..|mid| - 1], mid[|mid| - 1];
      assert ops + mid == (ops + init) + [op];
      var s1 := Run(info, ops + init);
      LastStep(info, ops + init, op, s1, s');
      assert ReplySteps(init) == ReplySteps(mid)[..|ReplySteps(init)|];
      SoFar(info, ops, init, s1, text, calls, results);
      if ReplyStep(op) {
        assert Script(text, calls, results)[|ReplySteps(init)|] == op;
        NextReplyStep(s, s1, text, calls, results, |ReplySteps(init)|);
      } else {
        MeanwhileAt(s, s1, op, text, calls, results, |ReplySteps(init)|);
      }
    }
  }

  lemma AtFirst(s: State, text: string, calls: seq<Chat.Call>, results: seq<string>)
    requires |results| <= |calls|
    ensures At(s, s, text, calls, results, 0)
  {
    AddsNothing(s, s);
  }

  lemma ReplyGoesOn(info: Info, ops: seq<Op>, mid: seq<Op>, s: State, s': State, text: string,
                    calls: seq<Chat.Call>, results: seq<string>)
    requires |results| <= |calls| && Undisturbed(mid) && ReplySteps(mid) == Script(text, calls, results)
    requires Reached(info, ops + mid, s') && s == Run(info, ops) && s.turn.Ready?
    ensures s'.turn.Calling? && s'.turn == Calling(s'.turn.id, calls, |calls|, |results|)
    ensures GoesOn(s, s', ReplyPayloads(s'.turn.id, text, calls, results))
  {
    hide Run, Apply, Core, Base, Adds, Script, GoesOn, ReplyPayloads;
    assert (ops + mid)[..|ops|] == ops;
    SoFar(info, ops, mid, s', text, calls, results);
    ReachedEarlier(info, ops + mid, s', |ops|);
    ReachedCore(info, ops, s);
    ReachedCore(info, ops + mid, s');
    assert calls[..|calls|] == calls && results[..|results|] == results;
    AddsGoesOn(s, s', ReplyPayloads(s'.turn.id, text, calls, results));
  }

  /** A reply whose calls have all had their results is shown with its text, its
      calls as the model made them and their results under their ids, after all
      that was shown before: whatever else happened while it came in. */
  lemma ReplySaid(info: Info, ops: seq<Op>, mid: seq<Op>, s: State, s': State, text: string,
                  calls: seq<Chat.Call>, results: seq<string>)
    requires |results| == |calls| && Undisturbed(mid) && ReplySteps(mid) == Script(text, calls, results)
    requires Reached(info, ops + mid, s') && s == Run(info, ops) && s.turn.Ready?
    ensures s'.turn.Calling? && s'.turn == Calling(s'.turn.id, calls, |calls|, |calls|)
    ensures GoesOn(s, s', ReplyPayloads(s'.turn.id, text, calls, results))
    ensures Chatted(s') == Chatted(s) + ReplyMsgs(text, calls, results)
  {
    hide Run, Reached, Script, ReplyPayloads, HistoryOf, Chat.Messages, ReplyMsgs, Undisturbed, ReplySteps;
    ReplyGoesOn(info, ops, mid, s, s', text, calls, results);
    var h, h' := ActiveHistory(s), ActiveHistory(s');
    ReplyShown(h, h'[|h|..], s'.turn.id, text, calls, results);
    assert h' == h + h'[|h|..];
  }

  /** One whose calls have not all had theirs yet is shown the same way, the
      missing ones as not run, when their ids are like no other. */
  lemma CutReplySaid(info: Info, ops: seq<Op>, mid: seq<Op>, s: State, s': State, text: string,
                     calls: seq<Chat.Call>, results: seq<string>)
    requires |results| <= |calls| && Undisturbed(mid) && ReplySteps(mid) == Script(text, calls, results)
    requires Reached(info, ops + mid, s') && s == Run(info, ops) && s.turn.Ready?
    requires forall i :: |results| <= i < |calls| ==>
               NeverAnswered(ActiveHistory(s), calls[i].id) &&
               forall k :: 0 <= k < |results| ==> calls[k].id != calls[i].id
    ensures s'.turn.Calling? && s'.turn == Calling(s'.turn.id, calls, |calls|, |results|)
    ensures Chatted(s') == Chatted(s) + ReplyMsgs(text, calls, results) + NotRunMsgs(calls[|results|..])
  {
    hide Run, Reached, Script, ReplyPayloads, HistoryOf, Chat.Messages, ReplyMsgs, Undisturbed, ReplySteps, NotRunMsgs;
    ReplyGoesOn(info, ops, mid, s, s', text, calls, results);
    var h, h' := ActiveHistory(s), ActiveHistory(s');
    CutReplyShown(h, h'[|h|..], s'.turn.id, text, calls, results);
    assert h' == h + h'[|h|..];
  }
}
