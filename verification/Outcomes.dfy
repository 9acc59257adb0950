/** What comes of a fork, a switch, a restart and a whole reply; and what a
    session's row says. */
module Outcomes {
  import opened Events
  import opened Branches
  import opened Context
  import opened Model
  import opened Content
  import opened Histories
  import opened Conversations
  import opened Invariant
  import opened Turns
  import opened Forking
  import opened Live
  import opened Guarantees
  import opened Requests
  import opened Operations
  import Chat

  // ---- The row ----

  /** What an event sets the columns of a session's row to, if it does. */
  function TokensSet(p: Payload): Option<int> {
    match p
    case Usage(tokens, _) => Some(tokens)
    case CompactionDone(error, _, _, tokensAfter, _) => if error == "" then Some(tokensAfter) else None
    case _ => None
  }

  function LengthSet(p: Payload): Option<int> {
    match p
    case Usage(_, length) => Some(length)
    case ModelChanged(length) => Some(length)
    case _ => None
  }

  function StateSet(p: Payload): Option<TaskState> {
    if p.TaskStateChanged? then Some(p.state) else None
  }

  function RoleSet(p: Payload): Option<string> {
    if p.RoleChanged? then Some(p.sessionRole) else None
  }

  function BranchSet(p: Payload): Option<Id> {
    if p.BranchSwitched? then Some(p.branchId) else None
  }

  function RemovedSet(p: Payload): Option<bool> {
    if p.WorktreeRemoved? then Some(true) else None
  }

  /** A column holds what the last event that sets it set it to, or what it held
      at first. */
  ghost predicate Column<T>(log: seq<Event>, sets: Payload -> Option<T>, first: T, now: T) {
    ((forall i :: 0 <= i < |log| ==> sets(log[i].payload).None?) && now == first) ||
    exists i :: LastSet(log, sets, i, now)
  }

  ghost predicate LastSet<T>(log: seq<Event>, sets: Payload -> Option<T>, i: int, now: T) {
    && 0 <= i < |log| && sets(log[i].payload) == Some(now)
    && forall j :: i < j < |log| ==> sets(log[j].payload).None?
  }

  lemma ColumnSnoc<T>(log: seq<Event>, ev: Event, sets: Payload -> Option<T>, first: T, now: T)
    requires Column(log, sets, first, now)
    ensures Column(log + [ev], sets, first, if sets(ev.payload).Some? then sets(ev.payload).value else now)
  {
    var log' := log + [ev];
    if sets(ev.payload).Some? {
      assert LastSet(log', sets, |log|, sets(ev.payload).value);
    } else if !forall i :: 0 <= i < |log| ==> sets(log[i].payload).None? {
      var i :| LastSet(log, sets, i, now);
      assert LastSet(log', sets, i, now);
    }
  }

  ghost predicate Columns(log: seq<Event>, first: Info, now: Info) {
    && Column(log, TokensSet, first.tokens, now.tokens)
    && Column(log, LengthSet, first.contextLength, now.contextLength)
    && Column(log, StateSet, first.state, now.state)
    && Column(log, RoleSet, first.role, now.role)
    && Column(log, BranchSet, first.branch, now.branch)
    && Column(log, RemovedSet, first.worktreeRemoved, now.worktreeRemoved)
    && now.lastNo == if log == [] then first.lastNo else log[|log| - 1].no
  }

  lemma {:induction false} ColumnsOf(info: Info, log: seq<Event>)
    ensures Columns(log, info, RowOf(info, log))
  {
    hide Column;
    if log == [] {
      NoColumns(info);
    } else {
      var init, ev := log[..|log| - 1], log[|log| - 1];
      var row := RowOf(info, init);
      ColumnsOf(info, init);
      assert log == init + [ev];
      ColumnSnoc(init, ev, TokensSet, info.tokens, row.tokens);
      ColumnSnoc(init, ev, LengthSet, info.contextLength, row.contextLength);
      ColumnSnoc(init, ev, StateSet, info.state, row.state);
      ColumnSnoc(init, ev, RoleSet, info.role, row.role);
      ColumnSnoc(init, ev, BranchSet, info.branch, row.branch);
      ColumnSnoc(init, ev, RemovedSet, info.worktreeRemoved, row.worktreeRemoved);
    }
  }

  lemma NoColumns(info: Info)
    ensures Columns([], info, info)
  {
  }

  /** After any run, each column of the row holds what the last event that sets
      it set it to, and the live copy agrees. */
  lemma RowSaysLast(info: Info, ops: seq<Op>)
    requires New(info)
    ensures var s := Run(info, ops); Columns(s.log, info, s.row) && s.info == s.row
  {
    hide Run;
    RunReplays(info, ops);
    ColumnsOf(info, Run(info, ops).log);
  }

  // ---- Switching and restarting ----

  /** A switch, when no turn runs and the branch is there, shows that branch's
      conversation; otherwise nothing happens. */
  lemma SwitchShows(info: Info, ops: seq<Op>, id: Id, s: State, s': State)
    requires Reached(info, ops + [OpSwitch(id)], s') && s == Run(info, ops)
    ensures if s.turn != NoTurn || id !in s.tree.byID then s' == s
            else
              && s'.info.branch == id && ActiveHistory(s') == HistoryOf(s.log, s.tree, id)
              && s'.queue == s.queue && s'.turn == NoTurn && s'.tree == s.tree
              && s'.log == s.log + if id == s.info.branch then [] else [Event(|s.log| + 1, id, BranchSwitched(id))]
  {
    hide Run, Core, Base, HistoryOf, H;
    LastStep(info, ops, OpSwitch(id), s, s');
    if s.turn == NoTurn && id in s.tree.byID {
      CodeReadsBranch(s, id);
      CodeReadsActive(s');
      if id != s.info.branch {
        SwitchSame(s, id);
      }
    }
  }

  lemma SwitchSame(s: State, id: Id)
    requires Core(s) && id in s.tree.byID
    ensures var s' := Append(s, BranchSwitched(id));
            s'.info.branch == id && H(s', id) == H(s, id) && s'.tree == s.tree
  {
    hide Sound, H;
    SwitchSound(s, id);
  }

  /** A restart keeps the conversation, the branches and what waits; a session
      left in a turn is marked stuck, and one that was not is as it was. */
  lemma RestartKeeps(info: Info, ops: seq<Op>, s: State, s': State)
    requires Reached(info, ops + [OpRestart], s') && s == Run(info, ops)
    ensures GoesOn(s, s', []) && s'.queue == s.queue && s'.tree == s.tree && s'.turn == NoTurn
    ensures if s.turn == NoTurn then s'.log == s.log && s'.info == s.info
            else
              && s'.info.state == Stuck && |s'.log| == |s.log| + 1 && s'.log[..|s.log|] == s.log
              && s'.log[|s.log|].payload == TaskStateChanged(Stuck, "flit restarted during the turn")
  {
    hide Run, Core, Base, Adds, TreeOf, QueueOf, GoesOn;
    LastStep(info, ops, OpRestart, s, s');
    RunReplays(info, ops);
    LoadedSame(s, info);
    BaseIgnores(s, Loaded(s));
    if s.turn != NoTurn {
      AppendAdds(Loaded(s), TaskStateChanged(Stuck, "flit restarted during the turn"));
      AddsLater(s, Loaded(s), s', []);
    }
    AddsGoesOn(s, s', []);
  }

  lemma LoadedSame(s: State, info: Info)
    requires Replays(s, info)
    ensures var l := Loaded(s);
            l.log == s.log && l.row == s.row && l.info == s.info && l.tree == s.tree && l.queue == s.queue &&
            l.minted == s.minted
  {
  }

  // ---- Forking ----

  /** The whole user message id: it starts at a and ends at b. */
  predicate WholeUser(h: seq<Event>, id: Id, a: int, b: int) {
    && 0 <= a < b < |h| && h[a].payload == MessageStarted(id, User)
    && h[b].payload.MessageDone? && h[b].payload.messageId == id
  }

  lemma {:induction false} StartFound(h: seq<Event>, id: Id, a: nat)
    requires UniqueMessages(h) && a < |h| && h[a].payload.MessageStarted? && h[a].payload.messageId == id
    ensures StartOf(MessageLog(h), id) == Some(h[a])
  {
    var init := h[..|h| - 1];
    MessageLogSnoc(h);
    if a < |h| - 1 {
      UniqueFront(init, [h[|h| - 1]]);
      assert init + [h[|h| - 1]] == h;
      StartFound(init, id, a);
    }
  }

  lemma {:induction false} EndFound(h: seq<Event>, id: Id, b: nat)
    requires UniqueMessages(h) && b < |h| && h[b].payload.MessageDone? && h[b].payload.messageId == id
    ensures EndOf(MessageLog(h), id) == Some(h[b])
  {
    var init := h[..|h| - 1];
    MessageLogSnoc(h);
    if b < |h| - 1 {
      UniqueFront(init, [h[|h| - 1]]);
      assert init + [h[|h| - 1]] == h;
      EndFound(init, id, b);
    }
  }

  lemma MessageLogSnoc(h: seq<Event>)
    requires h != []
    ensures var init, ev, m := h[..|h| - 1], h[|h| - 1], MessageLog(h);
            if MessageKind(ev.payload) then m != [] && m[|m| - 1] == ev && m[..|m| - 1] == MessageLog(init)
            else m == MessageLog(init)
  {
  }

  lemma {:induction false} LoggedMessage(h: seq<Event>, ev: Event) returns (i: nat)
    requires ev in MessageLog(h)
    ensures i < |h| && h[i] == ev
  {
    var init := h[..|h| - 1];
    MessageLogSnoc(h);
    if ev == h[|h| - 1] {
      i := |h| - 1;
    } else {
      i := LoggedMessage(init, ev);
    }
  }

  /** The code finds a message to fork exactly when the history has it whole, and
      from the user. */
  lemma ForkLooksUp(h: seq<Event>, id: Id)
    requires UniqueMessages(h)
    ensures var started, ended := StartOf(MessageLog(h), id), EndOf(MessageLog(h), id);
            started.Some? && ended.Some? && started.value.payload.role == User <==>
            exists a, b :: WholeUser(h, id, a, b)
    ensures forall a, b :: WholeUser(h, id, a, b) ==>
              StartOf(MessageLog(h), id) == Some(h[a]) && EndOf(MessageLog(h), id) == Some(h[b])
  {
    hide UniqueMessages, StartOf, EndOf, MessageLog;
    var started, ended := StartOf(MessageLog(h), id), EndOf(MessageLog(h), id);
    if started.Some? && ended.Some? && started.value.payload.role == User {
      var a := LoggedMessage(h, started.value);
      var b := LoggedMessage(h, ended.value);
      assert WholeUser(h, id, a, b) by { StartsFirst(h, a, b); }
    }
    forall a, b | WholeUser(h, id, a, b)
      ensures StartOf(MessageLog(h), id) == Some(h[a]) && EndOf(MessageLog(h), id) == Some(h[b])
    {
      StartFound(h, id, a);
      EndFound(h, id, b);
    }
  }

  lemma StartsFirst(h: seq<Event>, a: nat, b: nat)
    requires UniqueMessages(h) && a < |h| && b < |h| && h[a].payload.MessageStarted? && h[b].payload.MessageDone?
    requires h[a].payload.messageId == h[b].payload.messageId
    ensures a < b
  {
  }

  /** The branch a fork makes has the active path's history up to the fork. */
  lemma ForkedHistory(s: State, started: Event, ended: Event, edit: bool)
    requires Sound(s) && |s.log| <= MAX_INT64 && started in PathMessages(s) && ended in PathMessages(s)
    requires started.payload.MessageStarted? && ended.payload.MessageDone?
    requires started.payload.messageId == ended.payload.messageId
    ensures var s1 := ForkBranch(s, started, ended, edit);
            && Base(s1) && s1.info.branch == Minted(s.minted) && s1.minted == s.minted + 1 && s1.queue == s.queue
            && Active(s1) == UpTo(Active(s), if edit then started.no - 1 else ended.no)
  {
    hide Base, AllGood, H, PathMessages, MayFork, Branched, UpTo, OnPath, WellFormed;
    var parent, cap := started.branch, if edit then started.no - 1 else ended.no;
    ForkPoint(s, started, ended);
    ParentAgrees(s, parent, cap);
    ParentHistory(s, parent, cap);
    BranchedSound(s, parent, cap, if edit then Edit else Retry, started.payload.messageId);
    BranchedCounts(s, parent, cap, if edit then Edit else Retry, started.payload.messageId);
  }

  lemma BranchedCounts(s: State, parent: Id, forkSeq: int, kind: BranchKind, messageId: Id)
    ensures var s' := Branched(s, parent, forkSeq, kind, messageId);
            s'.info.branch == Minted(s.minted) && s'.minted == s.minted + 1 && s'.queue == s.queue
  {
  }

  lemma ParentHistory(s: State, parent: Id, cap: int)
    requires Sound(s) && MayFork(s, parent, cap) && s.info.branch in s.tree.byID
    requires UpTo(Conversation(s.log, s.tree, s.info.branch), cap) == UpTo(Conversation(s.log, s.tree, parent), cap)
    ensures UpTo(Active(s), cap) == UpTo(H(s, parent), cap)
  {
    hide UpTo, HistoryEvents, Conversation, AllGood, WellFormed;
    HistoryTo(s, s.info.branch, cap);
    HistoryTo(s, parent, cap);
  }

  lemma HistoryTo(s: State, b: Id, cap: int)
    requires Base(s) && b in s.tree.byID
    ensures UpTo(H(s, b), cap) == HistoryEvents(UpTo(Conversation(s.log, s.tree, b), cap))
  {
    ConversationWithin(s.log, s.tree, b);
    NumberedIncreases(s.log);
    HistoryEventsUpTo(Conversation(s.log, s.tree, b), cap);
  }

  lemma UpToAt(h: seq<Event>, a: nat)
    requires Increasing(h) && a < |h|
    ensures UpTo(h, h[a].no - 1) == h[..a] && UpTo(h, h[a].no) == h[..a + 1]
  {
    CoveringIs(h, h[a].no - 1, a);
    CoveringIs(h, h[a].no, a + 1);
  }

  lemma ActiveUnique(s: State)
    requires Core(s)
    ensures UniqueMessages(Active(s)) && Increasing(Active(s)) && Sound(s)
  {
    GoodAt(s, s.info.branch);
  }

  /** What a fork makes of history h with the whole user message from a to b: up
      to the message and the new text in its place, or the message included; a
      turn is started to answer it. */
  predicate ForkedTo(h: seq<Event>, a: int, b: int, id: Id, text: string, edit: bool, s': State)
    requires 0 <= a < b < |h|
  {
    var n, h' := if edit then a else b + 1, ActiveHistory(s');
    && n <= |h'| && h'[..n] == h[..n] && Payloads(h'[n..]) == (if edit then UserPayloads(id, text) else [])
    && Chatted(s') == Chat.Messages(h[..n]) + (if edit then [Chat.UserMsg(text)] else [])
    && Begun(s') && s'.queue == []
  }

  /** A fork of a message is made exactly when no turn runs, nothing waits and
      the active path holds the message whole, from the user; otherwise nothing
      happens. */
  lemma ForkSays(info: Info, ops: seq<Op>, messageId: Id, text: string, edit: bool, s: State, s': State)
    requires Reached(info, ops + [OpFork(messageId, text, edit)], s') && s == Run(info, ops)
    ensures var h := ActiveHistory(s);
            if s.turn == NoTurn && s.queue == [] && exists a, b :: WholeUser(h, messageId, a, b) then
              s'.info.branch == Minted(s.minted) &&
              forall a, b :: WholeUser(h, messageId, a, b) ==>
                ForkedTo(h, a, b, Minted(s.minted + 1), text, edit, s')
            else s' == s
  {
    hide Run, Core, HistoryOf, H, ForkBranch, AppendUser, StartTurn, UniqueMessages, StartOf, EndOf, MessageLog,
      Filtered, PathOf, ForkedTo;
    var h := ActiveHistory(s);
    LastStep(info, ops, OpFork(messageId, text, edit), s, s');
    ActiveUnique(s);
    CodeReadsActive(s);
    PathMessagesAre(s);
    ForkLooksUp(h, messageId);
    if s.turn == NoTurn && s.queue == [] && exists a, b :: WholeUser(h, messageId, a, b) {
      forall a, b | WholeUser(h, messageId, a, b)
        ensures ForkedTo(h, a, b, Minted(s.minted + 1), text, edit, s') && s'.info.branch == Minted(s.minted)
      {
        ForkedAt(s, messageId, text, edit, a, b, s');
      }
    }
  }

  lemma ForkedAt(s: State, messageId: Id, text: string, edit: bool, a: nat, b: nat, s': State)
    requires Core(s) && Core(s') && |s.log| <= MAX_INT64 && |s'.log| <= MAX_INT64
    requires s' == Fork(s, messageId, text, edit).0 && s.turn == NoTurn && s.queue == []
    requires WholeUser(ActiveHistory(s), messageId, a, b)
    requires StartOf(PathMessages(s), messageId) == Some(ActiveHistory(s)[a])
    requires EndOf(PathMessages(s), messageId) == Some(ActiveHistory(s)[b])
    ensures ForkedTo(ActiveHistory(s), a, b, Minted(s.minted + 1), text, edit, s')
    ensures s'.info.branch == Minted(s.minted)
  {
    hide Core, HistoryOf, H, ForkBranch, AppendUser, StartTurn, UniqueMessages, MessageLog, Filtered, PathOf, Base,
      Adds, Begun, Sound, ForkedTo;
    var h := ActiveHistory(s);
    var started, ended := h[a], h[b];
    ActiveUnique(s);
    CodeReadsActive(s);
    UpToAt(h, a);
    UpToAt(h, b);
    ForkedHistory(s, started, ended, edit);
    var s1 := ForkBranch(s, started, ended, edit);
    var s2 := if edit then AppendUser(s1, text) else s1;
    var ps := if edit then UserPayloads(Minted(s.minted + 1), text) else [];
    if edit {
      UserAdds(s1, text);
      UserQueue(s1, text);
    } else {
      BaseIgnores(s1, s1);
    }
    StartTurnAdds(s2);
    TurnBegun(s2);
    AddsOnly(s1, s2, s', ps);
    CodeReadsActive(s');
    ForkedShown(s, s1, s', h, a, b, Minted(s.minted + 1), text, edit);
  }

  lemma ForkedShown(s: State, s1: State, s': State, h: seq<Event>, a: nat, b: nat, id: Id, text: string, edit: bool)
    requires a < b < |h| && Active(s1) == (if edit then h[..a] else h[..b + 1]) && Active(s') == ActiveHistory(s')
    requires Adds(s1, s', if edit then UserPayloads(id, text) else []) && Begun(s') && s'.queue == []
    ensures ForkedTo(h, a, b, id, text, edit, s') && s'.info.branch == s1.info.branch
  {
    hide HistoryOf, H, Begun, Chat.Messages;
    var n, h' := if edit then a else b + 1, ActiveHistory(s');
    assert h' == h[..n] + h'[n..];
    if edit {
      UserShown(h[..n], h'[n..], id, text);
    } else {
      assert h' == h[..n];
    }
  }

  /** The fork's branch is logged, under the branch its message is on and from
      the number it leaves it at, and then the switch to it. */
  lemma ForkLogged(info: Info, ops: seq<Op>, messageId: Id, text: string, edit: bool, s: State, s': State, a: int,
                   b: int)
    requires Reached(info, ops + [OpFork(messageId, text, edit)], s') && s == Run(info, ops)
    requires s.turn == NoTurn && s.queue == [] && WholeUser(ActiveHistory(s), messageId, a, b)
    ensures var h, id := ActiveHistory(s), Minted(s.minted);
            && |s.log| + 1 < |s'.log| && s'.log[..|s.log|] == s.log && s'.log[|s.log| + 1].payload == BranchSwitched(id)
            && s'.log[|s.log|].payload ==
               if edit then BranchCreated(id, h[a].branch, h[a].no - 1, Edit, messageId)
               else BranchCreated(id, h[a].branch, h[b].no, Retry, messageId)
  {
    hide Run, Core, HistoryOf, StartOf, EndOf, Fork, PathMessages, Base;
    var h := ActiveHistory(s);
    LastStep(info, ops, OpFork(messageId, text, edit), s, s');
    WholeFound(s, messageId, a, b);
    ForkedLogs(s, messageId, text, edit, h[a], h[b], s');
  }

  lemma WholeFound(s: State, id: Id, a: int, b: int)
    requires Core(s) && |s.log| <= MAX_INT64 && WholeUser(ActiveHistory(s), id, a, b)
    ensures var h := ActiveHistory(s);
            StartOf(PathMessages(s), id) == Some(h[a]) && EndOf(PathMessages(s), id) == Some(h[b])
  {
    hide Core, HistoryOf, H, UniqueMessages, StartOf, EndOf, MessageLog, Filtered, PathOf, Sound;
    var h := ActiveHistory(s);
    ActiveUnique(s);
    CodeReadsActive(s);
    PathMessagesAre(s);
    StartFound(h, id, a);
    EndFound(h, id, b);
  }

  lemma ForkedLogs(s: State, messageId: Id, text: string, edit: bool, started: Event, ended: Event, s': State)
    requires s' == Fork(s, messageId, text, edit).0 && s.turn == NoTurn && s.queue == []
    requires StartOf(PathMessages(s), messageId) == Some(started) && EndOf(PathMessages(s), messageId) == Some(ended)
    requires started.payload == MessageStarted(messageId, User)
    ensures var id := Minted(s.minted);
            && |s.log| + 1 < |s'.log| && s'.log[..|s.log|] == s.log && s'.log[|s.log| + 1].payload == BranchSwitched(id)
            && s'.log[|s.log|].payload ==
               if edit then BranchCreated(id, started.branch, started.no - 1, Edit, messageId)
               else BranchCreated(id, started.branch, ended.no, Retry, messageId)
  {
    hide StartOf, EndOf, MessageLog, Filtered, PathOf, AppendUser, StartTurn, Branched;
    var s1 := ForkBranch(s, started, ended, edit);
    BranchedLog(s, started.branch, started.no - 1, Edit, messageId);
    BranchedLog(s, started.branch, ended.no, Retry, messageId);
    AnsweredLog(s1, text);
    LogsAgree(s, s1, s');
  }

  lemma BranchedLog(s: State, parent: Id, forkSeq: int, kind: BranchKind, messageId: Id)
    ensures var s', id := Branched(s, parent, forkSeq, kind, messageId), Minted(s.minted);
            && |s'.log| == |s.log| + 2 && s'.log[..|s.log|] == s.log
            && s'.log[|s.log|].payload == BranchCreated(id, parent, forkSeq, kind, messageId)
            && s'.log[|s.log| + 1].payload == BranchSwitched(id)
  {
  }

  lemma AnsweredLog(s: State, text: string)
    ensures Longer(s, StartTurn(s)) && Longer(s, StartTurn(AppendUser(s, text)))
  {
  }

  lemma LogsAgree(s: State, s1: State, s': State)
    requires |s1.log| == |s.log| + 2 && s1.log[..|s.log|] == s.log && Longer(s1, s')
    ensures |s'.log| >= |s1.log| && s'.log[..|s.log|] == s.log
    ensures s'.log[|s.log|] == s1.log[|s.log|] && s'.log[|s.log| + 1] == s1.log[|s.log| + 1]
  {
    assert s'.log[..|s1.log|][..|s.log|] == s'.log[..|s.log|];
    assert s'.log[|s.log|] == s'.log[..|s1.log|][|s.log|];
  }
}
