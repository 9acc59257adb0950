/** The live session is what its log says: everything kept beside the log can
    be rebuilt from it, and no operation rewrites it. */
module Live {
  import opened Events
  import opened Branches
  import opened Model

  /** The row a log records. */
  function RowOf(info: Info, log: seq<Event>): Info {
    if log == [] then info else Recorded(RowOf(info, log[..|log| - 1]), log[|log| - 1])
  }

  /** All but the queue. */
  ghost predicate Matches(s: State, info: Info) {
    && s.row == RowOf(info, s.log) && s.info == s.row && s.info.lastNo == |s.log|
    && s.tree == TreeOf(s.log) && Numbered(s.log)
  }

  /** What a restart would load is what the session has. */
  ghost predicate Replays(s: State, info: Info) {
    Matches(s, info) && s.queue == QueueOf(s.log)
  }

  predicate Busy(state: TaskState) {
    state == Working || state == Waiting
  }

  /** A turn is running exactly when the logged state says so. */
  predicate TurnLogged(s: State) {
    s.turn != NoTurn <==> Busy(s.info.state)
  }

  /** Nothing logged is ever rewritten, and while the active branch stays
      b everything new is logged on it. */
  ghost predicate Extends(s: State, s': State, b: Id) {
    && |s.log| <= |s'.log| && s'.log[..|s.log|] == s.log
    && (forall i :: |s.log| <= i < |s'.log| ==> s'.log[i].branch == b)
    && s'.info.branch == b
  }

  ghost predicate Longer(s: State, s': State) {
    |s.log| <= |s'.log| && s'.log[..|s.log|] == s.log
  }

  // ---- Appending ----

  lemma AppendMatches(s: State, info: Info, p: Payload)
    requires Matches(s, info)
    ensures Matches(Append(s, p), info)
    ensures QueueOf(Append(s, p).log) == QueueAfter(QueueOf(s.log), p)
  {
    assert Append(s, p).log[..|s.log|] == s.log;
  }

  lemma AppendReplays(s: State, info: Info, p: Payload)
    requires Replays(s, info) && !p.MessageQueued? && !p.QueuedMessageUpdated? && !p.QueuedMessageDelivered?
    ensures Replays(Append(s, p), info)
  {
    AppendMatches(s, info, p);
  }

  lemma AppendExtends(s: State, p: Payload)
    ensures Longer(s, Append(s, p))
    ensures !p.BranchSwitched? ==> Extends(s, Append(s, p), s.info.branch)
  {
  }

  lemma ExtendsTwice(s: State, s1: State, s2: State, b: Id)
    requires Extends(s, s1, b) && Extends(s1, s2, b)
    ensures Extends(s, s2, b)
  {
    assert s2.log[..|s.log|] == s2.log[..|s1.log|][..|s.log|];
    forall i | |s.log| <= i < |s1.log| ensures s2.log[i].branch == b {
      assert s2.log[..|s1.log|][i] == s1.log[i];
    }
  }

  lemma LongerTwice(s: State, s1: State, s2: State)
    requires Longer(s, s1) && Longer(s1, s2)
    ensures Longer(s, s2)
  {
    assert s2.log[..|s.log|] == s2.log[..|s1.log|][..|s.log|];
  }

  // ---- User messages and the queue ----

  /** The live session still replays, and only what is said was logged. */
  ghost predicate Follows(s: State, s': State, info: Info) {
    && Replays(s', info) && Extends(s, s', s.info.branch) && s'.info.branch == s.info.branch
    && s'.turn == s.turn && s'.info.state == s.info.state
  }

  lemma UserMessageFollows(s: State, info: Info, id: Id, text: string)
    requires Replays(s, info)
    ensures Follows(s, AppendUserMessage(s, id, text), info) && AppendUserMessage(s, id, text).queue == s.queue
  {
    hide Replays, Extends;
    var s1 := Append(s, MessageStarted(id, User));
    var s2 := Append(s1, TextDelta(id, text));
    AppendReplays(s, info, MessageStarted(id, User));
    AppendReplays(s1, info, TextDelta(id, text));
    AppendReplays(s2, info, MessageDone(id, text));
    AppendExtends(s, MessageStarted(id, User));
    AppendExtends(s1, TextDelta(id, text));
    AppendExtends(s2, MessageDone(id, text));
    ExtendsTwice(s, s1, s2, s.info.branch);
    ExtendsTwice(s, s2, Append(s2, MessageDone(id, text)), s.info.branch);
  }

  lemma UserFollows(s: State, info: Info, text: string)
    requires Replays(s, info)
    ensures Follows(s, AppendUser(s, text), info) && AppendUser(s, text).queue == s.queue
  {
    hide RowOf, QueueOf, TreeOf, AppendUserMessage;
    UserMessageFollows(Mint(s), info, Minted(s.minted), text);
  }

  lemma DeliverOneFollows(s: State, info: Info)
    requires Replays(s, info) && s.queue != []
    ensures Follows(s, DeliverOne(s), info)
  {
    var q, id := s.queue[0], Minted(s.minted);
    var p := QueuedMessageDelivered(q.id, id);
    var s1 := Append(Mint(s), p);
    AppendMatches(Mint(s), info, p);
    AppendExtends(Mint(s), p);
    var s2 := s1.(queue := s1.queue[1..]);
    assert Replays(s2, info);
    UserMessageFollows(s2, info, id, q.text);
    assert AppendUserMessage(s2, id, q.text).queue == s2.queue;
    hide Replays, Matches;
    SameMessages(s1, s2, id, q.text);
    assert DeliverOne(s) == AppendUserMessage(s2, id, q.text);
    ExtendsTwice(s, s1, DeliverOne(s), s.info.branch);
  }

  lemma SameMessages(s1: State, s2: State, id: Id, text: string)
    requires s2 == s1.(queue := s2.queue)
    ensures AppendUserMessage(s2, id, text) == AppendUserMessage(s1, id, text).(queue := s2.queue)
  {
  }

  lemma {:induction false} DeliverFollows(s: State, info: Info)
    requires Replays(s, info)
    ensures Follows(s, Deliver(s), info)
    decreases |s.queue|
  {
    if s.queue != [] {
      hide Replays, Extends, DeliverOne;
      DeliverOneFollows(s, info);
      DeliverFollows(DeliverOne(s), info);
      ExtendsTwice(s, DeliverOne(s), Deliver(s), s.info.branch);
    } else {
      assert s.log[..|s.log|] == s.log;
    }
  }

  // ---- Turns ----

  /** One append and what it leaves of the turn. */
  lemma StateChange(s: State, s': State, info: Info, state: TaskState, reason: string)
    requires Replays(s, info)
    requires var s1 := Append(s, TaskStateChanged(state, reason));
             s'.log == s1.log && s'.row == s1.row && s'.info == s1.info && s'.tree == s1.tree && s'.queue == s1.queue
    ensures Replays(s', info) && Extends(s, s', s.info.branch) && s'.info.state == state
    ensures s'.info.branch == s.info.branch
  {
    AppendReplays(s, info, TaskStateChanged(state, reason));
    AppendExtends(s, TaskStateChanged(state, reason));
  }

  lemma StartTurnReplays(s: State, info: Info)
    requires Replays(s, info)
    ensures Replays(StartTurn(s), info) && Extends(s, StartTurn(s), s.info.branch) && TurnLogged(StartTurn(s))
  {
    hide Replays, Extends;
    StateChange(s, StartTurn(s), info, Working, "");
  }

  lemma StartCompactionReplays(s: State, info: Info)
    requires Replays(s, info)
    ensures Replays(StartCompaction(s), info) && Extends(s, StartCompaction(s), s.info.branch) &&
            TurnLogged(StartCompaction(s))
  {
    hide Replays, Extends;
    StateChange(s, StartCompaction(s), info, Working, "compacting");
  }

  /** A step that keeps the active branch. */
  ghost predicate Stays(s: State, s': State, info: Info) {
    Replays(s', info) && Extends(s, s', s.info.branch) && TurnLogged(s')
  }

  lemma StaysSame(s: State, s': State, info: Info)
    requires Replays(s, info) && TurnLogged(s)
    requires s'.log == s.log && s'.row == s.row && s'.info == s.info && s'.tree == s.tree && s'.queue == s.queue
    requires s'.turn == NoTurn <==> s.turn == NoTurn
    ensures Stays(s, s', info)
  {
    assert s.log[..|s.log|] == s.log;
  }

  lemma StaysAppend(s: State, s': State, info: Info, p: Payload)
    requires Replays(s, info) && TurnLogged(s) && !p.MessageQueued? && !p.QueuedMessageUpdated? &&
             !p.QueuedMessageDelivered?
    requires !p.BranchSwitched? && !p.TaskStateChanged?
    requires s'.log == Append(s, p).log && s'.row == Append(s, p).row && s'.info == Append(s, p).info &&
             s'.tree == Append(s, p).tree
    requires s'.queue == s.queue && (s'.turn == NoTurn <==> s.turn == NoTurn)
    ensures Stays(s, s', info)
  {
    AppendReplays(s, info, p);
    AppendExtends(s, p);
  }

  lemma SendStays(s: State, info: Info, text: string, client: string)
    requires Replays(s, info) && TurnLogged(s)
    ensures Stays(s, Send(s, text, client).0, info)
  {
    if s.turn != NoTurn {
      SendQueues(s, info, text, client);
    } else if !Blank(text) || s.queue != [] {
      SendStarts(s, info, text, client);
    } else {
      StaysSame(s, s, info);
    }
  }

  lemma SendQueues(s: State, info: Info, text: string, client: string)
    requires Replays(s, info) && TurnLogged(s) && s.turn != NoTurn
    ensures Stays(s, Send(s, text, client).0, info)
  {
    var p := MessageQueued(Minted(s.minted), text, client);
    if Blank(text) {
      StaysSame(s, s, info);
    } else {
      AppendMatches(Mint(s), info, p);
      AppendExtends(Mint(s), p);
    }
  }

  lemma SendStarts(s: State, info: Info, text: string, client: string)
    requires Replays(s, info) && TurnLogged(s) && s.turn == NoTurn && (!Blank(text) || s.queue != [])
    ensures Stays(s, Send(s, text, client).0, info)
  {
    hide Replays, Extends, TurnLogged, Blank, Deliver, AppendUser, StartTurn;
    var s1 := Deliver(s);
    DeliverFollows(s, info);
    if Blank(text) {
      StartTurnReplays(s1, info);
      ExtendsTwice(s, s1, StartTurn(s1), s.info.branch);
    } else {
      var s2 := AppendUser(s1, text);
      UserFollows(s1, info, text);
      StartTurnReplays(s2, info);
      ExtendsTwice(s, s1, s2, s.info.branch);
      ExtendsTwice(s, s2, StartTurn(s2), s.info.branch);
    }
  }

  lemma UpdateQueuedStays(s: State, info: Info, id: Id, text: string, cancel: bool)
    requires Replays(s, info) && TurnLogged(s)
    ensures Stays(s, UpdateQueued(s, id, text, cancel).0, info)
  {
    if InQueue(s.queue, id) {
      AppendMatches(s, info, QueuedMessageUpdated(id, text, cancel));
      AppendExtends(s, QueuedMessageUpdated(id, text, cancel));
    } else {
      StaysSame(s, s, info);
    }
  }

  lemma EndTurnStays(s: State, info: Info, e: End)
    requires Replays(s, info) && TurnLogged(s) && MayEnd(s, e)
    ensures Stays(s, EndTurn(s, e), info)
  {
    hide Replays, Extends, Deliver, StartTurn, StartCompaction;
    var s0 := s.(turn := NoTurn, compactAsk := false);
    var s1 := Append(s0, TaskStateChanged(e.state, e.reason));
    StateChange(s, s1, info, e.state, e.reason);
    StartCompactionReplays(s1, info);
    ExtendsTwice(s, s1, StartCompaction(s1), s.info.branch);
    DeliverFollows(s1, info);
    StartTurnReplays(Deliver(s1), info);
    ExtendsTwice(s, s1, Deliver(s1), s.info.branch);
    ExtendsTwice(s, Deliver(s1), StartTurn(Deliver(s1)), s.info.branch);
  }

  lemma RestartStays(s: State, info: Info)
    requires Replays(s, info)
    ensures Stays(s, Restart(s), info)
  {
    assert Replays(Loaded(s), info);
    hide Replays, TreeOf, QueueOf;
    assert s.log[..|s.log|] == s.log;
    if Busy(s.row.state) {
      StateChange(Loaded(s), Restart(s), info, Stuck, "flit restarted during the turn");
    }
  }

  lemma StepStays(s: State, info: Info)
    requires Replays(s, info) && TurnLogged(s)
    ensures Stays(s, Step(s), info)
  {
    hide Deliver;
    if s.turn.Boundary? && !s.turn.first {
      DeliverFollows(s, info);
    } else {
      StaysSame(s, Step(s), info);
    }
  }

  lemma BeginCompactionStays(s: State, info: Info, keep: int)
    requires Replays(s, info) && TurnLogged(s) && keep >= 1
    ensures Stays(s, BeginCompaction(s, keep), info)
  {
    hide Replays, Extends, TurnLogged;
    var s' := BeginCompaction(s, keep);
    if s'.log == s.log {
      StaysSame(s, s', info);
    } else if s'.turn.Summarizing? {
      StaysAppend(s, s', info, Note("compaction_started"));
    } else {
      StaysAppend(s, s', info, CompactionDone("nothing to compact yet", 0, 0, 0, ""));
    }
  }

  // ---- Every step ----

  /** A step of any kind. */
  ghost predicate Steps(s: State, s': State, info: Info) {
    Replays(s', info) && Longer(s, s') && TurnLogged(s') && (s.turn != NoTurn ==> Extends(s, s', s.info.branch))
  }

  lemma StaysSteps(s: State, s': State, info: Info)
    requires Stays(s, s', info)
    ensures Steps(s, s', info)
  {
  }

  lemma BranchedReplays(s: State, info: Info, parent: Id, forkSeq: int, kind: BranchKind, messageId: Id)
    requires Replays(s, info)
    ensures var s' := Branched(s, parent, forkSeq, kind, messageId);
            Replays(s', info) && Longer(s, s') && s'.turn == s.turn
  {
    hide Replays, Longer, Extends;
    var p := BranchCreated(Minted(s.minted), parent, forkSeq, kind, messageId);
    assert Replays(Mint(s), info) by { MintReplays(s, info); }
    AppendReplays(Mint(s), info, p);
    var s1 := Append(Mint(s), p);
    AppendReplays(s1, info, BranchSwitched(Minted(s.minted)));
    AppendExtends(Mint(s), p);
    AppendExtends(s1, BranchSwitched(Minted(s.minted)));
    var s2 := Append(s1, BranchSwitched(Minted(s.minted)));
    LongerTwice(Mint(s), s1, s2);
    assert Longer(s, s2) by { MintLonger(s, s2); }
  }

  lemma MintReplays(s: State, info: Info)
    requires Replays(s, info)
    ensures Replays(Mint(s), info)
  {
  }

  lemma MintLonger(s: State, s': State)
    requires Longer(Mint(s), s')
    ensures Longer(s, s')
  {
  }

  lemma ForkedReplays(s: State, s1: State, info: Info, text: string, edit: bool)
    requires Replays(s1, info) && Longer(s, s1)
    ensures var s' := StartTurn(if edit then AppendUser(s1, text) else s1);
            Replays(s', info) && Longer(s, s') && TurnLogged(s')
  {
    hide Replays, TurnLogged, AppendUser, StartTurn;
    if edit {
      UserFollows(s1, info, text);
      StartTurnReplays(AppendUser(s1, text), info);
      LongerTwice(s, s1, AppendUser(s1, text));
      LongerTwice(s, AppendUser(s1, text), StartTurn(AppendUser(s1, text)));
    } else {
      StartTurnReplays(s1, info);
      LongerTwice(s, s1, StartTurn(s1));
    }
  }

  lemma ForkSteps(s: State, info: Info, messageId: Id, text: string, edit: bool)
    requires Replays(s, info) && TurnLogged(s)
    ensures Steps(s, Fork(s, messageId, text, edit).0, info)
  {
    hide Replays, Longer, TurnLogged, Branched, StartTurn, AppendUser, PathOf, Filtered, MessageLog, Extends;
    if Fork(s, messageId, text, edit).1.Forked? {
      var evs := Filtered(PathOf(s.tree, s.info.branch), MessageLog(s.log));
      var started, ended := StartOf(evs, messageId).value, EndOf(evs, messageId).value;
      if edit {
        BranchedReplays(s, info, started.branch, started.no - 1, Edit, messageId);
        ForkedReplays(s, Branched(s, started.branch, started.no - 1, Edit, messageId), info, text, edit);
      } else {
        BranchedReplays(s, info, started.branch, ended.no, Retry, messageId);
        ForkedReplays(s, Branched(s, started.branch, ended.no, Retry, messageId), info, text, edit);
      }
    } else {
      StaysSame(s, s, info);
      StaysSteps(s, s, info);
    }
  }

  lemma SwitchSteps(s: State, info: Info, id: Id)
    requires Replays(s, info) && TurnLogged(s)
    ensures Steps(s, Switch(s, id).0, info)
  {
    AppendReplays(s, info, BranchSwitched(id));
    AppendExtends(s, BranchSwitched(id));
    StaysSame(s, s, info);
  }

  lemma RequestCompactStays(s: State, info: Info, keep: int, hasModel: bool)
    requires Replays(s, info) && TurnLogged(s) && keep >= 1
    ensures Stays(s, RequestCompact(s, keep, hasModel).0, info)
  {
    hide Replays, Extends, TurnLogged, HistoryOf, StartCompaction;
    StaysSame(s, s, info);
    StaysSame(s, s.(compactAsk := true), info);
    StartCompactionReplays(s, info);
  }

  lemma RunningStays(s: State, info: Info, state: TaskState, reason: string)
    requires Replays(s, info) && s.turn != NoTurn && Busy(state)
    ensures Stays(s, Append(s, TaskStateChanged(state, reason)), info)
  {
    hide Replays, Extends;
    StateChange(s, Append(s, TaskStateChanged(state, reason)), info, state, reason);
  }

  lemma TurnStepStays(s: State, info: Info, op: Op)
    requires Replays(s, info) && TurnLogged(s)
    requires op.OpEndCompaction? || op.OpStartReply? || op.OpEndReply? ||
             op.OpStartCall? || op.OpEndCall? || op.OpAsk? || op.OpResume? || op.OpNextStep?
    ensures Stays(s, Apply(s, op), info)
  {
    hide Replays, Extends, TurnLogged;
    var s' := Apply(s, op);
    if s' == s {
      StaysSame(s, s, info);
    } else {
      match op {
        case OpEndCompaction(error, tokensAfter, summary) =>
          StaysAppend(s, s', info, s'.log[|s.log|].payload);
        case OpStartReply =>
          assert Replays(Mint(s), info) by { MintReplays(s, info); }
          StaysAppend(s, s', info, MessageStarted(Minted(s.minted), Assistant));
        case OpEndReply(text, calls) => StaysAppend(s, s', info, MessageDone(s.turn.id, text));
        case OpStartCall => StaysAppend(s, s', info, s'.log[|s.log|].payload);
        case OpEndCall(result) => StaysAppend(s, s', info, s'.log[|s.log|].payload);
        case OpAsk(title) => RunningStays(s, info, Waiting, title);
        case OpResume => RunningStays(s, info, Working, "");
        case OpNextStep => StaysSame(s, s', info);
      }
    }
  }

  lemma AsideStays(s: State, info: Info, p: Payload)
    requires Replays(s, info) && TurnLogged(s) && Aside(p)
    ensures Stays(s, Append(s, p), info)
  {
    hide Replays, Extends, TurnLogged;
    StaysAppend(s, Append(s, p), info, p);
  }

  lemma ApplySteps(s: State, info: Info, op: Op)
    requires Replays(s, info) && TurnLogged(s)
    ensures Steps(s, Apply(s, op), info)
  {
    hide Replays, TurnLogged, Stays, Steps, Send, UpdateQueued, Fork, Switch, RequestCompact, Restart, Step,
      BeginCompaction, EndTurn, MayEnd, Append, Aside;
    match op {
      case OpSend(text, client) => SendStays(s, info, text, client);
      case OpUpdateQueued(id, text, cancel) => UpdateQueuedStays(s, info, id, text, cancel);
      case OpFork(id, text, edit) => ForkSteps(s, info, id, text, edit);
      case OpSwitch(id) => SwitchSteps(s, info, id);
      case OpRequestCompact(keep, hasModel) =>
        if keep >= 1 { RequestCompactStays(s, info, keep, hasModel); }
      case OpRestart => RestartStays(s, info);
      case OpAside(p) => if Aside(p) { AsideStays(s, info, p); }
      case OpStep => StepStays(s, info);
      case OpBeginCompaction(keep) => if keep >= 1 { BeginCompactionStays(s, info, keep); }
      case OpEndTurn(e) => if MayEnd(s, e) { EndTurnStays(s, info, e); }
      case OpInterrupt => StaysSame(s, Apply(s, op), info);
      case OpShutdown => StaysSame(s, Apply(s, op), info);
      case _ => TurnStepStays(s, info, op);
    }
    if Apply(s, op) == s {
      StaysSame(s, s, info);
    }
    if Stays(s, Apply(s, op), info) {
      StaysSteps(s, Apply(s, op), info);
    }
  }

  // ---- Whole runs ----

  /** After any run, the queue, the tree and the row rebuilt from the log are
      the live ones, events are numbered 1 to lastNo, and a turn is running
      exactly when the logged state is working or waiting. */
  lemma {:induction false} RunReplays(info: Info, ops: seq<Op>)
    requires New(info)
    ensures Replays(Run(info, ops), info) && TurnLogged(Run(info, ops))
  {
    if ops != [] {
      hide Replays, TurnLogged, Apply, Run;
      RunReplays(info, ops[..|ops| - 1]);
      RunOne(info, ops);
      ApplySteps(Run(info, ops[..|ops| - 1]), info, ops[|ops| - 1]);
      StepsReplay(Run(info, ops[..|ops| - 1]), Run(info, ops), info);
    }
  }

  lemma RunOne(info: Info, ops: seq<Op>)
    requires ops != []
    ensures Run(info, ops) == Apply(Run(info, ops[..|ops| - 1]), ops[|ops| - 1])
  {
  }

  lemma StepsReplay(s: State, s': State, info: Info)
    requires Steps(s, s', info)
    ensures Replays(s', info) && TurnLogged(s') && Longer(s, s')
  {
  }

  /** A log is only ever added to. */
  lemma {:induction false} RunGrows(info: Info, ops: seq<Op>, k: nat)
    requires New(info) && k <= |ops|
    ensures Longer(Run(info, ops[..k]), Run(info, ops))
  {
    if k < |ops| {
      hide Replays, TurnLogged, Apply, Run, Steps;
      var before := ops[..|ops| - 1];
      RunGrows(info, before, k);
      assert before[..k] == ops[..k];
      RunReplays(info, before);
      RunOne(info, ops);
      ApplySteps(Run(info, before), info, ops[|ops| - 1]);
      StepsReplay(Run(info, before), Run(info, ops), info);
      LongerTwice(Run(info, ops[..k]), Run(info, before), Run(info, ops));
    } else {
      assert ops[..k] == ops;
    }
  }

  /** As long as a turn is running, everything logged is logged on the branch
      it started on, which stays the active one. */
  lemma {:induction false} OneBranchPerTurn(info: Info, ops: seq<Op>, k: nat)
    requires New(info) && k <= |ops|
    requires forall j :: k <= j < |ops| ==> Run(info, ops[..j]).turn != NoTurn
    ensures var s := Run(info, ops[..k]); Extends(s, Run(info, ops), s.info.branch)
  {
    if k < |ops| {
      hide Replays, TurnLogged, Apply, Run, Steps;
      var before := ops[..|ops| - 1];
      forall j | k <= j < |before| ensures Run(info, before[..j]).turn != NoTurn {
        assert before[..j] == ops[..j];
      }
      OneBranchPerTurn(info, before, k);
      assert before[..k] == ops[..k];
      RunReplays(info, before);
      RunOne(info, ops);
      ApplySteps(Run(info, before), info, ops[|ops| - 1]);
      StepsExtend(Run(info, before), Run(info, ops), info);
      ExtendsTwice(Run(info, ops[..k]), Run(info, before), Run(info, ops), Run(info, ops[..k]).info.branch);
    } else {
      assert ops[..k] == ops;
    }
  }

  lemma StepsExtend(s: State, s': State, info: Info)
    requires Steps(s, s', info) && s.turn != NoTurn
    ensures Extends(s, s', s.info.branch)
  {
  }
}
