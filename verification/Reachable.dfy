/** Every reachable session keeps the invariant. */
module Reachable {
  import opened Events
  import opened Branches
  import opened Model
  import opened Invariant
  import opened Turns
  import opened Forking
  import opened Live
  import Compact

  // ---- Starting and ending turns ----

  lemma StartTurnKeepsCore(s: State)
    requires Sound(s)
    ensures Core(StartTurn(s))
  {
    hide Sound, H;
    StartTurnSound(s);
  }

  lemma StartCompactionKeepsCore(s: State)
    requires Sound(s)
    ensures Core(StartCompaction(s))
  {
    hide Sound, H;
    IgnoredSound(s, TaskStateChanged(Working, "compacting"));
    SoundIgnores(Append(s, TaskStateChanged(Working, "compacting")), StartCompaction(s));
  }

  lemma SendKeepsCore(s: State, text: string, client: string)
    requires Core(s)
    ensures Core(Send(s, text, client).0)
  {
    hide Sound, H, Deliver, AppendUser, Blank, Append, StartTurn, Fits;
    if s.turn != NoTurn {
      var p := MessageQueued(Minted(s.minted), text, client);
      CoreIgnores(s, Mint(s));
      IgnoredKeepsCore(Mint(s), p);
      var s1 := Append(Mint(s), p);
      CoreIgnores(s1, s1.(queue := s1.queue + [Queued(Minted(s.minted), text, client)]));
    } else {
      DeliverSound(s);
      UserSound(Deliver(s), text);
      StartTurnKeepsCore(Deliver(s));
      StartTurnKeepsCore(AppendUser(Deliver(s), text));
    }
  }

  lemma UpdateQueuedKeepsCore(s: State, id: Id, text: string, cancel: bool)
    requires Core(s)
    ensures Core(UpdateQueued(s, id, text, cancel).0)
  {
    hide Core, H, Append, InQueue, Edited;
    var p := QueuedMessageUpdated(id, text, cancel);
    IgnoredKeepsCore(s, p);
    CoreIgnores(Append(s, p), Append(s, p).(queue := Edited(Append(s, p).queue, id, text, cancel)));
  }

  lemma SwitchKeepsCore(s: State, id: Id)
    requires Core(s)
    ensures Core(Switch(s, id).0)
  {
    hide Sound, H;
    if s.turn == NoTurn && id in s.tree.byID {
      SwitchSound(s, id);
    }
  }

  lemma RequestCompactKeepsCore(s: State, keep: int, hasModel: bool)
    requires Core(s) && keep >= 1
    ensures Core(RequestCompact(s, keep, hasModel).0)
  {
    hide Sound, H, StartCompaction, Compact.ChosenCut, HistoryOf;
    if s.turn != NoTurn {
      CoreIgnores(s, s.(compactAsk := true));
    } else {
      StartCompactionKeepsCore(s);
    }
  }

  lemma EndTurnKeepsCore(s: State, e: End)
    requires Core(s)
    ensures Core(EndTurn(s, e))
  {
    hide Sound, H, StartCompaction, StartTurn, Deliver, Append;
    var s0, p := s.(turn := NoTurn, compactAsk := false), TaskStateChanged(e.state, e.reason);
    CoreIgnores(s, s0);
    IgnoredKeepsCore(s0, p);
    StartCompactionKeepsCore(Append(s0, p));
    DeliverSound(Append(s0, p));
    StartTurnKeepsCore(Deliver(Append(s0, p)));
  }

  lemma SoundAgrees(s: State)
    requires Core(s)
    ensures s.row == s.info && s.tree == TreeOf(s.log)
  {
  }

  lemma LoadedKeepsCore(s: State)
    requires Core(s)
    ensures Core(Loaded(s))
  {
    hide Core, QueueOf, TreeOf;
    SoundAgrees(s);
    CoreIgnores(s, Loaded(s));
  }

  lemma RestartKeepsCore(s: State)
    requires Core(s)
    ensures Core(Restart(s))
  {
    hide Core, Append, Loaded;
    LoadedKeepsCore(s);
    IgnoredKeepsCore(Loaded(s), TaskStateChanged(Stuck, "flit restarted during the turn"));
  }

  lemma StepKeepsCore(s: State)
    requires Core(s)
    ensures Core(Step(s))
  {
    hide Sound, H, Deliver;
    if s.turn.Boundary? {
      DeliverSound(s);
      CoreIgnores(s, s.(turn := Ready(true)));
      SoundIgnores(Deliver(s), Deliver(s).(turn := Ready(true)));
    }
  }

  lemma AsideKeepsCore(s: State, p: Payload)
    requires Core(s) && Aside(p)
    ensures Core(Append(s, p))
  {
    hide Core, H;
    IgnoredKeepsCore(s, p);
  }

  lemma StateChangeKeepsCore(s: State, state: TaskState, reason: string)
    requires Core(s)
    ensures Core(Append(s, TaskStateChanged(state, reason)))
  {
    hide Core, H;
    IgnoredKeepsCore(s, TaskStateChanged(state, reason));
  }

  // ---- Every step ----

  lemma TurnStepKeepsCore(s: State, op: Op)
    requires Core(s) && |s.log| <= MAX_INT64
    requires op.OpStep? || op.OpBeginCompaction? || op.OpEndCompaction? || op.OpStartReply? || op.OpEndReply? ||
             op.OpStartCall? || op.OpEndCall? || op.OpAsk? || op.OpResume? || op.OpNextStep? || op.OpEndTurn?
    ensures Core(Apply(s, op))
  {
    hide Core, H, Append, Step, BeginCompaction, EndCompaction, StartReply, EndReply, StartCall, EndCall, EndTurn,
         MayEnd;
    match op {
      case OpStep => StepKeepsCore(s);
      case OpBeginCompaction(keep) => if keep >= 1 { BeginCompactionKeepsCore(s, keep); }
      case OpEndCompaction(error, tokensAfter, summary) => EndCompactionKeepsCore(s, error, tokensAfter, summary);
      case OpStartReply => StartReplyKeepsCore(s);
      case OpEndReply(text, calls) => EndReplyKeepsCore(s, text, calls);
      case OpStartCall => StartCallKeepsCore(s);
      case OpEndCall(result) => EndCallKeepsCore(s, result);
      case OpAsk(title) => StateChangeKeepsCore(s, Waiting, title);
      case OpResume => StateChangeKeepsCore(s, Working, "");
      case OpNextStep => CoreIgnores(s, s.(turn := Boundary(false)));
      case OpEndTurn(e) => EndTurnKeepsCore(s, e);
    }
  }

  /** Each step keeps the invariant, while sequence numbers fit an int64. */
  lemma ApplyKeepsCore(s: State, op: Op)
    requires Core(s) && |s.log| <= MAX_INT64
    ensures Core(Apply(s, op))
  {
    hide Core, H, Append, Fork, Switch, Send, UpdateQueued, RequestCompact, Restart, Step, BeginCompaction,
         EndCompaction,
      StartReply, EndReply, StartCall, EndCall, EndTurn, MayEnd;
    match op {
      case OpSend(text, client) => SendKeepsCore(s, text, client);
      case OpUpdateQueued(id, text, cancel) => UpdateQueuedKeepsCore(s, id, text, cancel);
      case OpFork(id, text, edit) => ForkKeepsCore(s, id, text, edit);
      case OpSwitch(id) => SwitchKeepsCore(s, id);
      case OpRequestCompact(keep, hasModel) => if keep >= 1 { RequestCompactKeepsCore(s, keep, hasModel); }
      case OpInterrupt => CoreIgnores(s, Interrupt(s));
      case OpShutdown => CoreIgnores(s, Interrupt(s.(closing := true)));
      case OpRestart => RestartKeepsCore(s);
      case OpAside(p) => if Aside(p) { AsideKeepsCore(s, p); }
      case _ => TurnStepKeepsCore(s, op);
    }
  }

  lemma CreatedCore(info: Info)
    requires New(info)
    ensures Core(Created(info))
  {
    var s := Created(info);
    assert s.tree == UNFORKED && TreeOf([]) == UNFORKED;
    forall b ensures Forks(UNFORKED, b) {}
    assert WellFormed(s.tree);
    assert H(s, ROOT) == [];
  }

  /** Every run keeps the invariant, while sequence numbers fit an int64. */
  lemma {:induction false} RunKeepsCore(info: Info, ops: seq<Op>)
    requires New(info) && |Run(info, ops).log| <= MAX_INT64
    ensures Core(Run(info, ops))
  {
    if ops == [] {
      CreatedCore(info);
    } else {
      hide Core, Apply, Run;
      var before := ops[..|ops| - 1];
      RunGrows(info, ops, |before|);
      RunKeepsCore(info, before);
      RunOne(info, ops);
      ApplyKeepsCore(Run(info, before), ops[|ops| - 1]);
    }
  }
}
