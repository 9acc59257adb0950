/** The live session: its store, and the operations that hold its lock. Each
    does to the state exactly what the state machine says. */
module Session {
  import opened Events
  import opened Branches
  import opened Context
  import opened Compact
  import opened Model
  import Chat

  // ---- The store ----

  /** The events of a log whose payload keep accepts. */
  function Select(log: seq<Event>, keep: Payload -> bool): seq<Event> {
    if log == [] then []
    else
      var ev := log[|log| - 1];
      Select(log[..|log| - 1], keep) + if keep(ev.payload) then [ev] else []
  }

  /** One session's events and row. */
  class Store {
    var log: seq<Event>
    var row: Info

    constructor (row: Info)
      ensures log == [] && this.row == row
    {
      log, this.row := [], row;
    }

    /** Stores ev and updates the row together, or neither: only the next
        event in sequence is taken. */
    method AppendEvent(ev: Event) returns (ok: bool)
      modifies this
      ensures ok <==> ev.no == old(row.lastNo) + 1
      ensures ok ==> log == old(log) + [ev] && row == Recorded(old(row), ev)
      ensures !ok ==> log == old(log) && row == old(row)
    {
      if row.lastNo != ev.no - 1 {
        return false;
      }
      log := log + [ev];
      row := row.(lastNo := ev.no);
      match ev.payload {
        case TaskStateChanged(state, _) => row := row.(state := state);
        case Usage(tokens, length) => row := row.(tokens := tokens, contextLength := length);
        case ModelChanged(length) => row := row.(contextLength := length);
        case CompactionDone(error, _, _, tokensAfter, _) =>
          if error == "" {
            row := row.(tokens := tokensAfter);
          }
        case WorktreeRemoved => row := row.(worktreeRemoved := true);
        case BranchSwitched(id) => row := row.(branch := id);
        case RoleChanged(role) => row := row.(role := role);
        case _ =>
      }
      return true;
    }

    method EventsOfKinds(keep: Payload -> bool) returns (out: seq<Event>)
      ensures out == Select(log, keep)
    {
      out := [];
      var i := 0;
      while i < |log|
        invariant 0 <= i <= |log|
        invariant out == Select(log[..i], keep)
      {
        assert log[..i + 1][..i] == log[..i];
        if keep(log[i].payload) {
          out := out + [log[i]];
        }
        i := i + 1;
      }
      assert log[..i] == log;
    }
  }

  lemma {:induction false} SelectHistory(log: seq<Event>)
    ensures Select(log, HistoryKind) == HistoryEvents(log) && Select(log, MessageKind) == MessageLog(log)
  {
    if log != [] {
      SelectHistory(log[..|log| - 1]);
    }
  }

  /** The queue and the tree are rebuilt from their own events alone. */
  lemma {:induction false} SelectEnough(log: seq<Event>)
    ensures QueueOf(Select(log, QueueKind)) == QueueOf(log)
    ensures TreeOf(Select(log, (p: Payload) => p.BranchCreated?)) == TreeOf(log)
  {
    if log != [] {
      var init, ev := log[..|log| - 1], log[|log| - 1];
      SelectEnough(init);
      var q, b := Select(init, QueueKind), Select(init, (p: Payload) => p.BranchCreated?);
      assert (q + [ev])[..|q|] == q && (b + [ev])[..|b|] == b && q + [] == q && b + [] == b;
    }
  }

  lemma NothingToDeliver(s: State)
    ensures s.queue == [] ==> Deliver(s) == s
  {
  }

  // ---- The session ----

  class Session {
    const store: Store
    var info: Info
    var tree: Tree
    var queue: seq<Queued>
    var turn: Turn
    var cancelled: bool
    var compactAsk: bool
    var closing: bool
    var minted: nat

    ghost predicate Valid()
      reads this, store
    {
      info.lastNo == store.row.lastNo >= 0
    }

    function Value(): State
      reads this, store, tree
    {
      State(store.log, store.row, info, tree.Value(), queue, turn, cancelled, compactAsk, closing, minted)
    }

    constructor (info: Info)
      requires info.lastNo >= 0
      ensures Valid() && Value() == Created(info) && fresh(store) && fresh(tree)
    {
      store := new Store(info);
      tree := new Tree([]);
      this.info, queue, turn := info, [], NoTurn;
      cancelled, compactAsk, closing, minted := false, false, false, 0;
    }

    method NewId() returns (id: Id)
      modifies this`minted
      ensures id == Minted(old(minted)) && minted == old(minted) + 1
    {
      id, minted := Minted(minted), minted + 1;
    }

    method AppendLocked(p: Payload) returns (ev: Event)
      requires Valid()
      modifies this`info, store, tree
      ensures Valid() && Value() == Append(old(Value()), p) && ev == NextEvent(old(info), p)
    {
      var branch := info.branch;
      if p.BranchSwitched? {
        branch := p.branchId;
      }
      ev := Event(info.lastNo + 1, branch, p);
      var ok := store.AppendEvent(ev);
      assert ok;
      TakeOver(ev);
    }

    /** What the live copy takes over from an event. */
    method TakeOver(ev: Event)
      modifies this`info, tree
      ensures info == Recorded(old(info), ev) && tree.Value() == Added(old(tree.Value()), ev)
    {
      info := info.(lastNo := ev.no);
      match ev.payload {
        case TaskStateChanged(state, _) => info := info.(state := state);
        case Usage(tokens, length) => info := info.(tokens := tokens, contextLength := length);
        case ModelChanged(length) => info := info.(contextLength := length);
        case CompactionDone(error, _, _, tokensAfter, _) =>
          if error == "" {
            info := info.(tokens := tokensAfter);
          }
        case WorktreeRemoved => info := info.(worktreeRemoved := true);
        case BranchCreated(_, _, _, _, _) => tree.Add(ev);
        case BranchSwitched(id) => info := info.(branch := id);
        case RoleChanged(role) => info := info.(role := role);
        case _ =>
      }
    }

    method AppendUserMessageLocked(id: Id, text: string)
      requires Valid()
      modifies this`info, store, tree
      ensures Valid() && Value() == AppendUserMessage(old(Value()), id, text)
    {
      var ev := AppendLocked(MessageStarted(id, User));
      ev := AppendLocked(TextDelta(id, text));
      ev := AppendLocked(MessageDone(id, text));
    }

    method AppendUserLocked(text: string) returns (id: Id)
      requires Valid()
      modifies this`info, this`minted, store, tree
      ensures Valid() && Value() == AppendUser(old(Value()), text) && id == Minted(old(minted))
    {
      id := NewId();
      AppendUserMessageLocked(id, text);
    }

    method StartTurnLocked()
      requires Valid()
      modifies this`info, this`turn, this`cancelled, store, tree
      ensures Valid() && Value() == StartTurn(old(Value()))
    {
      var ev := AppendLocked(TaskStateChanged(Working, ""));
      turn, cancelled := Boundary(true), false;
    }

    method StartCompactionLocked()
      requires Valid()
      modifies this`info, this`turn, this`cancelled, store, tree
      ensures Valid() && Value() == StartCompaction(old(Value()))
    {
      var ev := AppendLocked(TaskStateChanged(Working, "compacting"));
      turn, cancelled := CompactionRun, false;
    }

    // ---- The queue ----

    method EditQueue(id: Id, text: string, remove: bool) returns (found: bool)
      modifies this`queue
      ensures queue == Edited(old(queue), id, text, remove) && (found <==> InQueue(old(queue), id))
    {
      var i := 0;
      while i < |queue|
        invariant 0 <= i <= |queue| && queue == old(queue)
        invariant forall j :: 0 <= j < i ==> queue[j].id != id
      {
        if queue[i].id == id {
          EditedFound(queue, id, i, text, remove);
          if remove {
            queue := queue[..i] + queue[i + 1..];
          } else {
            queue := queue[i := queue[i].(text := text)];
          }
          return true;
        }
        i := i + 1;
      }
      EditedNowhere(queue, id, text, remove);
      return false;
    }

    method UpdateQueuedMessage(id: Id, text: string, cancel: bool) returns (r: Result)
      requires Valid()
      modifies this`info, this`queue, store, tree
      ensures Valid() && (Value(), r) == UpdateQueued(old(Value()), id, text, cancel)
    {
      var found, i := false, 0;
      while i < |queue|
        invariant 0 <= i <= |queue|
        invariant found <==> InQueue(queue[..i], id)
      {
        assert queue[..i + 1] == queue[..i] + [queue[i]];
        found := found || queue[i].id == id;
        assert found ==> InQueue(queue[..i + 1], id) by {
          if InQueue(queue[..i], id) {
            var j :| 0 <= j < i && queue[..i][j].id == id;
            assert queue[..i + 1][j].id == id;
          } else {
            assert queue[..i + 1][i] == queue[i];
          }
        }
        i := i + 1;
      }
      assert queue[..i] == queue;
      if !found {
        return QueueGone;
      }
      var ev := AppendLocked(QueuedMessageUpdated(id, text, cancel));
      var was := EditQueue(id, text, cancel);
      return Ok;
    }

    /** Every queued message made a user message, in order. Returns the number of
        the first event and the id of the first message; 0 and none when there
        was nothing to deliver. */
    method DeliverQueuedLocked() returns (no: int, first: Id)
      requires Valid()
      modifies this`info, this`queue, this`minted, store, tree
      ensures Valid() && Value() == Deliver(old(Value()))
      ensures (no, first) == if old(queue) == [] then (0, Empty) else (old(info).lastNo + 1, Minted(old(minted)))
    {
      hide DeliverOne;
      no, first := 0, Empty;
      while queue != []
        invariant Valid() && Deliver(Value()) == Deliver(old(Value()))
        invariant no >= 0 && if no == 0 then Value() == old(Value()) && first == Empty
                             else old(queue) != [] && (no, first) == (old(info).lastNo + 1, Minted(old(minted)))
        decreases |queue|
      {
        var seq0, id := DeliverFirst();
        if no == 0 {
          no, first := seq0, id;
        }
      }
    }

    method DeliverFirst() returns (no: int, id: Id)
      requires Valid() && queue != []
      modifies this`info, this`queue, this`minted, store, tree
      ensures Valid() && Value() == DeliverOne(old(Value())) && |queue| < |old(queue)|
      ensures no == old(info).lastNo + 1 >= 1 && id == Minted(old(minted))
    {
      hide AppendUserMessage;
      var q := queue[0];
      id := NewId();
      var ev := AppendLocked(QueuedMessageDelivered(q.id, id));
      AppendUserMessageLocked(id, q.text);
      queue := queue[1..];
      no := ev.no;
    }

    method LoadQueue()
      requires queue == []
      modifies this`queue
      ensures queue == QueueOf(store.log)
    {
      var evs := store.EventsOfKinds(QueueKind);
      SelectEnough(store.log);
      var i := 0;
      while i < |evs|
        invariant 0 <= i <= |evs|
        invariant queue == QueueOf(evs[..i])
      {
        assert evs[..i + 1][..i] == evs[..i];
        match evs[i].payload {
          case MessageQueued(id, text, client) => queue := queue + [Queued(id, text, client)];
          case QueuedMessageUpdated(id, text, cancelled) => var was := EditQueue(id, text, cancelled);
          case QueuedMessageDelivered(id, _) => var was := EditQueue(id, "", true);
          case _ =>
        }
        i := i + 1;
      }
      assert evs[..i] == evs;
    }

    // ---- Operations ----

    /** Returns the number of the first event recorded too, or 0. */
    method SendMessage(text: string, client: string) returns (r: Result, no: int)
      requires Valid()
      modifies this, store, tree
      ensures Valid() && tree == old(tree) && (Value(), r) == Send(old(Value()), text, client)
      ensures no == if r == EmptyText then 0 else old(info).lastNo + 1
    {
      if turn != NoTurn {
        if Blank(text) {
          return EmptyText, 0;
        }
        var id := NewId();
        var ev := AppendLocked(MessageQueued(id, text, client));
        queue := queue + [Queued(id, text, client)];
        return Result.Queue(id), ev.no;
      }
      if Blank(text) && queue == [] {
        return EmptyText, 0;
      }
      no := SendNow(text);
      r := Ok;
    }

    /** The queue, then text unless it is blank, and a turn to answer them. */
    method SendNow(text: string) returns (no: int)
      requires Valid() && turn == NoTurn && (!Blank(text) || queue != [])
      modifies this, store, tree
      ensures Valid() && tree == old(tree) && Value() == Send(old(Value()), text, "").0
      ensures no == old(info).lastNo + 1
    {
      hide Deliver, AppendUser, StartTurn, Blank;
      NothingToDeliver(Value());
      var first: Id;
      no, first := DeliverQueuedLocked();
      if !Blank(text) {
        var start := info.lastNo + 1;
        var id := AppendUserLocked(text);
        if no == 0 {
          no := start;
        }
      }
      StartTurnLocked();
    }

    /** The events of the given kinds on the active branch's path. */
    method PathEvents(keep: Payload -> bool) returns (out: seq<Event>)
      ensures out == Filtered(PathOf(tree.Value(), info.branch), Select(store.log, keep))
    {
      var evs := store.EventsOfKinds(keep);
      var p := tree.Path(info.branch);
      out := Filter(p, evs);
    }

    method MakeBranch(parent: Id, forkSeq: int, kind: BranchKind, messageId: Id) returns (id: Id)
      requires Valid()
      modifies this`info, this`minted, store, tree
      ensures Valid() && Value() == Branched(old(Value()), parent, forkSeq, kind, messageId) &&
              id == Minted(old(minted))
    {
      id := NewId();
      var ev := AppendLocked(BranchCreated(id, parent, forkSeq, kind, messageId));
      ev := AppendLocked(BranchSwitched(id));
    }

    method ForkFrom(messageId: Id, text: string, edit: bool) returns (r: Result)
      requires Valid()
      modifies this, store, tree
      ensures Valid() && tree == old(tree) && (Value(), r) == Fork(old(Value()), messageId, text, edit)
    {
      hide Branched, AppendUser, StartTurn, PathOf, Filtered, MessageLog, StartOf, EndOf;
      if turn != NoTurn {
        return Busy;
      }
      if queue != [] {
        return MessagesQueued;
      }
      var evs := PathEvents(MessageKind);
      SelectHistory(store.log);
      var started, ended := FindMessage(evs, messageId);
      if started.None? || ended.None? {
        return NoSuchMessage;
      }
      if started.value.payload.role != User {
        return NotAUserMessage;
      }
      var id := RecordFork(started.value, ended.value, messageId, text, edit);
      return Forked(id);
    }

    /** The new branch, and its turn. */
    method RecordFork(started: Event, ended: Event, messageId: Id, text: string, edit: bool) returns (id: Id)
      requires Valid()
      modifies this, store, tree
      ensures Valid() && tree == old(tree) && id == Minted(old(minted))
      ensures var s1 := if edit then Branched(old(Value()), started.branch, started.no - 1, Edit, messageId)
                        else Branched(old(Value()), started.branch, ended.no, Retry, messageId);
              Value() == StartTurn(if edit then AppendUser(s1, text) else s1)
    {
      hide Branched, AppendUser, StartTurn;
      var kind, forkSeq := Retry, ended.no;
      if edit {
        kind, forkSeq := Edit, started.no - 1;
      }
      id := MakeBranch(started.branch, forkSeq, kind, messageId);
      if edit {
        var turnId := AppendUserLocked(text);
      }
      StartTurnLocked();
    }

    method SwitchBranch(id: Id) returns (r: Result)
      requires Valid()
      modifies this`info, store, tree
      ensures Valid() && (Value(), r) == Switch(old(Value()), id)
    {
      if turn != NoTurn {
        return Busy;
      }
      var _, ok := tree.Get(id);
      if !ok {
        return NoSuchBranch;
      }
      if id == info.branch {
        return Ok;
      }
      var ev := AppendLocked(BranchSwitched(id));
      return Ok;
    }

    /** The cut a compaction would make now. */
    method CutNow(keep: int, minKeep: int, midTurn: bool) returns (c: Option<Cut>)
      requires keep >= 1 && minKeep >= 0
      ensures var h := HistoryOf(store.log, tree.Value(), info.branch);
              c == ChosenCut(h, CoveredBy(h), keep, minKeep, midTurn)
    {
      var history := PathEvents(HistoryKind);
      SelectHistory(store.log);
      var last := FindLastCompaction(history);
      var after := 0;
      if last.Some? {
        after := last.value.coveredSeq;
      }
      c := ChooseCut(history, after, keep, minKeep, midTurn);
    }

    method Compact(keep: int, hasModel: bool) returns (r: Result)
      requires Valid() && keep >= 1
      modifies this, store, tree
      ensures Valid() && tree == old(tree) && (Value(), r) == RequestCompact(old(Value()), keep, hasModel)
    {
      if turn != NoTurn {
        compactAsk := true;
        return AskQueued;
      }
      if !hasModel {
        return NoModel;
      }
      var c := CutNow(keep, 0, false);
      if c.None? {
        return NothingToCompact;
      }
      StartCompactionLocked();
      return Ok;
    }

    method InterruptTurn() returns (ok: bool)
      modifies this`cancelled
      ensures Value() == Interrupt(old(Value())) && (ok <==> turn != NoTurn)
    {
      if turn == NoTurn {
        return false;
      }
      cancelled := true;
      return true;
    }

    method EndTurnWith(e: End)
      requires Valid()
      modifies this, store, tree
      ensures Valid() && tree == old(tree) && Value() == EndTurn(old(Value()), e)
    {
      turn := NoTurn;
      var ask := compactAsk;
      compactAsk := false;
      var ev := AppendLocked(TaskStateChanged(e.state, e.reason));
      if e == END_INTERRUPTED || closing {
        return;
      }
      if ask && e.state == TaskState.Done {
        StartCompactionLocked();
        return;
      }
      if queue == [] {
        return;
      }
      var no, first := DeliverQueuedLocked();
      StartTurnLocked();
    }

    /** A restarted server loads the session from the store. */
    method Reload()
      requires Valid()
      modifies this, store, tree
      ensures Valid() && fresh(tree) && Value() == Restart(old(Value()))
    {
      LoadFromStore();
      if info.state == Working || info.state == Waiting {
        var ev := AppendLocked(TaskStateChanged(Stuck, "flit restarted during the turn"));
      }
    }

    method LoadFromStore()
      requires Valid()
      modifies this
      ensures Valid() && fresh(tree) && Value() == Loaded(old(Value()))
    {
      info := store.row;
      turn, cancelled, compactAsk, closing := NoTurn, false, false, false;
      queue := [];
      LoadQueue();
      var evs := store.EventsOfKinds((p: Payload) => p.BranchCreated?);
      SelectEnough(store.log);
      tree := new Tree(evs);
    }

    // ---- The turn's own steps ----

    method StepBoundary()
      requires Valid() && turn.Boundary?
      modifies this, store, tree
      ensures Valid() && tree == old(tree) && Value() == Step(old(Value()))
    {
      if !turn.first {
        var no, first := DeliverQueuedLocked();
      }
      turn := Ready(true);
    }

    method CompactionStarts(keep: int)
      requires Valid() && keep >= 1 && (turn == Ready(true) || turn == CompactionRun)
      modifies this, store, tree
      ensures Valid() && tree == old(tree) && Value() == BeginCompaction(old(Value()), keep)
    {
      var inTurn := turn != CompactionRun;
      var asked := compactAsk;
      if inTurn {
        compactAsk := false;
      }
      var c := CutNow(keep, if inTurn then 1 else 0, inTurn);
      if c.None? {
        turn := if inTurn then Ready(false) else Over;
        if !inTurn || asked {
          var ev := AppendLocked(CompactionDone("nothing to compact yet", 0, 0, 0, ""));
        }
        return;
      }
      var ev := AppendLocked(Note("compaction_started"));
      turn := Summarizing(c.value.covered, c.value.kept, inTurn);
    }

    method CompactionEnds(error: string, tokensAfter: int, summary: string)
      requires Valid() && turn.Summarizing?
      modifies this, store, tree
      ensures Valid() && tree == old(tree) && Value() == EndCompaction(old(Value()), error, tokensAfter, summary)
    {
      var covered, kept := turn.covered, turn.kept;
      if error == "" {
        var ev := AppendLocked(CompactionDone("", covered, kept, tokensAfter, summary));
      } else {
        var ev := AppendLocked(CompactionDone(error, 0, 0, 0, ""));
      }
      turn := if turn.inTurn then Ready(false) else Over;
    }

    method ReplyStarts()
      requires Valid() && turn.Ready?
      modifies this, store, tree
      ensures Valid() && tree == old(tree) && Value() == StartReply(old(Value()))
    {
      var id := NewId();
      var ev := AppendLocked(MessageStarted(id, Assistant));
      turn := Streaming(id);
    }

    method ReplyDone(text: string, calls: seq<Chat.Call>)
      requires Valid() && turn.Streaming?
      modifies this, store, tree
      ensures Valid() && tree == old(tree) && Value() == EndReply(old(Value()), text, calls)
    {
      var id := turn.id;
      var ev := AppendLocked(MessageDone(id, text));
      turn := Calling(id, calls, 0, 0);
    }

    method CallStarts()
      requires Valid() && turn.Calling? && turn.started < |turn.calls|
      modifies this, store, tree
      ensures Valid() && tree == old(tree) && turn == old(turn).(started := old(turn).started + 1)
      ensures Value() == StartCall(old(Value()))
    {
      var c := turn.calls[turn.started];
      var ev := AppendLocked(ToolCallStarted(turn.id, c.id, c.name, c.arguments));
      turn := turn.(started := turn.started + 1);
    }

    method CallEnds(result: string)
      requires Valid() && RunningCall(turn)
      modifies this, store, tree
      ensures Valid() && tree == old(tree) && turn == old(turn).(answered := old(turn).answered + 1)
      ensures Value() == EndCall(old(Value()), result)
    {
      var ev := AppendLocked(ToolCallDone(turn.calls[turn.answered].id, result));
      turn := turn.(answered := turn.answered + 1);
    }

    /** A reply's calls, recorded in order before any of them runs. */
    method CallsStart()
      requires Valid() && turn.Calling? && turn.started == 0
      modifies this, store, tree
      ensures Valid() && tree == old(tree) && turn == old(turn).(started := |old(turn).calls|)
      ensures Value() == CallsStarted(old(Value()), |old(turn).calls|)
    {
      hide StartCall, Append;
      var i := 0;
      while i < |turn.calls|
        invariant turn.Calling? && 0 <= i <= |turn.calls| && turn == old(turn).(started := i)
        invariant Valid() && tree == old(tree) && Value() == CallsStarted(old(Value()), i)
        decreases |turn.calls| - i
      {
        CallStarts();
        i := i + 1;
      }
    }

    /** The calls run one by one, each answered before the next. */
    method CallsRun(results: seq<string>)
      requires Valid() && turn.Calling? && turn.started == |turn.calls| && turn.answered == 0 &&
               |results| <= |turn.calls|
      modifies this, store, tree
      ensures Valid() && tree == old(tree) && Value() == CallsEnded(old(Value()), results)
    {
      hide EndCall, Append;
      var i := 0;
      while i < |results|
        invariant turn.Calling? && 0 <= i <= |results| && turn == old(turn).(answered := i)
        invariant Valid() && tree == old(tree) && Value() == CallsEnded(old(Value()), results[..i])
        decreases |results| - i
      {
        assert results[..i + 1][..i] == results[..i];
        CallEnds(results[i]);
        i := i + 1;
      }
      assert results[..i] == results;
    }
  }

  method FindMessage(evs: seq<Event>, id: Id) returns (started: Option<Event>, ended: Option<Event>)
    ensures started == StartOf(evs, id) && ended == EndOf(evs, id)
  {
    started, ended := None, None;
    var i := 0;
    while i < |evs|
      invariant 0 <= i <= |evs|
      invariant started == StartOf(evs[..i], id) && ended == EndOf(evs[..i], id)
    {
      assert evs[..i + 1][..i] == evs[..i];
      if evs[i].payload.MessageStarted? && evs[i].payload.messageId == id {
        started := Some(evs[i]);
      }
      if evs[i].payload.MessageDone? && evs[i].payload.messageId == id {
        ended := Some(evs[i]);
      }
      i := i + 1;
    }
    assert evs[..i] == evs;
  }

  /** The first n calls of the reply in progress started. */
  function CallsStarted(s: State, n: nat): State {
    if n == 0 then s else StartCall(CallsStarted(s, n - 1))
  }

  /** Its calls answered with results, in order. */
  function CallsEnded(s: State, results: seq<string>): State {
    if results == [] then s else EndCall(CallsEnded(s, results[..|results| - 1]), results[|results| - 1])
  }
}
