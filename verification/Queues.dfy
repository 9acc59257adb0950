/** Queued messages are conserved: each ends in exactly one way, and the
    delivered ones become one user message each, in order. */
module Queues {
  import opened Events
  import opened Branches
  import opened Model
  import Live

  // ---- What a log must show ----

  /** What became of a message in the queue. */
  datatype Fate = WasQueued | WasCancelled | WasDelivered

  predicate Is(p: Payload, id: Id, f: Fate) {
    match f
    case WasQueued => p.MessageQueued? && p.queueId == id
    case WasCancelled => p.QueuedMessageUpdated? && p.queueId == id && p.cancelled
    case WasDelivered => p.QueuedMessageDelivered? && p.queueId == id
  }

  function Times(log: seq<Event>, id: Id, f: Fate): nat {
    if log == [] then 0
    else Times(log[..|log| - 1], id, f) + if Is(log[|log| - 1].payload, id, f) then 1 else 0
  }

  function Waiting(q: seq<Queued>, id: Id): nat {
    if q == [] then 0 else (if q[0].id == id then 1 else 0) + Waiting(q[1..], id)
  }

  /** The text a queued message was last given. */
  function LastText(log: seq<Event>, id: Id): string {
    if log == [] then ""
    else
      var p := log[|log| - 1].payload;
      if (p.MessageQueued? || p.QueuedMessageUpdated?) && p.queueId == id then p.text
      else LastText(log[..|log| - 1], id)
  }

  /** A delivery hands over the head of the queue: the events after it are the
      whole user message, on the same branch. */
  ghost predicate HandsOver(log: seq<Event>, i: int, head: Queued)
    requires 0 <= i < |log| && log[i].payload.QueuedMessageDelivered?
  {
    var p, b := log[i].payload, log[i].branch;
    && i + 3 < |log| && head.id == p.queueId
    && log[i + 1].payload == MessageStarted(p.messageId, User) && log[i + 1].branch == b
    && log[i + 2].payload == TextDelta(p.messageId, head.text) && log[i + 2].branch == b
    && log[i + 3].payload == MessageDone(p.messageId, head.text) && log[i + 3].branch == b
  }

  /** What may be logged next. */
  ghost predicate Allowed(before: seq<Event>, p: Payload) {
    && (p.MessageQueued? ==> forall j :: 0 <= j < |before| ==> !Is(before[j].payload, p.queueId, WasQueued))
    && (p.MessageStarted? ==> forall j :: 0 <= j < |before| ==>
          !(before[j].payload.MessageStarted? && before[j].payload.messageId == p.messageId))
    && (p.QueuedMessageUpdated? ==> InQueue(QueueOf(before), p.queueId))
    && (p.QueuedMessageDelivered? ==> QueueOf(before) != [] && QueueOf(before)[0].id == p.queueId)
  }

  ghost predicate LawfulAt(log: seq<Event>, i: int)
    requires 0 <= i < |log|
  {
    && Allowed(log[..i], log[i].payload)
    && (log[i].payload.QueuedMessageDelivered? ==> HandsOver(log, i, QueueOf(log[..i])[0]))
  }

  ghost predicate Lawful(log: seq<Event>) {
    forall i :: 0 <= i < |log| ==> LawfulAt(log, i)
  }

  /** The ids of queued and started messages were minted already. */
  predicate FreshBelow(p: Payload, n: nat) {
    && (p.MessageQueued? ==> p.queueId.Minted? && p.queueId.n < n)
    && (p.MessageStarted? ==> p.messageId.Minted? && p.messageId.n < n)
  }

  ghost predicate AllFresh(log: seq<Event>, n: nat) {
    forall i :: 0 <= i < |log| ==> FreshBelow(log[i].payload, n)
  }

  ghost predicate Orderly(s: State) {
    Lawful(s.log) && s.queue == QueueOf(s.log) && AllFresh(s.log, s.minted)
  }

  // ---- Appending ----

  lemma LawfulLonger(log: seq<Event>, log': seq<Event>, i: nat)
    requires |log| <= |log'| && log'[..|log|] == log && i < |log| && LawfulAt(log, i)
    ensures LawfulAt(log', i)
  {
    assert log'[..i] == log[..i];
    forall j | 0 <= j < |log| ensures log'[j] == log[j] {
      assert log'[..|log|][j] == log[j];
    }
  }

  lemma LawfulMore(log: seq<Event>, log': seq<Event>)
    requires |log| <= |log'| && log'[..|log|] == log && Lawful(log)
    requires forall i :: |log| <= i < |log'| ==> LawfulAt(log', i)
    ensures Lawful(log')
  {
    hide LawfulAt;
    forall i | 0 <= i < |log| ensures LawfulAt(log', i) {
      LawfulLonger(log, log', i);
    }
  }

  /** One more event that is allowed, and no delivery. */
  lemma LawfulOneMore(log: seq<Event>, ev: Event)
    requires Lawful(log) && Allowed(log, ev.payload) && !ev.payload.QueuedMessageDelivered?
    ensures Lawful(log + [ev])
  {
    var log' := log + [ev];
    assert log'[..|log|] == log && log'[|log|] == ev;
    assert LawfulAt(log', |log|);
    hide LawfulAt;
    LawfulMore(log, log');
  }

  lemma FreshOneMore(log: seq<Event>, ev: Event, n: nat, n': nat)
    requires AllFresh(log, n) && n <= n' && FreshBelow(ev.payload, n')
    ensures AllFresh(log + [ev], n')
  {
  }

  lemma QueueOneMore(log: seq<Event>, ev: Event)
    ensures QueueOf(log + [ev]) == QueueAfter(QueueOf(log), ev.payload)
  {
    assert (log + [ev])[..|log|] == log;
  }

  /** An append of something allowed, and the queue it leaves. */
  lemma AppendAllowed(s: State, s1: State, p: Payload, s': State)
    requires Orderly(s) && Allowed(s.log, p) && !p.QueuedMessageDelivered?
    requires s1.log == s.log && s1.minted >= s.minted && FreshBelow(p, s1.minted)
    requires s'.log == Append(s1, p).log && s'.minted == s1.minted && s'.queue == QueueAfter(s.queue, p)
    ensures Orderly(s')
  {
    hide Lawful, AllFresh, QueueOf, QueueAfter, Allowed, FreshBelow;
    var ev := NextEvent(s1.info, p);
    LawfulOneMore(s.log, ev);
    FreshOneMore(s.log, ev, s.minted, s1.minted);
    QueueOneMore(s.log, ev);
  }

  /** An event that starts no message and does nothing to the queue. */
  lemma AppendOrderly(s: State, p: Payload)
    requires Orderly(s) && !QueueKind(p) && !p.MessageStarted?
    ensures Orderly(Append(s, p))
  {
    hide Orderly;
    AppendAllowed(s, s, p, Append(s, p));
  }

  lemma SameOrderly(s: State, s': State)
    requires Orderly(s) && s'.log == s.log && s'.queue == s.queue && s'.minted >= s.minted
    ensures Orderly(s')
  {
    hide Lawful, QueueOf;
  }

  /** The next id is in no event. */
  lemma NextIdUnused(s: State)
    requires Orderly(s)
    ensures forall j :: 0 <= j < |s.log| ==> !Is(s.log[j].payload, Minted(s.minted), WasQueued)
    ensures forall j :: 0 <= j < |s.log| ==>
      !(s.log[j].payload.MessageStarted? && s.log[j].payload.messageId == Minted(s.minted))
  {
    forall j | 0 <= j < |s.log|
      ensures !Is(s.log[j].payload, Minted(s.minted), WasQueued)
      ensures !(s.log[j].payload.MessageStarted? && s.log[j].payload.messageId == Minted(s.minted))
    {
      assert FreshBelow(s.log[j].payload, s.minted);
    }
  }

  /** A message under the next id. */
  lemma StartOrderly(s: State, role: Role)
    requires Orderly(s)
    ensures Orderly(Append(Mint(s), MessageStarted(Minted(s.minted), role)))
  {
    hide Orderly;
    NextIdUnused(s);
    var p := MessageStarted(Minted(s.minted), role);
    AppendAllowed(s, Mint(s), p, Append(Mint(s), p));
  }

  lemma UserOrderly(s: State, text: string)
    requires Orderly(s)
    ensures Orderly(AppendUser(s, text))
  {
    hide Orderly;
    var id := Minted(s.minted);
    StartOrderly(s, User);
    AppendOrderly(Append(Mint(s), MessageStarted(id, User)), TextDelta(id, text));
    AppendOrderly(Append(Append(Mint(s), MessageStarted(id, User)), TextDelta(id, text)), MessageDone(id, text));
  }

  lemma QueueOrderly(s: State, text: string, client: string)
    requires Orderly(s)
    ensures var id := Minted(s.minted);
            var s1 := Append(Mint(s), MessageQueued(id, text, client));
            Orderly(s1.(queue := s1.queue + [Queued(id, text, client)]))
  {
    hide Orderly;
    NextIdUnused(s);
    var id := Minted(s.minted);
    var p := MessageQueued(id, text, client);
    AppendAllowed(s, Mint(s), p, Append(Mint(s), p).(queue := s.queue + [Queued(id, text, client)]));
  }

  lemma UpdateOrderly(s: State, id: Id, text: string, cancel: bool)
    requires Orderly(s)
    ensures Orderly(UpdateQueued(s, id, text, cancel).0)
  {
    assert s.queue == QueueOf(s.log);
    hide Orderly;
    if InQueue(s.queue, id) {
      AppendAllowed(s, s, QueuedMessageUpdated(id, text, cancel), UpdateQueued(s, id, text, cancel).0);
    }
  }

  lemma DeliverOneLog(s: State)
    requires s.queue != []
    ensures var n, log', q, id := |s.log|, DeliverOne(s).log, s.queue[0], Minted(s.minted);
            && |log'| == n + 4 && log'[..n] == s.log && DeliverOne(s).queue == s.queue[1..] &&
               DeliverOne(s).minted == s.minted + 1
            && log'[n].payload == QueuedMessageDelivered(q.id, id) && HandsOver(log', n, q)
  {
  }

  lemma DeliveredQueue(log: seq<Event>, log': seq<Event>)
    requires |log'| == |log| + 4 && log'[..|log|] == log && QueueOf(log) != []
    requires log'[|log|].payload.QueuedMessageDelivered? && HandsOver(log', |log|, QueueOf(log)[0])
    ensures QueueOf(log') == QueueOf(log)[1..]
  {
    hide QueueOf;
    var n := |log|;
    assert log'[..n + 1][..n] == log && log'[..n + 2][..n + 1] == log'[..n + 1];
    assert log'[..n + 3][..n + 2] == log'[..n + 2] && log'[..n + 4] == log';
    forall k | n <= k < n + 4 ensures QueueOf(log'[..k + 1]) == QueueAfter(QueueOf(log'[..k]), log'[k].payload) {
      assert log'[..k + 1] == log'[..k] + [log'[k]];
      QueueOneMore(log'[..k], log'[k]);
    }
    assert QueueOf(log'[..n + 1]) == QueueOf(log)[1..];
    assert QueueOf(log'[..n + 2]) == QueueOf(log)[1..];
    assert QueueOf(log'[..n + 3]) == QueueOf(log)[1..];
  }

  lemma DeliverOneOrderly(s: State)
    requires Orderly(s) && s.queue != []
    ensures Orderly(DeliverOne(s))
  {
    hide DeliverOne, Lawful, LawfulAt, QueueOf, AllFresh;
    var log' := DeliverOne(s).log;
    DeliverOneLog(s);
    DeliveredQueue(s.log, log');
    DeliveryLawful(s, log');
    LawfulMore(s.log, log');
    DeliveryFresh(s, log');
  }

  lemma DeliveryLawful(s: State, log': seq<Event>)
    requires Orderly(s) && s.queue != [] && |log'| == |s.log| + 4 && log'[..|s.log|] == s.log
    requires log'[|s.log|].payload == QueuedMessageDelivered(s.queue[0].id, Minted(s.minted))
    requires HandsOver(log', |s.log|, s.queue[0])
    ensures forall i :: |s.log| <= i < |log'| ==> LawfulAt(log', i)
  {
    var n := |s.log|;
    forall j | 0 <= j < n ensures log'[j] == s.log[j] && FreshBelow(log'[j].payload, s.minted) {
      assert log'[..n][j] == s.log[j];
    }
    assert LawfulAt(log', n);
    assert LawfulAt(log', n + 1) && LawfulAt(log', n + 2) && LawfulAt(log', n + 3);
  }

  lemma DeliveryFresh(s: State, log': seq<Event>)
    requires AllFresh(s.log, s.minted) && |log'| == |s.log| + 4 && log'[..|s.log|] == s.log
    requires s.queue != [] && log'[|s.log|].payload == QueuedMessageDelivered(s.queue[0].id, Minted(s.minted))
    requires HandsOver(log', |s.log|, s.queue[0])
    ensures AllFresh(log', s.minted + 1)
  {
    var n := |s.log|;
    forall j | 0 <= j < n ensures log'[j] == s.log[j] {
      assert log'[..n][j] == s.log[j];
    }
  }

  lemma {:induction false} DeliverOrderly(s: State)
    requires Orderly(s)
    ensures Orderly(Deliver(s))
    decreases |s.queue|
  {
    if s.queue != [] {
      hide Orderly;
      DeliverOneOrderly(s);
      DeliverOrderly(DeliverOne(s));
    }
  }

  // ---- Every step ----

  lemma StartTurnOrderly(s: State)
    requires Orderly(s)
    ensures Orderly(StartTurn(s)) && Orderly(StartCompaction(s))
  {
    hide Orderly;
    var p, q := TaskStateChanged(Working, ""), TaskStateChanged(Working, "compacting");
    AppendOrderly(s, p);
    AppendOrderly(s, q);
    SameOrderly(Append(s, p), StartTurn(s));
    SameOrderly(Append(s, q), StartCompaction(s));
  }

  lemma SendOrderly(s: State, text: string, client: string)
    requires Orderly(s)
    ensures Orderly(Send(s, text, client).0)
  {
    hide Orderly, Blank, Deliver, AppendUser, StartTurn, Append;
    QueueOrderly(s, text, client);
    DeliverOrderly(s);
    UserOrderly(Deliver(s), text);
    StartTurnOrderly(Deliver(s));
    StartTurnOrderly(AppendUser(Deliver(s), text));
  }

  lemma BranchedOrderly(s: State, parent: Id, forkSeq: int, kind: BranchKind, messageId: Id)
    requires Orderly(s)
    ensures Orderly(Branched(s, parent, forkSeq, kind, messageId))
  {
    hide Orderly;
    var p := BranchCreated(Minted(s.minted), parent, forkSeq, kind, messageId);
    SameOrderly(s, Mint(s));
    AppendOrderly(Mint(s), p);
    AppendOrderly(Append(Mint(s), p), BranchSwitched(Minted(s.minted)));
  }

  lemma ForkOrderly(s: State, messageId: Id, text: string, edit: bool)
    requires Orderly(s)
    ensures Orderly(Fork(s, messageId, text, edit).0)
  {
    hide Orderly, Filtered, PathOf, MessageLog, Branched, AppendUser, StartTurn;
    var evs := Filtered(PathOf(s.tree, s.info.branch), MessageLog(s.log));
    if Fork(s, messageId, text, edit).1.Forked? {
      var started, ended := StartOf(evs, messageId).value, EndOf(evs, messageId).value;
      if edit {
        var s1 := Branched(s, started.branch, started.no - 1, Edit, messageId);
        BranchedOrderly(s, started.branch, started.no - 1, Edit, messageId);
        UserOrderly(s1, text);
        StartTurnOrderly(AppendUser(s1, text));
      } else {
        BranchedOrderly(s, started.branch, ended.no, Retry, messageId);
        StartTurnOrderly(Branched(s, started.branch, ended.no, Retry, messageId));
      }
    }
  }

  lemma EndTurnOrderly(s: State, e: End)
    requires Orderly(s)
    ensures Orderly(EndTurn(s, e))
  {
    hide Orderly, StartCompaction, StartTurn, Deliver, Append;
    var s0, p := s.(turn := NoTurn, compactAsk := false), TaskStateChanged(e.state, e.reason);
    SameOrderly(s, s0);
    AppendOrderly(s0, p);
    StartTurnOrderly(Append(s0, p));
    DeliverOrderly(Append(s0, p));
    StartTurnOrderly(Deliver(Append(s0, p)));
  }

  lemma LoadedOrderly(s: State)
    requires Orderly(s)
    ensures Orderly(Loaded(s))
  {
    hide Lawful, QueueOf, TreeOf;
  }

  lemma RestartOrderly(s: State)
    requires Orderly(s)
    ensures Orderly(Restart(s))
  {
    hide Orderly, Loaded, Append;
    LoadedOrderly(s);
    AppendOrderly(Loaded(s), TaskStateChanged(Stuck, "flit restarted during the turn"));
  }

  lemma StepOrderly(s: State)
    requires Orderly(s)
    ensures Orderly(Step(s))
  {
    hide Orderly, Deliver;
    DeliverOrderly(s);
    SameOrderly(s, s.(turn := Ready(true)));
    SameOrderly(Deliver(s), Deliver(s).(turn := Ready(true)));
  }

  lemma OneAppendOrderly(s: State, s': State, p: Payload)
    requires Orderly(s) && !QueueKind(p) && !p.MessageStarted?
    requires s'.log == Append(s, p).log && s'.queue == s.queue && s'.minted >= s.minted
    ensures Orderly(s')
  {
    hide Orderly;
    AppendOrderly(s, p);
    SameOrderly(Append(s, p), s');
  }

  lemma TurnStepOrderly(s: State, op: Op)
    requires Orderly(s)
    requires op.OpEndCompaction? || op.OpStartReply? || op.OpEndReply? ||
             op.OpStartCall? || op.OpEndCall? || op.OpAsk? || op.OpResume? || op.OpNextStep?
    ensures Orderly(Apply(s, op))
  {
    hide Orderly;
    var s' := Apply(s, op);
    if s'.log == s.log {
      SameOrderly(s, s');
    } else if op.OpStartReply? {
      StartOrderly(s, Assistant);
      SameOrderly(Append(Mint(s), MessageStarted(Minted(s.minted), Assistant)), s');
    } else {
      OneAppendOrderly(s, s', s'.log[|s.log|].payload);
    }
  }

  lemma BeginCompactionOrderly(s: State, keep: int)
    requires Orderly(s) && keep >= 1
    ensures Orderly(BeginCompaction(s, keep))
  {
    hide Orderly;
    var s' := BeginCompaction(s, keep);
    if s'.log == s.log {
      SameOrderly(s, s');
    } else {
      OneAppendOrderly(s, s', s'.log[|s.log|].payload);
    }
  }

  lemma ApplyOrderly(s: State, op: Op)
    requires Orderly(s)
    ensures Orderly(Apply(s, op))
  {
    hide Orderly, Send, UpdateQueued, Fork, Restart, Step, BeginCompaction, EndTurn, MayEnd, Append, Aside,
         StartCompaction;
    match op {
      case OpSend(text, client) => SendOrderly(s, text, client);
      case OpUpdateQueued(id, text, cancel) => UpdateOrderly(s, id, text, cancel);
      case OpFork(id, text, edit) => ForkOrderly(s, id, text, edit);
      case OpSwitch(id) => AppendOrderly(s, BranchSwitched(id));
      case OpRequestCompact(keep, hasModel) =>
        StartTurnOrderly(s);
        SameOrderly(s, s.(compactAsk := true));
      case OpRestart => RestartOrderly(s);
      case OpAside(p) => if Aside(p) { AsideOrderly(s, p); }
      case OpStep => StepOrderly(s);
      case OpBeginCompaction(keep) => if keep >= 1 { BeginCompactionOrderly(s, keep); }
      case OpEndTurn(e) => EndTurnOrderly(s, e);
      case OpInterrupt => SameOrderly(s, Apply(s, op));
      case OpShutdown => SameOrderly(s, Apply(s, op));
      case _ => TurnStepOrderly(s, op);
    }
  }

  lemma AsideOrderly(s: State, p: Payload)
    requires Orderly(s) && Aside(p)
    ensures Orderly(Append(s, p))
  {
    hide Orderly;
    AppendOrderly(s, p);
  }

  lemma {:induction false} RunOrderly(info: Info, ops: seq<Op>)
    ensures Orderly(Run(info, ops))
  {
    if ops != [] {
      hide Orderly, Apply;
      RunOrderly(info, ops[..|ops| - 1]);
      ApplyOrderly(Run(info, ops[..|ops| - 1]), ops[|ops| - 1]);
    }
  }

  // ---- Editing a queue ----

  /** The first message called id. */
  function First(q: seq<Queued>, id: Id): (k: nat)
    requires InQueue(q, id)
    ensures k < |q| && q[k].id == id && forall j :: 0 <= j < k ==> q[j].id != id
  {
    if q[0].id == id then 0
    else
      assert InQueue(q[1..], id) by {
        var i :| 0 <= i < |q| && q[i].id == id;
        assert q[1..][i - 1] == q[i];
      }
      1 + First(q[1..], id)
  }

  lemma EditedIs(q: seq<Queued>, id: Id, text: string, remove: bool)
    requires InQueue(q, id)
    ensures Edited(q, id, text, remove) == EditedAt(q, First(q, id), text, remove)
  {
    EditedFound(q, id, First(q, id), text, remove);
  }

  // ---- Where each message is ----

  /** The place in the log where id was queued, or -1. */
  function Arrived(log: seq<Event>, id: Id): (k: int)
    ensures -1 <= k < |log|
    ensures k >= 0 ==> Is(log[k].payload, id, WasQueued)
  {
    if log == [] then -1
    else if Arrived(log[..|log| - 1], id) >= 0 then Arrived(log[..|log| - 1], id)
    else if Is(log[|log| - 1].payload, id, WasQueued) then |log| - 1 else -1
  }

  /** Messages wait in the order they arrived. */
  ghost predicate InArrivalOrder(q: seq<Queued>, log: seq<Event>) {
    && (forall i :: 0 <= i < |q| ==> Arrived(log, q[i].id) >= 0)
    && (forall i, j :: 0 <= i < j < |q| ==> Arrived(log, q[i].id) < Arrived(log, q[j].id))
  }

  lemma {:induction false} NotArrived(log: seq<Event>, id: Id)
    requires forall j :: 0 <= j < |log| ==> !Is(log[j].payload, id, WasQueued)
    ensures Arrived(log, id) == -1
  {
    if log != [] {
      NotArrived(log[..|log| - 1], id);
    }
  }

  /** Every event was allowed when it was logged. */
  ghost predicate AllAllowed(log: seq<Event>) {
    forall i :: 0 <= i < |log| ==> Allowed(log[..i], log[i].payload)
  }

  lemma LawfulAllowed(log: seq<Event>, k: nat)
    requires Lawful(log) && k <= |log|
    ensures AllAllowed(log[..k])
  {
    forall i | 0 <= i < k ensures Allowed(log[..k][..i], log[..k][i].payload) {
      assert log[..k][..i] == log[..i] && LawfulAt(log, i);
    }
  }

  lemma AllowedPrefix(log: seq<Event>)
    requires AllAllowed(log) && log != []
    ensures AllAllowed(log[..|log| - 1]) && Allowed(log[..|log| - 1], log[|log| - 1].payload)
  {
    var init := log[..|log| - 1];
    forall i | 0 <= i < |init| ensures Allowed(init[..i], init[i].payload) {
      assert init[..i] == log[..i] && Allowed(log[..i], log[i].payload);
    }
  }

  // ---- Conservation ----

  lemma {:induction false} EditedWaiting(q: seq<Queued>, id: Id, text: string, remove: bool, x: Id)
    requires InQueue(q, id)
    ensures Waiting(Edited(q, id, text, remove), x) == Waiting(q, x) - (if remove && x == id then 1 else 0)
  {
    if q[0].id == id {
      var e := q[0].(text := text);
      assert ([e] + q[1..])[1..] == q[1..];
    } else {
      assert InQueue(q[1..], id) by {
        var i :| 0 <= i < |q| && q[i].id == id;
        assert q[1..][i - 1] == q[i];
      }
      EditedWaiting(q[1..], id, text, remove, x);
      assert ([q[0]] + Edited(q[1..], id, text, remove))[1..] == Edited(q[1..], id, text, remove);
    }
  }

  lemma {:induction false} WaitingSnoc(q: seq<Queued>, e: Queued, x: Id)
    ensures Waiting(q + [e], x) == Waiting(q, x) + if e.id == x then 1 else 0
  {
    if q == [] {
      assert ([] + [e])[1..] == [];
    } else {
      assert (q + [e])[1..] == q[1..] + [e];
      WaitingSnoc(q[1..], e, x);
    }
  }

  lemma {:induction false} NotWaiting(q: seq<Queued>, x: Id)
    requires !InQueue(q, x)
    ensures Waiting(q, x) == 0
  {
    if q != [] {
      assert !InQueue(q[1..], x) by {
        forall i | 0 <= i < |q[1..]| ensures q[1..][i].id != x {
          assert q[i + 1] == q[1..][i];
        }
      }
      NotWaiting(q[1..], x);
    }
  }

  /** Every message queued is, at every moment, waiting, cancelled or
      delivered: once, and in one of the three ways. */
  ghost predicate Accounted(log: seq<Event>, id: Id) {
    && Times(log, id, WasQueued) <= 1
    && Times(log, id, WasQueued) ==
       Waiting(QueueOf(log), id) + Times(log, id, WasCancelled) + Times(log, id, WasDelivered)
    && (Times(log, id, WasQueued) == 1 <==> Arrived(log, id) >= 0)
  }

  lemma TimesSnoc(log: seq<Event>, id: Id, f: Fate)
    requires log != []
    ensures Times(log, id, f) ==
            Times(log[..|log| - 1], id, f) + if Is(log[|log| - 1].payload, id, f) then 1 else 0
  {
  }

  lemma WaitingAfter(q: seq<Queued>, p: Payload, id: Id)
    requires p.QueuedMessageUpdated? ==> InQueue(q, p.queueId)
    requires p.QueuedMessageDelivered? ==> InQueue(q, p.queueId)
    ensures Waiting(QueueAfter(q, p), id) ==
            Waiting(q, id) + (if Is(p, id, WasQueued) then 1 else 0)
            - (if Is(p, id, WasCancelled) || Is(p, id, WasDelivered) then 1 else 0)
  {
    match p {
      case MessageQueued(x, text, client) => WaitingSnoc(q, Queued(x, text, client), id);
      case QueuedMessageUpdated(x, text, cancelled) => EditedWaiting(q, x, text, cancelled, id);
      case QueuedMessageDelivered(x, _) => EditedWaiting(q, x, "", true, id);
      case _ =>
    }
  }

  lemma {:induction false} Conserved(log: seq<Event>, id: Id)
    requires AllAllowed(log)
    ensures Accounted(log, id)
  {
    if log != [] {
      var init, p := log[..|log| - 1], log[|log| - 1].payload;
      AllowedPrefix(log);
      Conserved(init, id);
      if Is(p, id, WasQueued) {
        NotArrived(init, id);
      }
      hide Times, Waiting, QueueAfter, AllAllowed;
      TimesSnoc(log, id, WasQueued);
      TimesSnoc(log, id, WasCancelled);
      TimesSnoc(log, id, WasDelivered);
      WaitingAfter(QueueOf(init), p, id);
    }
  }

  /** Every waiting message has its latest text. */
  ghost predicate LatestTexts(q: seq<Queued>, log: seq<Event>) {
    forall k :: 0 <= k < |q| ==> q[k].text == LastText(log, q[k].id)
  }

  lemma {:induction false} WaitInOrder(log: seq<Event>)
    requires AllAllowed(log)
    ensures InArrivalOrder(QueueOf(log), log) && LatestTexts(QueueOf(log), log)
  {
    if log != [] {
      var p := log[|log| - 1].payload;
      AllowedPrefix(log);
      WaitInOrder(log[..|log| - 1]);
      if p.MessageQueued? {
        NotArrived(log[..|log| - 1], p.queueId);
        QueuedLast(log);
      } else if QueueKind(p) {
        EditedInOrder(log);
      }
    }
  }

  lemma {:induction false} QueuedLast(log: seq<Event>)
    requires log != [] && log[|log| - 1].payload.MessageQueued?
    requires var init := log[..|log| - 1];
             InArrivalOrder(QueueOf(init), init) && LatestTexts(QueueOf(init), init) &&
             Arrived(init, log[|log| - 1].payload.queueId) == -1
    ensures InArrivalOrder(QueueOf(log), log) && LatestTexts(QueueOf(log), log)
  {
    var q, q' := QueueOf(log[..|log| - 1]), QueueOf(log);
    forall i | 0 <= i < |q| ensures q'[i] == q[i] && Arrived(log, q[i].id) == Arrived(log[..|log| - 1], q[i].id) {}
  }

  /** The first message called id changed or removed. */
  lemma {:induction false} EditedInOrder(log: seq<Event>)
    requires log != [] && (log[|log| - 1].payload.QueuedMessageUpdated? ||
             log[|log| - 1].payload.QueuedMessageDelivered?)
    requires var init := log[..|log| - 1];
             InArrivalOrder(QueueOf(init), init) && LatestTexts(QueueOf(init), init) &&
             InQueue(QueueOf(init), log[|log| - 1].payload.queueId)
    ensures InArrivalOrder(QueueOf(log), log) && LatestTexts(QueueOf(log), log)
  {
    hide QueueOf, LastText, Arrived, Edited, EditedAt, InQueue, InArrivalOrder, LatestTexts, LatestBut;
    var q, p := QueueOf(log[..|log| - 1]), log[|log| - 1].payload;
    var text := if p.QueuedMessageUpdated? then p.text else "";
    var remove := p.QueuedMessageDelivered? || p.cancelled;
    EditedLast(log, p, text, remove);
    FirstInQueue(q, p.queueId);
    var k: nat :| k < |q| && q[k].id == p.queueId && Edited(q, p.queueId, text, remove) == EditedAt(q, k, text, remove);
    OthersUnchanged(log, q, k);
    if remove {
      RemovedInOrder(q, k, log);
    } else {
      ChangedInOrder(q, k, text, log);
    }
  }

  lemma {:induction false} EditedLast(log: seq<Event>, p: Payload, text: string, remove: bool)
    requires log != [] && p == log[|log| - 1].payload && (p.QueuedMessageUpdated? || p.QueuedMessageDelivered?)
    requires text == if p.QueuedMessageUpdated? then p.text else ""
    requires remove == (p.QueuedMessageDelivered? || p.cancelled)
    ensures QueueOf(log) == Edited(QueueOf(log[..|log| - 1]), p.queueId, text, remove)
  {
  }

  lemma {:induction false} FirstInQueue(q: seq<Queued>, id: Id)
    requires InQueue(q, id)
    ensures exists k: nat :: k < |q| && q[k].id == id &&
              forall text, remove :: Edited(q, id, text, remove) == EditedAt(q, k, text, remove)
  {
    var k := First(q, id);
    hide Edited, EditedAt, First;
    forall text, remove ensures Edited(q, id, text, remove) == EditedAt(q, k, text, remove) {
      EditedIs(q, id, text, remove);
    }
  }

  ghost predicate LatestBut(q: seq<Queued>, k: nat, log: seq<Event>) {
    forall i :: 0 <= i < |q| && i != k ==> q[i].text == LastText(log, q[i].id)
  }

  lemma {:induction false} OthersUnchanged(log: seq<Event>, q: seq<Queued>, k: nat)
    requires log != [] && (log[|log| - 1].payload.QueuedMessageUpdated? ||
             log[|log| - 1].payload.QueuedMessageDelivered?)
    requires var init := log[..|log| - 1];
             InArrivalOrder(q, init) && LatestTexts(q, init) && k < |q| && q[k].id == log[|log| - 1].payload.queueId
    ensures InArrivalOrder(q, log) && LatestBut(q, k, log)
    ensures var p := log[|log| - 1].payload; p.QueuedMessageUpdated? ==> LastText(log, q[k].id) == p.text
  {
    var init := log[..|log| - 1];
    forall i | 0 <= i < |q| && i != k ensures q[i].id != q[k].id {
      assert i < k ==> Arrived(init, q[i].id) < Arrived(init, q[k].id);
      assert i > k ==> Arrived(init, q[k].id) < Arrived(init, q[i].id);
    }
  }

  lemma RemovedInOrder(q: seq<Queued>, k: nat, log: seq<Event>)
    requires InArrivalOrder(q, log) && LatestBut(q, k, log) && k < |q|
    ensures var q' := EditedAt(q, k, "", true); InArrivalOrder(q', log) && LatestTexts(q', log)
    ensures forall text :: EditedAt(q, k, text, true) == EditedAt(q, k, "", true)
  {
    hide LastText, Arrived;
    var q' := q[..k] + q[k + 1..];
    forall i | 0 <= i < |q'| ensures q'[i] == q[if i < k then i else i + 1] {}
  }

  lemma ChangedInOrder(q: seq<Queued>, k: nat, text: string, log: seq<Event>)
    requires InArrivalOrder(q, log) && LatestBut(q, k, log) && k < |q| && LastText(log, q[k].id) == text
    ensures var q' := EditedAt(q, k, text, false); InArrivalOrder(q', log) && LatestTexts(q', log)
  {
    hide LastText, Arrived;
  }

  lemma {:induction false} ArrivedBy(log: seq<Event>, id: Id, k: nat)
    requires k <= |log|
    ensures Arrived(log[..k], id) == if Arrived(log, id) < k then Arrived(log, id) else -1
  {
    if k < |log| {
      ArrivedBy(log[..|log| - 1], id, k);
      assert log[..|log| - 1][..k] == log[..k];
    } else {
      assert log[..k] == log;
    }
  }

  lemma {:induction false} TimesFound(log: seq<Event>, id: Id, f: Fate)
    requires Times(log, id, f) > 0
    ensures exists e :: 0 <= e < |log| && Is(log[e].payload, id, f)
  {
    if !Is(log[|log| - 1].payload, id, f) {
      TimesFound(log[..|log| - 1], id, f);
      var e :| 0 <= e < |log| - 1 && Is(log[..|log| - 1][e].payload, id, f);
      assert Is(log[e].payload, id, f);
    }
  }

  // ---- Over every run ----

  /** In every reachable session each queued message is in exactly one place:
      waiting, cancelled or delivered, and nothing else is in the queue. */
  lemma QueueConserved(info: Info, ops: seq<Op>, id: Id)
    requires New(info)
    ensures var s := Run(info, ops);
            var waiting, cancelled := Waiting(s.queue, id), Times(s.log, id, WasCancelled);
            var delivered := Times(s.log, id, WasDelivered);
            if Times(s.log, id, WasQueued) == 0 then waiting + cancelled + delivered == 0
            else Times(s.log, id, WasQueued) == 1 && waiting + cancelled + delivered == 1
  {
    var s := Run(info, ops);
    RunOrderly(info, ops);
    LawfulAllowed(s.log, |s.log|);
    assert s.log[..|s.log|] == s.log;
    Conserved(s.log, id);
  }

  /** A delivery at i makes exactly one user message, on the active branch,
      with the text its queued message was last given. */
  lemma DeliveredOnce(info: Info, ops: seq<Op>, i: nat)
    requires var s := Run(info, ops); i < |s.log| && s.log[i].payload.QueuedMessageDelivered?
    ensures var log := Run(info, ops).log;
            var p, b := log[i].payload, log[i].branch; var text := LastText(log[..i], p.queueId);
            && i + 3 < |log|
            && log[i + 1].payload == MessageStarted(p.messageId, User) && log[i + 1].branch == b
            && log[i + 2].payload == TextDelta(p.messageId, text) && log[i + 2].branch == b
            && log[i + 3].payload == MessageDone(p.messageId, text) && log[i + 3].branch == b
            && forall j ::
                 0 <= j < |log| && log[j].payload.MessageStarted? && log[j].payload.messageId == p.messageId ==>
                 j == i + 1
  {
    var log := Run(info, ops).log;
    RunOrderly(info, ops);
    assert LawfulAt(log, i);
    LawfulAllowed(log, i);
    WaitInOrder(log[..i]);
    var p := log[i].payload;
    forall j | 0 <= j < |log| && log[j].payload.MessageStarted? && log[j].payload.messageId == p.messageId
      ensures j == i + 1
    {
      if j < i + 1 {
        StartedOnce(log, j, i + 1);
      } else if j > i + 1 {
        StartedOnce(log, i + 1, j);
      }
    }
  }

  lemma StartedOnce(log: seq<Event>, i: nat, j: nat)
    requires Lawful(log) && i < j < |log| && log[i].payload.MessageStarted? && log[j].payload.MessageStarted?
    ensures log[i].payload.messageId != log[j].payload.messageId
  {
    assert LawfulAt(log, j) && log[..j][i] == log[i];
  }

  /** Messages are delivered in the order they were queued: when one is, every
      message queued before it has been delivered or cancelled. */
  lemma DeliveredInOrder(info: Info, ops: seq<Op>, a: Id, b: Id, d: nat)
    requires var log := Run(info, ops).log;
             && d < |log| && Is(log[d].payload, b, WasDelivered)
             && 0 <= Arrived(log, a) < Arrived(log, b)
    ensures var log := Run(info, ops).log;
            exists e :: 0 <= e < d && (Is(log[e].payload, a, WasCancelled) || Is(log[e].payload, a, WasDelivered))
  {
    hide Run, Times, Arrived, Is, AllAllowed;
    var log := Run(info, ops).log;
    RunOrderly(info, ops);
    FirstDelivered(log, d, b);
    LawfulAllowed(log, d);
    WaitInOrder(log[..d]);
    ArrivedBy(log, a, d);
    ArrivedBy(log, b, d);
    assert Arrived(log[..d], QueueOf(log[..d])[0].id) >= 0;
    hide Lawful, Orderly;
    NotInQueue(log[..d], a, b);
    Gone(log[..d], a);
    var e :| 0 <= e < d && (Is(log[..d][e].payload, a, WasCancelled) || Is(log[..d][e].payload, a, WasDelivered));
    assert log[..d][e] == log[e];
  }

  /** What is delivered is the first in the queue. */
  lemma FirstDelivered(log: seq<Event>, d: nat, b: Id)
    requires Lawful(log) && d < |log| && Is(log[d].payload, b, WasDelivered)
    ensures QueueOf(log[..d]) != [] && QueueOf(log[..d])[0].id == b
  {
    assert LawfulAt(log, d);
  }

  /** A message that came and does not wait was cancelled or delivered. */
  lemma Gone(log: seq<Event>, a: Id)
    requires AllAllowed(log) && !InQueue(QueueOf(log), a) && Arrived(log, a) >= 0
    ensures exists e :: 0 <= e < |log| && (Is(log[e].payload, a, WasCancelled) || Is(log[e].payload, a, WasDelivered))
  {
    hide AllAllowed;
    NotWaiting(QueueOf(log), a);
    Conserved(log, a);
    var f := if Times(log, a, WasCancelled) > 0 then WasCancelled else WasDelivered;
    TimesFound(log, a, f);
    var e :| 0 <= e < |log| && Is(log[e].payload, a, f);
  }

  lemma NotInQueue(log: seq<Event>, a: Id, b: Id)
    requires InArrivalOrder(QueueOf(log), log) && QueueOf(log) != [] && QueueOf(log)[0].id == b
    requires Arrived(log, a) < Arrived(log, b)
    ensures !InQueue(QueueOf(log), a)
  {
  }

  // ---- When messages wait in an idle session ----

  /** A step that ends a turn and leaves the queue alone: an interrupt, any
      end while the server shuts down, or the server going away. */
  predicate Halts(s: State, op: Op) {
    s.turn != NoTurn && (op.OpRestart? || (op.OpEndTurn? && (op.end == END_INTERRUPTED || s.closing)))
  }

  lemma IdleStep(s: State, info: Info, op: Op)
    requires Live.Replays(s, info) && !Halts(s, op)
    ensures var s' := Apply(s, op);
            s'.turn == NoTurn && s'.queue != [] ==> s.turn == NoTurn && s.queue != []
  {
    match op {
      case OpRestart => LoadedQueue(s, info);
      case OpEndTurn(e) => EndTurnIdle(s, e);
      case OpFork(id, text, edit) => ForkIdle(s, id, text, edit);
      case OpSend(text, client) => SendIdle(s, text, client);
      case OpBeginCompaction(keep) => if keep >= 1 { BeginCompactionIdle(s, keep); }
      case _ =>
    }
  }

  lemma LoadedQueue(s: State, info: Info)
    requires Live.Replays(s, info)
    ensures Restart(s).queue == s.queue
  {
  }

  lemma EndTurnIdle(s: State, e: End)
    ensures var s' := EndTurn(s, e);
            s'.turn == NoTurn && s'.queue != [] ==> e == END_INTERRUPTED || s.closing
  {
  }

  lemma ForkIdle(s: State, id: Id, text: string, edit: bool)
    ensures Fork(s, id, text, edit).0 == s || Fork(s, id, text, edit).0.turn != NoTurn
  {
  }

  lemma SendIdle(s: State, text: string, client: string)
    ensures Send(s, text, client).0 == s || Send(s, text, client).0.turn != NoTurn
  {
  }

  lemma BeginCompactionIdle(s: State, keep: int)
    requires keep >= 1
    ensures BeginCompaction(s, keep) == s || BeginCompaction(s, keep).turn != NoTurn
  {
  }

  /** Step i cut a turn short, and none has run since. */
  ghost predicate CutShort(info: Info, ops: seq<Op>, i: int) {
    && 0 <= i < |ops| && Halts(Run(info, ops[..i]), ops[i])
    && forall j :: i < j <= |ops| ==> Run(info, ops[..j]).turn == NoTurn
  }

  /** An idle session has messages waiting only after a turn was interrupted,
      or cut short by a shutdown or restart, with no turn since. */
  lemma {:induction false} IdleQueueWasCutShort(info: Info, ops: seq<Op>)
    requires New(info) && Run(info, ops).turn == NoTurn && Run(info, ops).queue != []
    ensures exists i :: CutShort(info, ops, i)
  {
    hide Run, Apply;
    if ops == [] {
      CreatedEmpty(info);
    } else {
      var before, op := ops[..|ops| - 1], ops[|ops| - 1];
      var s := Run(info, before);
      Live.RunReplays(info, before);
      Live.RunOne(info, ops);
      assert ops[..|ops|] == ops;
      if Halts(s, op) {
        assert CutShort(info, ops, |ops| - 1);
      } else {
        IdleStep(s, info, op);
        IdleQueueWasCutShort(info, before);
        var i :| CutShort(info, before, i);
        forall j | 0 <= j < |ops| ensures before[..j] == ops[..j] {}
        assert CutShort(info, ops, i);
      }
    }
  }

  lemma CreatedEmpty(info: Info)
    ensures Run(info, []).queue == []
  {
  }
}
