/** A session as a state machine: what each operation under the session's
    lock, and each step of a turn's goroutine, does to the log and to the
    state kept beside it. */
module Model {
  import opened Events
  import opened Branches
  import opened Context
  import opened Compact
  import Chat

  // ---- State ----

  /** The columns of a session's row that appending an event changes; the live
      session keeps a copy. */
  datatype Info = Info(lastNo: int, state: TaskState, tokens: int, contextLength: int, worktreeRemoved: bool,
                       branch: Id, role: string)

  datatype Queued = Queued(id: Id, text: string, client: string)

  /** Where the turn's goroutine is. Boundary is the top of its loop, Ready
      has the next request built, Summarizing waits for a summary, Streaming
      for the reply opened as id, and Calling records the reply's calls and
      then runs them one by one. CompactionRun is a compaction between turns.
      Over has only the end to record. */
  datatype Turn =
    | NoTurn
    | Boundary(first: bool)
    | Ready(mayCompact: bool)
    | CompactionRun
    | Summarizing(covered: int, kept: int, inTurn: bool)
    | Streaming(id: Id)
    | Calling(id: Id, calls: seq<Chat.Call>, started: nat, answered: nat)
    | Over

  datatype State = State(log: seq<Event>, row: Info, info: Info, tree: TreeValue, queue: seq<Queued>, turn: Turn,
                         cancelled: bool, compactAsk: bool, closing: bool, minted: nat)

  function Created(info: Info): State {
    State([], info, info, UNFORKED, [], NoTurn, false, false, false, 0)
  }

  /** A session just created: nothing logged, idle on the root branch. */
  predicate New(info: Info) {
    info.lastNo == 0 && info.state == Idle && info.branch == ROOT
  }

  // ---- Appending ----

  /** What appending an event changes, in the row as in the live copy. */
  function Recorded(info: Info, ev: Event): Info {
    var i := info.(lastNo := ev.no);
    match ev.payload
    case TaskStateChanged(state, _) => i.(state := state)
    case Usage(tokens, length) => i.(tokens := tokens, contextLength := length)
    case ModelChanged(length) => i.(contextLength := length)
    case CompactionDone(error, _, _, tokensAfter, _) => if error == "" then i.(tokens := tokensAfter) else i
    case WorktreeRemoved => i.(worktreeRemoved := true)
    case BranchSwitched(id) => i.(branch := id)
    case RoleChanged(role) => i.(role := role)
    case _ => i
  }

  function NextEvent(info: Info, p: Payload): Event {
    Event(info.lastNo + 1, if p.BranchSwitched? then p.branchId else info.branch, p)
  }

  function Append(s: State, p: Payload): State {
    var ev := NextEvent(s.info, p);
    s.(log := s.log + [ev], row := Recorded(s.row, ev), info := Recorded(s.info, ev), tree := Added(s.tree, ev))
  }

  function Mint(s: State): State {
    s.(minted := s.minted + 1)
  }

  function AppendUserMessage(s: State, id: Id, text: string): State {
    Append(Append(Append(s, MessageStarted(id, User)), TextDelta(id, text)), MessageDone(id, text))
  }

  /** A user message with a new id. */
  function AppendUser(s: State, text: string): State {
    AppendUserMessage(Mint(s), Minted(s.minted), text)
  }

  // ---- The queue ----

  /** The queue with the first message called id changed or removed. */
  function Edited(q: seq<Queued>, id: Id, text: string, remove: bool): seq<Queued> {
    if q == [] then []
    else if q[0].id != id then [q[0]] + Edited(q[1..], id, text, remove)
    else if remove then q[1..]
    else [q[0].(text := text)] + q[1..]
  }

  /** The queue with message k removed, or with another text. */
  function EditedAt(q: seq<Queued>, k: nat, text: string, remove: bool): seq<Queued>
    requires k < |q|
  {
    if remove then q[..k] + q[k + 1..] else q[k := q[k].(text := text)]
  }

  lemma EditedAtFirst(q: seq<Queued>, text: string, remove: bool)
    requires q != []
    ensures EditedAt(q, 0, text, remove) == if remove then q[1..] else [q[0].(text := text)] + q[1..]
  {
  }

  lemma EditedAtLater(q: seq<Queued>, k: nat, text: string, remove: bool)
    requires 0 < k < |q|
    ensures EditedAt(q, k, text, remove) == [q[0]] + EditedAt(q[1..], k - 1, text, remove)
  {
  }

  /** Only the first message called id is edited. */
  lemma {:induction false} EditedFound(q: seq<Queued>, id: Id, k: nat, text: string, remove: bool)
    requires k < |q| && q[k].id == id && forall j :: 0 <= j < k ==> q[j].id != id
    ensures Edited(q, id, text, remove) == EditedAt(q, k, text, remove)
  {
    hide EditedAt;
    if k > 0 {
      assert q[1..][k - 1] == q[k];
      EditedFound(q[1..], id, k - 1, text, remove);
      EditedAtLater(q, k, text, remove);
    } else {
      EditedAtFirst(q, text, remove);
    }
  }

  lemma {:induction false} EditedNowhere(q: seq<Queued>, id: Id, text: string, remove: bool)
    requires forall j :: 0 <= j < |q| ==> q[j].id != id
    ensures Edited(q, id, text, remove) == q
  {
    if q != [] {
      EditedNowhere(q[1..], id, text, remove);
      assert q == [q[0]] + q[1..];
    }
  }

  /** The kinds the queue is rebuilt from. */
  predicate QueueKind(p: Payload) {
    p.MessageQueued? || p.QueuedMessageUpdated? || p.QueuedMessageDelivered?
  }

  function QueueAfter(q: seq<Queued>, p: Payload): seq<Queued> {
    match p
    case MessageQueued(id, text, client) => q + [Queued(id, text, client)]
    case QueuedMessageUpdated(id, text, cancelled) => Edited(q, id, text, cancelled)
    case QueuedMessageDelivered(id, _) => Edited(q, id, "", true)
    case _ => q
  }

  /** The queue a log records. */
  function QueueOf(log: seq<Event>): seq<Queued> {
    if log == [] then [] else QueueAfter(QueueOf(log[..|log| - 1]), log[|log| - 1].payload)
  }

  function DeliverOne(s: State): State
    requires s.queue != []
  {
    var q := s.queue[0];
    var id := Minted(s.minted);
    var s1 := AppendUserMessage(Append(Mint(s), QueuedMessageDelivered(q.id, id)), id, q.text);
    s1.(queue := s1.queue[1..])
  }

  /** Every queued message made a user message, in order. */
  function Deliver(s: State): (s': State)
    ensures s'.queue == []
    decreases |s.queue|
  {
    if s.queue == [] then s else Deliver(DeliverOne(s))
  }

  // ---- Operations ----

  datatype Result = Ok | Queue(queueId: Id) | Forked(branchId: Id) | AskQueued
    | EmptyText | QueueGone | Busy | MessagesQueued | NoSuchMessage | NotAUserMessage | NoSuchBranch | NoModel
    | NothingToCompact

  predicate IsSpace(c: char) {
    c in "\t\n\r \U{000B}\U{000C}\U{0085}\U{00A0}\U{1680}\U{2028}\U{2029}\U{202F}\U{205F}\U{3000}" ||
      '\U{2000}' <= c <= '\U{200A}'
  }

  /** Nothing is left of text once it is trimmed. */
  predicate Blank(text: string) {
    forall i :: 0 <= i < |text| ==> IsSpace(text[i])
  }

  function StartTurn(s: State): State {
    Append(s, TaskStateChanged(Working, "")).(turn := Boundary(true), cancelled := false)
  }

  function StartCompaction(s: State): State {
    Append(s, TaskStateChanged(Working, "compacting")).(turn := CompactionRun, cancelled := false)
  }

  function Send(s: State, text: string, client: string): (State, Result) {
    if s.turn != NoTurn then
      if Blank(text) then (s, EmptyText)
      else
        var id := Minted(s.minted);
        var s1 := Append(Mint(s), MessageQueued(id, text, client));
        (s1.(queue := s1.queue + [Queued(id, text, client)]), Queue(id))
    else if Blank(text) && s.queue == [] then (s, EmptyText)
    else
      var s1 := Deliver(s);
      (StartTurn(if Blank(text) then s1 else AppendUser(s1, text)), Ok)
  }

  predicate InQueue(q: seq<Queued>, id: Id) {
    exists i :: 0 <= i < |q| && q[i].id == id
  }

  function UpdateQueued(s: State, id: Id, text: string, cancel: bool): (State, Result) {
    if !InQueue(s.queue, id) then (s, QueueGone)
    else
      var s1 := Append(s, QueuedMessageUpdated(id, text, cancel));
      (s1.(queue := Edited(s1.queue, id, text, cancel)), Ok)
  }

  /** The events of the kinds a conversation is rebuilt from. */
  function HistoryEvents(log: seq<Event>): seq<Event> {
    if log == [] then []
    else
      var ev := log[|log| - 1];
      HistoryEvents(log[..|log| - 1]) + if HistoryKind(ev.payload) then [ev] else []
  }

  predicate MessageKind(p: Payload) {
    p.MessageStarted? || p.MessageDone?
  }

  function MessageLog(log: seq<Event>): seq<Event> {
    if log == [] then []
    else
      var ev := log[|log| - 1];
      MessageLog(log[..|log| - 1]) + if MessageKind(ev.payload) then [ev] else []
  }

  /** The history the code reads for a branch. */
  function HistoryOf(log: seq<Event>, t: TreeValue, b: Id): seq<Event> {
    Filtered(PathOf(t, b), HistoryEvents(log))
  }

  /** The last start, and the last end, of message id. */
  function StartOf(events: seq<Event>, id: Id): (r: Option<Event>)
    ensures r.Some? ==> r.value in events && r.value.payload.MessageStarted? && r.value.payload.messageId == id
  {
    if events == [] then None
    else
      var ev := events[|events| - 1];
      if ev.payload.MessageStarted? && ev.payload.messageId == id then Some(ev) else StartOf(events[..|events| - 1], id)
  }

  function EndOf(events: seq<Event>, id: Id): (r: Option<Event>)
    ensures r.Some? ==> r.value in events && r.value.payload.MessageDone? && r.value.payload.messageId == id
  {
    if events == [] then None
    else
      var ev := events[|events| - 1];
      if ev.payload.MessageDone? && ev.payload.messageId == id then Some(ev) else EndOf(events[..|events| - 1], id)
  }

  /** The new branch made and switched to. */
  function Branched(s: State, parent: Id, forkSeq: int, kind: BranchKind, messageId: Id): State {
    var id := Minted(s.minted);
    Append(Append(Mint(s), BranchCreated(id, parent, forkSeq, kind, messageId)), BranchSwitched(id))
  }

  /** The branch a fork makes: it ends before the message when that is edited,
      and with it when it is answered again. */
  function ForkBranch(s: State, started: Event, ended: Event, edit: bool): State
    requires started.payload.MessageStarted?
  {
    var id := started.payload.messageId;
    if edit then Branched(s, started.branch, started.no - 1, Edit, id)
    else Branched(s, started.branch, ended.no, Retry, id)
  }

  function Fork(s: State, messageId: Id, text: string, edit: bool): (State, Result) {
    if s.turn != NoTurn then (s, Busy)
    else if s.queue != [] then (s, MessagesQueued)
    else
      var evs := Filtered(PathOf(s.tree, s.info.branch), MessageLog(s.log));
      var started, ended := StartOf(evs, messageId), EndOf(evs, messageId);
      if started.None? || ended.None? then (s, NoSuchMessage)
      else if started.value.payload.role != User then (s, NotAUserMessage)
      else
        var id := Minted(s.minted);
        var s1 := ForkBranch(s, started.value, ended.value, edit);
        (StartTurn(if edit then AppendUser(s1, text) else s1), Forked(id))
  }

  function Switch(s: State, id: Id): (State, Result) {
    if s.turn != NoTurn then (s, Busy)
    else if id !in s.tree.byID then (s, NoSuchBranch)
    else if id == s.info.branch then (s, Ok)
    else (Append(s, BranchSwitched(id)), Ok)
  }

  function RequestCompact(s: State, keep: int, hasModel: bool): (State, Result)
    requires keep >= 1
  {
    if s.turn != NoTurn then (s.(compactAsk := true), AskQueued)
    else if !hasModel then (s, NoModel)
    else
      var h := HistoryOf(s.log, s.tree, s.info.branch);
      if ChosenCut(h, CoveredBy(h), keep, 0, false).None? then (s, NothingToCompact)
      else (StartCompaction(s), Ok)
  }

  function Interrupt(s: State): State {
    if s.turn == NoTurn then s else s.(cancelled := true)
  }

  /** How a turn ends: done, interrupted, or stuck on an error. */
  datatype End = End(state: TaskState, reason: string)

  const END_DONE := End(TaskState.Done, "")
  const END_INTERRUPTED := End(TaskState.Done, "interrupted")

  function EndTurn(s: State, e: End): State {
    var s1 := Append(s.(turn := NoTurn, compactAsk := false), TaskStateChanged(e.state, e.reason));
    if e == END_INTERRUPTED || s.closing then s1
    else if s.compactAsk && e.state == TaskState.Done then StartCompaction(s1)
    else if s.queue == [] then s1
    else StartTurn(Deliver(s1))
  }

  /** What the server loads when it starts: the row, and the queue and tree
      the log records. */
  function Loaded(s: State): State {
    State(s.log, s.row, s.row, TreeOf(s.log), QueueOf(s.log), NoTurn, false, false, false, s.minted)
  }

  /** A session left mid-turn is marked stuck. */
  function Restart(s: State): State {
    if s.row.state == Working || s.row.state == Waiting
    then Append(Loaded(s), TaskStateChanged(Stuck, "flit restarted during the turn")) else Loaded(s)
  }

  // ---- The turn's own steps ----

  /** The top of the turn's loop, where the queue is delivered except the first
      time round. */
  function Step(s: State): State {
    if s.turn.Boundary? then (if s.turn.first then s else Deliver(s)).(turn := Ready(true)) else s
  }

  /** The start of a compaction, in a turn or between turns. */
  function BeginCompaction(s: State, keep: int): State
    requires keep >= 1
  {
    if s.turn != Ready(true) && s.turn != CompactionRun then s
    else
      var inTurn := s.turn != CompactionRun;
      var h := HistoryOf(s.log, s.tree, s.info.branch);
      var c := ChosenCut(h, CoveredBy(h), keep, if inTurn then 1 else 0, inTurn);
      var next := if inTurn then Ready(false) else Over;
      if c.Some? then
        Append(s, Note("compaction_started")).(turn := Summarizing(c.value.covered, c.value.kept, inTurn),
                                               compactAsk := s.compactAsk && !inTurn)
      else if inTurn && !s.compactAsk then s.(turn := next)
      else
        Append(s, CompactionDone("nothing to compact yet", 0, 0, 0, "")).(turn := next,
                                                                           compactAsk := s.compactAsk && !inTurn)
  }

  /** Its end: a summary, or the error that kept it from one. */
  function EndCompaction(s: State, error: string, tokensAfter: int, summary: string): State {
    if !s.turn.Summarizing? then s
    else
      var p := if error == "" then CompactionDone("", s.turn.covered, s.turn.kept, tokensAfter, summary)
               else CompactionDone(error, 0, 0, 0, "");
      Append(s, p).(turn := if s.turn.inTurn then Ready(false) else Over)
  }

  function StartReply(s: State): State {
    if !s.turn.Ready? then s
    else Append(Mint(s), MessageStarted(Minted(s.minted), Assistant)).(turn := Streaming(Minted(s.minted)))
  }

  function EndReply(s: State, text: string, calls: seq<Chat.Call>): State {
    if !s.turn.Streaming? then s
    else Append(s, MessageDone(s.turn.id, text)).(turn := Calling(s.turn.id, calls, 0, 0))
  }

  function StartCall(s: State): State {
    if !s.turn.Calling? || s.turn.started >= |s.turn.calls| then s
    else
      var c := s.turn.calls[s.turn.started];
      Append(s, ToolCallStarted(s.turn.id, c.id, c.name, c.arguments)).(turn := s.turn.(started := s.turn.started + 1))
  }

  function EndCall(s: State, result: string): State {
    if !s.turn.Calling? || s.turn.started < |s.turn.calls| || s.turn.answered >= |s.turn.calls| then s
    else
      var c := s.turn.calls[s.turn.answered];
      Append(s, ToolCallDone(c.id, result)).(turn := s.turn.(answered := s.turn.answered + 1))
  }

  /** A running call asks somebody, and goes on. */
  predicate RunningCall(turn: Turn) {
    turn.Calling? && turn.started == |turn.calls| && turn.answered < |turn.calls|
  }

  function Ask(s: State, title: string): State {
    if RunningCall(s.turn) then Append(s, TaskStateChanged(Waiting, title)) else s
  }

  function Resume(s: State): State {
    if RunningCall(s.turn) then Append(s, TaskStateChanged(Working, "")) else s
  }

  function NextStep(s: State): State {
    if s.turn.Calling? && s.turn.calls != [] && s.turn.answered == |s.turn.calls|
    then s.(turn := Boundary(false)) else s
  }

  /** Events any of this may be mixed with at any time: notes about the turn,
      and changed settings. */
  predicate Aside(p: Payload) {
    p.Note? || p.Setting? || p.TextDelta? || p.Usage? || p.ModelChanged? || p.RoleChanged? || p.WorktreeRemoved?
  }

  datatype Op =
    | OpSend(text: string, client: string)
    | OpUpdateQueued(queueId: Id, text: string, cancel: bool)
    | OpFork(messageId: Id, text: string, edit: bool)
    | OpSwitch(branchId: Id)
    | OpRequestCompact(keep: int, hasModel: bool)
    | OpInterrupt
    | OpShutdown
    | OpRestart
    | OpAside(payload: Payload)
    | OpStep
    | OpBeginCompaction(keep: int)
    | OpEndCompaction(error: string, tokensAfter: int, summary: string)
    | OpStartReply
    | OpEndReply(text: string, calls: seq<Chat.Call>)
    | OpStartCall
    | OpEndCall(result: string)
    | OpAsk(title: string)
    | OpResume
    | OpNextStep
    | OpEndTurn(end: End)

  /** Whether a turn may end this way now. Errors can end it anywhere. */
  predicate MayEnd(s: State, e: End) {
    s.turn != NoTurn && (e == END_DONE || (e == END_INTERRUPTED && s.cancelled) || e.state == Stuck)
  }

  /** One step of the session; an operation that does not apply changes
      nothing. */
  function Apply(s: State, op: Op): State {
    match op
    case OpSend(text, client) => Send(s, text, client).0
    case OpUpdateQueued(id, text, cancel) => UpdateQueued(s, id, text, cancel).0
    case OpFork(id, text, edit) => Fork(s, id, text, edit).0
    case OpSwitch(id) => Switch(s, id).0
    case OpRequestCompact(keep, hasModel) => if keep >= 1 then RequestCompact(s, keep, hasModel).0 else s
    case OpInterrupt => Interrupt(s)
    case OpShutdown => Interrupt(s.(closing := true))
    case OpRestart => Restart(s)
    case OpAside(p) => if Aside(p) then Append(s, p) else s
    case OpStep => Step(s)
    case OpBeginCompaction(keep) => if keep >= 1 then BeginCompaction(s, keep) else s
    case OpEndCompaction(error, tokensAfter, summary) => EndCompaction(s, error, tokensAfter, summary)
    case OpStartReply => StartReply(s)
    case OpEndReply(text, calls) => EndReply(s, text, calls)
    case OpStartCall => StartCall(s)
    case OpEndCall(result) => EndCall(s, result)
    case OpAsk(title) => Ask(s, title)
    case OpResume => Resume(s)
    case OpNextStep => NextStep(s)
    case OpEndTurn(e) => if MayEnd(s, e) then EndTurn(s, e) else s
  }

  function Run(info: Info, ops: seq<Op>): State {
    if ops == [] then Created(info) else Apply(Run(info, ops[..|ops| - 1]), ops[|ops| - 1])
  }
}
