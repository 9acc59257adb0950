/** The event log of one session: what an event carries and which events are
    about the whole session rather than one branch of its conversation. */
module Events {

  datatype Option<+T> = None | Some(value: T)

  /** An identifier. Empty is Go's "": the root branch, or a field nobody set.
      Minted(n) is the n-th result of newID, so two mints never agree. Text is
      an id that came from outside, such as a provider's tool call id. */
  datatype Id = Empty | Minted(n: nat) | Text(text: string)

  const ROOT: Id := Empty

  /** The largest int64, the limit a path puts on its own branch. */
  const MAX_INT64: int := 0x7fff_ffff_ffff_ffff

  datatype Role = NoRole | User | Assistant

  datatype TaskState = Idle | Working | Waiting | Stuck | Done

  datatype BranchKind = NoKind | Retry | Edit

  datatype Payload =
    | MessageStarted(messageId: Id, role: Role)
    | TextDelta(messageId: Id, text: string)
    | MessageDone(messageId: Id, text: string)
    | ToolCallStarted(messageId: Id, callId: Id, name: string, arguments: string)
    | ToolCallDone(callId: Id, result: string)
    | CompactionDone(error: string, coveredSeq: int, keptTurns: int, tokensAfter: int, summary: string)
    | Usage(tokens: int, contextLength: int)
    | WorktreeRemoved
    | Note(kind: string)     // any other event about one branch's conversation
    | TaskStateChanged(state: TaskState, reason: string)
    | ModelChanged(contextLength: int)
    | RoleChanged(sessionRole: string)
    | MessageQueued(queueId: Id, text: string, client: string)
    | QueuedMessageUpdated(queueId: Id, text: string, cancelled: bool)
    | QueuedMessageDelivered(queueId: Id, messageId: Id)
    | BranchCreated(branchId: Id, parent: Id, forkSeq: int, branchKind: BranchKind, messageId: Id)
    | BranchSwitched(branchId: Id)
    | Setting(kind: string)  // MCP servers, project and yolo changes

  datatype Event = Event(no: int, branch: Id, payload: Payload)

  /** Events about the session as a whole, which apply on every branch. */
  predicate SessionWide(p: Payload) {
    p.TaskStateChanged? || p.ModelChanged? || p.RoleChanged? || p.MessageQueued? || p.QueuedMessageUpdated? ||
    p.QueuedMessageDelivered? || p.BranchCreated? || p.BranchSwitched? || p.Setting?
  }

  /** The kinds the model's context is rebuilt from. */
  predicate HistoryKind(p: Payload) {
    p.MessageStarted? || p.MessageDone? || p.ToolCallStarted? || p.ToolCallDone? || p.CompactionDone?
  }

  /** A compaction that took effect. */
  predicate Effective(p: Payload) {
    p.CompactionDone? && p.error == ""
  }

  /** Sequence numbers are the positions in the log, counted from 1. */
  ghost predicate Numbered(log: seq<Event>) {
    forall i :: 0 <= i < |log| ==> log[i].no == i + 1
  }

  /** Sequence numbers strictly increase. */
  ghost predicate Increasing(evs: seq<Event>) {
    forall i, j :: 0 <= i < j < |evs| ==> evs[i].no < evs[j].no
  }
}
