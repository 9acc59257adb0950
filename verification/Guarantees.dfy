/** What the conversation log promises over every run of a session. */
module Guarantees {
  import opened Events
  import opened Branches
  import opened Context
  import opened Compact
  import opened Model
  import opened Histories
  import opened Conversations
  import opened Invariant
  import opened Turns
  import opened Forking
  import opened Live
  import opened Reachable
  import opened Summaries
  import Chat

  /** The state a run has reached, within what an int64 can number. */
  ghost predicate Reached(info: Info, ops: seq<Op>, s: State) {
    New(info) && s == Run(info, ops) && |s.log| <= MAX_INT64
  }

  lemma ReachedCore(info: Info, ops: seq<Op>, s: State)
    requires Reached(info, ops, s)
    ensures Core(s) && Rooted(s.log, s.tree)
  {
    RunKeepsCore(info, ops);
  }

  // ---- Branches are isolated ----

  lemma ReachedEarlier(info: Info, ops: seq<Op>, s: State, m: nat)
    requires Reached(info, ops, s) && m <= |ops|
    ensures var s0 := Run(info, ops[..m]);
            && Reached(info, ops[..m], s0) && |s0.log| <= |s.log| && s.log[..|s0.log|] == s0.log
            && s0.tree == TreeOf(s.log[..|s0.log|])
  {
    RunGrows(info, ops, m);
    RunReplays(info, ops[..m]);
  }

  /** Whatever a session does next, an existing branch's conversation only
      grows, and only by what is recorded on that branch. */
  lemma BranchesIsolated(info: Info, ops: seq<Op>, s: State, m: nat, b: Id)
    requires Reached(info, ops, s) && m <= |ops| && b in Run(info, ops[..m]).tree.byID
    ensures var s0 := Run(info, ops[..m]);
            && Rooted(s.log, s.tree) && Rooted(s0.log, s0.tree) && b in s.tree.byID && |s0.log| <= |s.log|
            && Conversation(s.log, s.tree, b) == Conversation(s0.log, s0.tree, b) + Own(s.log[|s0.log|..], b)
  {
    hide Core, Rooted, Run;
    ReachedCore(info, ops, s);
    ReachedEarlier(info, ops, s, m);
    Isolation(s.log, s.tree, b, |Run(info, ops[..m]).log|);
  }

  // ---- Forks keep what came before them ----

  lemma BranchedTree(s: State, parent: Id, forkSeq: int, kind: BranchKind, messageId: Id)
    requires Sound(s) && MayFork(s, parent, forkSeq)
    ensures var id, s' := Minted(s.minted), Branched(s, parent, forkSeq, kind, messageId);
            && Rooted(s'.log, s'.tree) && id in s'.tree.byID && id !in s.tree.byID
            && s'.tree.byID[id].parent == parent && s'.tree.byID[id].forkSeq == forkSeq
            && Conversation(s'.log, s'.tree, id) == UpTo(Conversation(s.log, s.tree, parent), forkSeq)
  {
    hide Made, Base, AllGood, MayFork, UpTo, Append, Branched, Rooted, Conversation;
    MadeBase(s, parent, forkSeq, kind, messageId);
    var s1 := Made(s, parent, forkSeq, kind, messageId);
    BranchedIs(s, parent, forkSeq, kind, messageId);
    SwitchedConversation(s1, Minted(s.minted));
  }

  lemma BranchedIs(s: State, parent: Id, forkSeq: int, kind: BranchKind, messageId: Id)
    ensures Branched(s, parent, forkSeq, kind, messageId) ==
            Append(Made(s, parent, forkSeq, kind, messageId), BranchSwitched(Minted(s.minted)))
  {
  }

  lemma SwitchedConversation(s: State, b: Id)
    requires Base(s) && b in s.tree.byID
    ensures var s' := Append(s, BranchSwitched(b));
            && s'.tree == s.tree && Rooted(s'.log, s'.tree)
            && Conversation(s'.log, s'.tree, b) == Conversation(s.log, s.tree, b)
  {
    var p := BranchSwitched(b);
    AppendBase(s, p);
    HistoryGrows(s.log, s.tree, b, NextEvent(s.info, p));
    assert Conversation(s.log, s.tree, b) + [] == Conversation(s.log, s.tree, b);
  }

  /** The message a fork with another text starts its branch with. */
  function UserEvents(s: State, text: string): seq<Event> {
    var no, b, id := s.info.lastNo + 1, s.info.branch, Minted(s.minted);
    [Event(no, b, MessageStarted(id, User)), Event(no + 1, b, TextDelta(id, text)),
     Event(no + 2, b, MessageDone(id, text))]
  }

  /** Where a fork of a message leaves the active path: before the message when
      it is edited, at its end when it is answered again. */
  function ForkSeq(s: State, messageId: Id, edit: bool): int
    requires StartOf(PathMessages(s), messageId).Some? && EndOf(PathMessages(s), messageId).Some?
  {
    if edit then StartOf(PathMessages(s), messageId).value.no - 1 else EndOf(PathMessages(s), messageId).value.no
  }

  lemma AppendConversation(s: State, p: Payload)
    requires Base(s) && !p.BranchCreated? && !p.BranchSwitched? && IdsMinted(p, s.minted)
    ensures var s', b := Append(s, p), s.info.branch;
            && Base(s') && s'.tree == s.tree && s'.info.branch == b && b in s.tree.byID && WellFormed(s.tree)
            && s'.info.lastNo == s.info.lastNo + 1 && s'.minted == s.minted
            && Conversation(s'.log, s'.tree, b) ==
               Conversation(s.log, s.tree, b) + if SessionWide(p) then [] else [Event(s.info.lastNo + 1, b, p)]
  {
    AppendBase(s, p);
    HistoryGrows(s.log, s.tree, s.info.branch, NextEvent(s.info, p));
  }

  lemma UserConversation(s: State, text: string)
    requires Base(s)
    ensures var s', b := AppendUser(s, text), s.info.branch;
            && Base(s') && s'.tree == s.tree && s'.info.branch == b && b in s.tree.byID && WellFormed(s.tree)
            && Conversation(s'.log, s'.tree, b) == Conversation(s.log, s.tree, b) + UserEvents(s, text)
  {
    hide Base, Conversation, Append, WellFormed;
    var id := Minted(s.minted);
    MintBase(s);
    var s0, p1, p2, p3 := Mint(s), MessageStarted(id, User), TextDelta(id, text), MessageDone(id, text);
    var s1 := Append(s0, p1);
    var s2 := Append(s1, p2);
    AppendConversation(s0, p1);
    AppendConversation(s1, p2);
    AppendConversation(s2, p3);
    var no, b := s.info.lastNo + 1, s.info.branch;
    ThreeMore(Conversation(s.log, s.tree, b), Event(no, b, p1), Event(no + 1, b, p2), Event(no + 2, b, p3));
  }

  lemma MintBase(s: State)
    requires Base(s)
    ensures Base(Mint(s)) && s.info.branch in s.tree.byID && WellFormed(s.tree)
  {
  }

  lemma ThreeMore(c: seq<Event>, x: Event, y: Event, z: Event)
    ensures c + [x] + [y] + [z] == c + [x, y, z]
  {
  }

  lemma StartTurnConversation(s: State)
    requires Base(s)
    ensures var s', b := StartTurn(s), s.info.branch;
            && Base(s') && s'.tree == s.tree && s'.info.branch == b && b in s.tree.byID && WellFormed(s.tree)
            && Conversation(s'.log, s'.tree, b) == Conversation(s.log, s.tree, b)
  {
    hide Conversation;
    AppendConversation(s, TaskStateChanged(Working, ""));
    assert Conversation(s.log, s.tree, s.info.branch) + [] == Conversation(s.log, s.tree, s.info.branch);
  }

  /** What is cut at cap, and then goes on past it. */
  lemma CutAgain(c: seq<Event>, cap: int, more: seq<Event>)
    requires forall i :: 0 <= i < |more| ==> more[i].no > cap
    ensures UpTo(UpTo(c, cap) + more, cap) == UpTo(c, cap) && After(UpTo(c, cap) + more, cap) == more
  {
    CoveringIs(UpTo(c, cap) + more, cap, |UpTo(c, cap)|);
  }

  /** A new branch has exactly the active path's conversation up to the message
      (before it when it is edited, to its end when it is answered again), then
      the edited message and nothing else. */
  lemma ForkKeepsPrefix(s: State, messageId: Id, text: string, edit: bool)
    requires Core(s) && |s.log| <= MAX_INT64 && Fork(s, messageId, text, edit).1.Forked?
    ensures var started, ended := StartOf(PathMessages(s), messageId), EndOf(PathMessages(s), messageId);
            started.Some? && ended.Some? && started.value.payload.MessageStarted?
    ensures var s', forkSeq := Fork(s, messageId, text, edit).0, ForkSeq(s, messageId, edit);
            var b := s'.info.branch;
            && b == Fork(s, messageId, text, edit).1.branchId && b !in s.tree.byID
            && WellFormed(s.tree) && WellFormed(s'.tree) && s.info.branch in s.tree.byID && b in s'.tree.byID
            && s'.tree.byID[b].forkSeq == forkSeq
            && UpTo(Conversation(s'.log, s'.tree, b), forkSeq) ==
               UpTo(Conversation(s.log, s.tree, s.info.branch), forkSeq)
            && After(Conversation(s'.log, s'.tree, b), forkSeq) ==
               if edit then UserEvents(ForkBranch(s, StartOf(PathMessages(s), messageId).value,
                                                  EndOf(PathMessages(s), messageId).value, edit), text) else []
  {
    hide Filtered, MessageLog, Conversation, MayFork, Sound, Branched, OnPath, UpTo, After, PathMessages, AppendUser,
      StartTurn, Base, WellFormed;
    var started, ended := StartOf(PathMessages(s), messageId), EndOf(PathMessages(s), messageId);
    ForkFinds(s, messageId, text, edit);
    ForkPoint(s, started.value, ended.value);
    ForkedConversation(s, started.value, ended.value, edit);
    ForkGoesOn(s, started.value, ended.value, text, edit);
  }

  lemma ForkFinds(s: State, messageId: Id, text: string, edit: bool)
    requires Core(s) && Fork(s, messageId, text, edit).1.Forked?
    ensures var started, ended := StartOf(PathMessages(s), messageId), EndOf(PathMessages(s), messageId);
            && started.Some? && ended.Some? && started.value.payload.MessageStarted?
            && (var s1 := ForkBranch(s, started.value, ended.value, edit);
                Fork(s, messageId, text, edit) ==
                (StartTurn(if edit then AppendUser(s1, text) else s1), Forked(Minted(s.minted))))
  {
    hide Core, Filtered, PathOf, MessageLog, AppendUser, StartTurn, ForkBranch;
  }

  /** The rest of a fork: the edited message, and the turn that answers. */
  lemma ForkGoesOn(s: State, started: Event, ended: Event, text: string, edit: bool)
    requires Sound(s) && started.payload.MessageStarted?
    requires MayFork(s, started.branch, started.no - 1) && MayFork(s, started.branch, ended.no)
    requires var s1, forkSeq := ForkBranch(s, started, ended, edit), if edit then started.no - 1 else ended.no;
             && s1.info.branch in s1.tree.byID && WellFormed(s1.tree) && WellFormed(s.tree)
             && s.info.branch in s.tree.byID
             && Conversation(s1.log, s1.tree, s1.info.branch) ==
                UpTo(Conversation(s.log, s.tree, s.info.branch), forkSeq)
    ensures var s1, forkSeq := ForkBranch(s, started, ended, edit), if edit then started.no - 1 else ended.no;
            var s' := StartTurn(if edit then AppendUser(s1, text) else s1);
            && WellFormed(s'.tree) && s'.info.branch == s1.info.branch && s'.tree == s1.tree
            && UpTo(Conversation(s'.log, s'.tree, s'.info.branch), forkSeq) ==
               UpTo(Conversation(s.log, s.tree, s.info.branch), forkSeq)
            && After(Conversation(s'.log, s'.tree, s'.info.branch), forkSeq) ==
               if edit then UserEvents(s1, text) else []
  {
    hide Sound, Base, ForkBranch, Conversation, UpTo, After, WellFormed, AppendUser, StartTurn, MayFork;
    var s1, forkSeq := ForkBranch(s, started, ended, edit), if edit then started.no - 1 else ended.no;
    ForkedBase(s, started, ended, edit);
    var more := if edit then UserEvents(s1, text) else [];
    UserConversation(s1, text);
    StartTurnConversation(if edit then AppendUser(s1, text) else s1);
    var c := UpTo(Conversation(s.log, s.tree, s.info.branch), forkSeq);
    assert c + [] == c;
    CutAgain(Conversation(s.log, s.tree, s.info.branch), forkSeq, more);
  }

  lemma ForkedBase(s: State, started: Event, ended: Event, edit: bool)
    requires Sound(s) && started.payload.MessageStarted?
    requires MayFork(s, started.branch, started.no - 1) && MayFork(s, started.branch, ended.no)
    ensures var s1, forkSeq := ForkBranch(s, started, ended, edit), if edit then started.no - 1 else ended.no;
            Base(s1) && s1.info.lastNo >= forkSeq
  {
    hide AllGood, H, Branched, WellFormed, Numbered;
    var id := started.payload.messageId;
    if edit {
      BranchedSound(s, started.branch, started.no - 1, Edit, id);
      BranchedNo(s, started.branch, started.no - 1, Edit, id);
    } else {
      BranchedSound(s, started.branch, ended.no, Retry, id);
      BranchedNo(s, started.branch, ended.no, Retry, id);
    }
  }

  lemma BranchedNo(s: State, parent: Id, forkSeq: int, kind: BranchKind, messageId: Id)
    ensures Branched(s, parent, forkSeq, kind, messageId).info.lastNo == s.info.lastNo + 2
  {
  }

  lemma ForkedConversation(s: State, started: Event, ended: Event, edit: bool)
    requires Sound(s) && started.payload.MessageStarted?
    requires MayFork(s, started.branch, started.no - 1) && MayFork(s, started.branch, ended.no)
    requires OnPath(s.tree, s.info.branch, started.branch, started.no - 1)
    requires OnPath(s.tree, s.info.branch, started.branch, ended.no)
    ensures var s1 := ForkBranch(s, started, ended, edit);
            && s1.info.branch == Minted(s.minted) && s1.info.branch !in s.tree.byID
            && s1.info.branch in s1.tree.byID && WellFormed(s1.tree)
            && s1.tree.byID[s1.info.branch].forkSeq == (if edit then started.no - 1 else ended.no)
            && Conversation(s1.log, s1.tree, s1.info.branch) ==
               UpTo(Conversation(s.log, s.tree, s.info.branch), if edit then started.no - 1 else ended.no)
  {
    hide Branched, Sound, MayFork, UpTo, Conversation, OnPath;
    if edit {
      BranchedTree(s, started.branch, started.no - 1, Edit, started.payload.messageId);
      ParentAgrees(s, started.branch, started.no - 1);
    } else {
      BranchedTree(s, started.branch, ended.no, Retry, started.payload.messageId);
      ParentAgrees(s, started.branch, ended.no);
    }
    BranchedActive(s, started.branch, started.no - 1, Edit, started.payload.messageId);
    BranchedActive(s, started.branch, ended.no, Retry, started.payload.messageId);
  }

  lemma BranchedActive(s: State, parent: Id, forkSeq: int, kind: BranchKind, messageId: Id)
    ensures Branched(s, parent, forkSeq, kind, messageId).info.branch == Minted(s.minted)
  {
  }

  lemma ParentAgrees(s: State, parent: Id, forkSeq: int)
    requires Sound(s) && MayFork(s, parent, forkSeq) && OnPath(s.tree, s.info.branch, parent, forkSeq)
    ensures UpTo(Conversation(s.log, s.tree, s.info.branch), forkSeq) ==
            UpTo(Conversation(s.log, s.tree, parent), forkSeq)
  {
    hide Conversation, UpTo, OnPath, AllGood;
    AgreeUpTo(s.log, s.tree, s.info.branch, parent, forkSeq, forkSeq);
  }

  // ---- Summaries stay true ----

  /** Event i is a compaction of branch a's path. */
  ghost predicate CompactionOf(s: State, a: Id, i: nat) {
    && Rooted(s.log, s.tree) && a in s.tree.byID && i < |s.log|
    && Effective(s.log[i].payload) && Of(s.tree, a, s.log[i])
  }

  /** A compaction of branch a's path, and a time when the branch it was
      recorded on was the active one and all it covers was logged. */
  ghost predicate SummarizedThen(s: State, s0: State, a: Id, i: nat) {
    CompactionOf(s, a, i) && s0.info.branch == s.log[i].branch && s.log[i].payload.coveredSeq <= |s0.log|
  }

  /** What compaction i covers on branch a in s is what is that far on the
      active path in s0. */
  ghost predicate CoversTheSame(s: State, a: Id, i: nat, s0: State) {
    && CompactionOf(s, a, i) && Rooted(s0.log, s0.tree) && s0.info.branch in s0.tree.byID
    && (var covered := s.log[i].payload.coveredSeq;
        && 0 <= covered <= |s0.log| <= i
        && UpTo(Conversation(s.log, s.tree, a), covered) ==
           UpTo(Conversation(s0.log, s0.tree, s0.info.branch), covered))
  }

  lemma CoveredThenAndNow(info: Info, ops: seq<Op>, s: State, m: nat, a: Id, i: nat)
    requires Reached(info, ops, s) && m <= |ops| && SummarizedThen(s, Run(info, ops[..m]), a, i)
    ensures var s0, covered := Run(info, ops[..m]), s.log[i].payload.coveredSeq;
            && Rooted(s0.log, s0.tree) && s0.info.branch in s0.tree.byID
            && 0 <= covered < s.log[i].no
            && UpTo(Conversation(s.log, s.tree, a), covered) ==
               UpTo(Conversation(s0.log, s0.tree, s0.info.branch), covered)
  {
    var s0, covered, p := Run(info, ops[..m]), s.log[i].payload.coveredSeq, s.log[i].branch;
    hide Run, UpTo, Conversation;
    ReachedCore(info, ops, s);
    ReachedEarlier(info, ops, s, m);
    ReachedCore(info, ops[..m], s0);
    CoversThePast(s, a, i);
    hide Core;
    TreeOfPrefix(s.log, |s0.log|);
    AgreeUpTo(s.log, s.tree, a, p, s.log[i].no, covered);
    ThenAndNow(s.log, s.tree, p, |s0.log|, covered);
  }

  /** Every compaction in force in a reachable session was begun by some
      operation, on the branch it is recorded on, and covers what the cut then
      chosen covers. */
  lemma EverySummaryHasItsStart(info: Info, ops: seq<Op>, s: State, i: nat)
    requires Reached(info, ops, s) && i < |s.log| && Effective(s.log[i].payload)
    ensures exists m: nat, k: nat :: Begun(info, ops, i, m, k) && StartedThere(Run(info, ops[..m]), s.log[i], i)
  {
    hide Run, Awaiting, Core, Rooted;
    SummaryBegun(info, ops, i);
    var m: nat, k: nat :| Begun(info, ops, i, m, k);
    BegunRecords(info, ops, i, m, k);
    ReachedEarlier(info, ops, s, m);
    ReachedCore(info, ops[..m], Run(info, ops[..m]));
    CoveredFits(Run(info, ops[..m]));
    assert StartedThere(Run(info, ops[..m]), s.log[i], i);
  }

  lemma CoveredFits(s: State)
    requires Core(s) && s.turn.Summarizing?
    ensures 0 <= s.turn.covered <= |s.log|
  {
  }

  /** The turn has just begun the compaction recorded as event i. */
  ghost predicate StartedThere(s0: State, ev: Event, i: nat) {
    && s0.turn.Summarizing? && s0.info.branch == ev.branch
    && ev.payload.CompactionDone? && ev.payload.coveredSeq == s0.turn.covered && ev.payload.keptTurns == s0.turn.kept
    && 0 <= s0.turn.covered <= |s0.log| <= i
  }

  /** What a summary covers on any branch, now, is exactly what it covered on
      the active path when it was begun: each was begun by some operation m. */
  lemma SummariesStayTrue(info: Info, ops: seq<Op>, s: State, a: Id, i: nat)
    requires Reached(info, ops, s) && CompactionOf(s, a, i)
    ensures exists m: nat, k: nat :: Begun(info, ops, i, m, k) && CoversTheSame(s, a, i, Run(info, ops[..m]))
  {
    hide Run, Awaiting, UpTo, Conversation;
    EverySummaryHasItsStart(info, ops, s, i);
    var m: nat, k: nat :| Begun(info, ops, i, m, k) && StartedThere(Run(info, ops[..m]), s.log[i], i);
    CoveredThenAndNow(info, ops, s, m, a, i);
    assert CoversTheSame(s, a, i, Run(info, ops[..m]));
  }

  /** The time a turn starts on a summary is such a time for the compaction it
      ends with. */
  lemma SummaryIsOfItsStart(info: Info, ops: seq<Op>, s: State, m: nat, tokensAfter: int, summary: string)
    requires Reached(info, ops, s) && m <= |ops| && Run(info, ops[..m]).turn.Summarizing?
    requires forall j :: m <= j <= |ops| ==> Run(info, ops[..j]).turn == Run(info, ops[..m]).turn
    ensures var s0, s' := Run(info, ops[..m]), EndCompaction(s, "", tokensAfter, summary);
            && |s'.log| == |s.log| + 1 && SummarizedThen(s', s0, s0.info.branch, |s.log|)
            && s'.log[|s.log|].payload == CompactionDone("", s0.turn.covered, s0.turn.kept, tokensAfter, summary)
  {
    var s0, s' := Run(info, ops[..m]), EndCompaction(s, "", tokensAfter, summary);
    assert ops[..|ops|] == ops;
    ReachedCore(info, ops, s);
    ReachedEarlier(info, ops, s, m);
    ReachedCore(info, ops[..m], s0);
    OneBranchPerTurn(info, ops, m);
    hide Run, Core, SummarizedThen;
    EndCompactionKeepsCore(s, "", tokensAfter, summary);
    SummaryRecorded(s, s0, tokensAfter, summary);
  }

  lemma SummaryRecorded(s: State, s0: State, tokensAfter: int, summary: string)
    requires Core(s) && Core(s0) && s.turn == s0.turn && s.turn.Summarizing? && s.info.branch == s0.info.branch
    requires Core(EndCompaction(s, "", tokensAfter, summary))
    ensures var s' := EndCompaction(s, "", tokensAfter, summary);
            && |s'.log| == |s.log| + 1 && SummarizedThen(s', s0, s0.info.branch, |s.log|)
            && s'.log[|s.log|].payload == CompactionDone("", s0.turn.covered, s0.turn.kept, tokensAfter, summary)
  {
    hide AllGood, StartsClean, After;
  }

  /** Branch b's history is what the active path held up to covered in s0, and
      then events the model sees in full, as the last it sees. Before them it
      sees nothing, unless the first of them starts a reply: then it sees the
      request that reply is to, and nothing else. */
  ghost predicate SummaryAndShown(s: State, b: Id, covered: int, s0: State) {
    var h := HistoryOf(s.log, s.tree, b);
    var kept, shown := After(h, covered), Shown(s, b);
    && h == UpTo(HistoryOf(s0.log, s0.tree, s0.info.branch), covered) + kept
    && |kept| <= |shown| && shown[|shown| - |kept|..] == kept
    && RestShown(h, covered, kept, shown)
  }

  /** What is shown of history h before kept: of the events covered, those of the
      last request, and those only if the cut falls inside its turn. */
  ghost predicate RestShown(h: seq<Event>, covered: int, kept: seq<Event>, shown: seq<Event>) {
    && (!CutInside(h, covered) ==> shown == kept)
    && (forall i :: 0 <= i < |shown| - |kept| ==> shown[i].no <= covered && shown[i] in h)
    && (forall ev, k: nat :: ev in UpTo(h, covered) && LastRequest(h, covered, k) ==>
          (ev in shown <==> CutInside(h, covered) && OfMessage(ev.payload, h[k].payload.messageId)))
  }

  /** What the newest summary of a branch covered when it was begun, plus the
      events the model still sees in full, is the branch's whole history:
      nothing is dropped and nothing else is added, whatever was forked or
      switched since. */
  lemma SummaryPlusContext(info: Info, ops: seq<Op>, s: State, b: Id)
    requires Reached(info, ops, s) && b in s.tree.byID && LastCompaction(HistoryOf(s.log, s.tree, b)).Some?
    ensures exists i: nat, m: nat, k: nat :: i < |s.log| && Begun(info, ops, i, m, k) &&
              Some(s.log[i].payload) == LastCompaction(HistoryOf(s.log, s.tree, b)) &&
              SummaryAndShown(s, b, s.log[i].payload.coveredSeq, Run(info, ops[..m]))
  {
    hide Run, Core, Rooted, Awaiting, UpTo, After, HistoryOf, ContextEvents, Conversation, Shown;
    ReachedCore(info, ops, s);
    NewestIsLogged(s, b);
    var i :| 0 <= i < |s.log| && CompactionOf(s, b, i) &&
             Some(s.log[i].payload) == LastCompaction(HistoryOf(s.log, s.tree, b));
    SummariesStayTrue(info, ops, s, b, i);
    var m: nat, k: nat :| Begun(info, ops, i, m, k) && CoversTheSame(s, b, i, Run(info, ops[..m]));
    ReachedEarlier(info, ops, s, m);
    ReachedCore(info, ops[..m], Run(info, ops[..m]));
    SummaryAndRest(s, Run(info, ops[..m]), b, s.log[i].payload);
    assert SummaryAndShown(s, b, s.log[i].payload.coveredSeq, Run(info, ops[..m]));
  }

  /** The compaction in effect on a branch is an event of its path. */
  lemma NewestIsLogged(s: State, b: Id)
    requires Core(s) && |s.log| <= MAX_INT64 && b in s.tree.byID && LastCompaction(HistoryOf(s.log, s.tree, b)).Some?
    ensures exists i: nat :: i < |s.log| && CompactionOf(s, b, i) &&
              Some(s.log[i].payload) == LastCompaction(HistoryOf(s.log, s.tree, b))
  {
    hide LastCompaction, HistoryOf, Conversation, AllGood, OnPath;
    var h := HistoryOf(s.log, s.tree, b);
    HistoryRead(s.log, s.tree, b);
    NewestFound(h);
    var ev :| ev in h && Effective(ev.payload) && LastCompaction(h) == Some(ev.payload);
    HistoryWithin(Conversation(s.log, s.tree, b));
    ConversationWithin(s.log, s.tree, b);
    var i :| 0 <= i < |s.log| && s.log[i] == ev;
    assert CompactionOf(s, b, i);
  }

  lemma {:induction false} NewestFound(h: seq<Event>)
    requires LastCompaction(h).Some?
    ensures exists ev :: ev in h && Effective(ev.payload) && LastCompaction(h) == Some(ev.payload)
  {
    var last := h[|h| - 1];
    if Effective(last.payload) {
      assert last in h;
    } else {
      NewestFound(h[..|h| - 1]);
    }
  }

  lemma SummaryAndRest(s: State, s0: State, b: Id, c: Compaction)
    requires Core(s) && Core(s0) && |s.log| <= MAX_INT64 && |s0.log| <= MAX_INT64 && b in s.tree.byID
    requires LastCompaction(HistoryOf(s.log, s.tree, b)) == Some(c)
    requires UpTo(Conversation(s.log, s.tree, b), c.coveredSeq) ==
             UpTo(Conversation(s0.log, s0.tree, s0.info.branch), c.coveredSeq)
    ensures SummaryAndShown(s, b, c.coveredSeq, s0)
  {
    hide UpTo, After, HistoryOf, ContextEvents, Conversation, AllGood, RestShown, Rooted;
    var h := HistoryOf(s.log, s.tree, b);
    UpToAndAfter(h, c.coveredSeq);
    HistoryCut(s, b, c.coveredSeq);
    HistoryCut(s0, s0.info.branch, c.coveredSeq);
    KeptShown(h, c);
    HistoryNamed(s, b);
    OldShown(h, c);
  }

  /** What else is shown of a history. */
  lemma OldShown(h: seq<Event>, c: Compaction)
    requires Increasing(h) && forall i :: 0 <= i < |h| && UserStart(h[i].payload) ==> h[i].payload.messageId != Empty
    ensures RestShown(h, c.coveredSeq, After(h, c.coveredSeq), ContextEvents(h, Some(c)))
  {
    hide ContextEvents, Covering, FirstMessage;
    var kept, shown, covered := After(h, c.coveredSeq), ContextEvents(h, Some(c)), c.coveredSeq;
    KeptShown(h, c);
    AfterIs(h, covered);
    if !CutInside(h, covered) {
      NothingOldShown(h, c);
    }
    FrontShown(h, c);
    forall ev, k: nat | ev in UpTo(h, covered) && LastRequest(h, covered, k)
      ensures ev in shown <==> CutInside(h, covered) && OfMessage(ev.payload, h[k].payload.messageId)
    {
      OldShownExactly(h, c, ev, k);
    }
  }

  lemma FrontShown(h: seq<Event>, c: Compaction)
    requires Increasing(h)
    ensures var kept, shown := After(h, c.coveredSeq), ContextEvents(h, Some(c));
            forall i :: 0 <= i < |shown| - |kept| ==> shown[i].no <= c.coveredSeq && shown[i] in h
  {
    AfterIs(h, c.coveredSeq);
    var older := UpTo(h, c.coveredSeq);
    MessageEventsOf(older, LastUser(older));
    hide Covering, LastUser, MessageEvents, FirstRole;
    forall i | 0 <= i < |ContextEvents(h, Some(c))| - |After(h, c.coveredSeq)|
      ensures ContextEvents(h, Some(c))[i] in older
    {
      assert ContextEvents(h, Some(c))[i] in MessageEvents(older, LastUser(older));
    }
  }

  /** A history's numbers increase, and its messages have ids. */
  lemma HistoryNamed(s: State, b: Id)
    requires Core(s) && |s.log| <= MAX_INT64 && b in s.tree.byID
    ensures var h := HistoryOf(s.log, s.tree, b);
            Increasing(h) && forall i :: 0 <= i < |h| && UserStart(h[i].payload) ==> h[i].payload.messageId != Empty
  {
    hide HistoryOf, H, Rooted;
    CodeReadsBranch(s, b);
    HistoryLogged(s, b);
    forall i | 0 <= i < |H(s, b)| && UserStart(H(s, b)[i].payload)
      ensures H(s, b)[i].payload.messageId != Empty
    {
      assert H(s, b)[i] in s.log;
      var k :| 0 <= k < |s.log| && s.log[k] == H(s, b)[i];
      assert IdsMinted(s.log[k].payload, s.minted);
    }
  }

  lemma UpToAndAfter(h: seq<Event>, cap: int)
    ensures h == UpTo(h, cap) + After(h, cap)
  {
  }

  lemma KeptShown(h: seq<Event>, c: Compaction)
    ensures var kept, shown := After(h, c.coveredSeq), ContextEvents(h, Some(c));
            |kept| <= |shown| && shown[|shown| - |kept|..] == kept
  {
    KeptIsShown(h, c);
  }

  lemma HistoryCut(s: State, b: Id, cap: int)
    requires Core(s) && |s.log| <= MAX_INT64 && b in s.tree.byID
    ensures UpTo(HistoryOf(s.log, s.tree, b), cap) == HistoryEvents(UpTo(Conversation(s.log, s.tree, b), cap))
  {
    hide UpTo, HistoryEvents;
    HistoryRead(s.log, s.tree, b);
    NumberedIncreases(s.log);
    ConversationWithin(s.log, s.tree, b);
    HistoryEventsUpTo(Conversation(s.log, s.tree, b), cap);
  }

  lemma ThenAndNow(log: seq<Event>, t: TreeValue, p: Id, k: nat, cap: int)
    requires Rooted(log, t) && cap <= k <= |log| && p in TreeOf(log[..k]).byID
    ensures Rooted(log[..k], TreeOf(log[..k])) && p in t.byID
    ensures UpTo(Conversation(log, t, p), cap) == UpTo(Conversation(log[..k], TreeOf(log[..k]), p), cap)
  {
    RootedPrefix(log, t, k);
    TreeOfPrefix(log, k);
    NumberedIncreases(log);
    LaterEventsDoNotMatter(log, t, p, k, cap);
    MoreBranches(log[..k], TreeOf(log[..k]), t, p);
  }

  /** A compaction covers only events logged before it. */
  lemma CoversThePast(s: State, a: Id, i: nat)
    requires Core(s) && a in s.tree.byID && i < |s.log| && Effective(s.log[i].payload) && Of(s.tree, a, s.log[i])
    ensures 0 <= s.log[i].payload.coveredSeq < s.log[i].no
  {
    InConversation(s.log, s.tree, a, i);
    var h := H(s, a);
    InHistory(Conversation(s.log, s.tree, a), s.log[i]);
    GoodAt(s, a);
    var k :| 0 <= k < |h| && h[k] == s.log[i];
  }

  lemma {:induction false} InConversation(log: seq<Event>, t: TreeValue, a: Id, i: nat)
    requires WellFormed(t) && a in t.byID && i < |log| && Of(t, a, log[i])
    ensures log[i] in Conversation(log, t, a)
  {
    if i < |log| - 1 {
      InConversation(log[..|log| - 1], t, a, i);
    }
  }

  lemma {:induction false} InHistory(c: seq<Event>, ev: Event)
    requires ev in c && HistoryKind(ev.payload)
    ensures ev in HistoryEvents(c)
  {
    if c[|c| - 1] != ev {
      assert ev in c[..|c| - 1];
      InHistory(c[..|c| - 1], ev);
    }
  }

  // ---- Rebuilt chats ----

  /** What the code rebuilds the model's context for branch b from. */
  function Shown(s: State, b: Id): seq<Event> {
    var h := HistoryOf(s.log, s.tree, b);
    ContextEvents(h, LastCompaction(h))
  }

  lemma CodeReadsBranch(s: State, b: Id)
    requires Core(s) && |s.log| <= MAX_INT64 && b in s.tree.byID
    ensures HistoryOf(s.log, s.tree, b) == H(s, b) && Good(H(s, b))
  {
    HistoryRead(s.log, s.tree, b);
    hide Good, History, HistoryOf;
    GoodAt(s, b);
  }

  /** Whatever happened, turns cut off anywhere included, the chat rebuilt for
      any branch is well formed exactly when no call of it is stale. */
  lemma ChatsWellFormed(info: Info, ops: seq<Op>, s: State, b: Id)
    requires Reached(info, ops, s) && b in s.tree.byID
    ensures Chat.WellFormedChat(Chat.Messages(Shown(s, b))) <==> Chat.NoStaleCalls(Shown(s, b))
  {
    hide Core, Good, Run, Chat.WellFormedChat, Chat.NoStaleCalls;
    ReachedCore(info, ops, s);
    CodeReadsBranch(s, b);
    GoodChat(H(s, b));
  }

  lemma {:induction false} MessageEventsNoCalls(events: seq<Event>, id: Id)
    ensures forall ev :: ev in MessageEvents(events, id) ==> !ev.payload.ToolCallStarted?
  {
    if events != [] {
      MessageEventsNoCalls(events[..|events| - 1], id);
    }
  }

  lemma ShownCallsDistinct(h: seq<Event>, c: Option<Compaction>)
    requires DistinctCalls(h)
    ensures DistinctCalls(ContextEvents(h, c))
  {
    if c.Some? {
      var older, kept := UpTo(h, c.value.coveredSeq), After(h, c.value.coveredSeq);
      var n := |older|;
      forall i | 0 <= i < |kept| ensures kept[i] == h[n + i] {}
      var front := MessageEvents(older, LastUser(older));
      MessageEventsNoCalls(older, LastUser(older));
      forall i | 0 <= i < |front| ensures !(front + kept)[i].payload.ToolCallStarted? {
        assert front[i] in front;
      }
    }
  }

  /** With distinct call ids on the path, it always is. */
  lemma DistinctCallsWellFormed(info: Info, ops: seq<Op>, s: State, b: Id)
    requires Reached(info, ops, s) && b in s.tree.byID && DistinctCalls(HistoryOf(s.log, s.tree, b))
    ensures Chat.WellFormedChat(Chat.Messages(Shown(s, b)))
  {
    hide Reached, Run, Chat.WellFormedChat, Chat.NoStaleCalls, DistinctCalls;
    var h := HistoryOf(s.log, s.tree, b);
    ShownCallsDistinct(h, LastCompaction(h));
    DistinctCallsNeverStale(Shown(s, b));
    ChatsWellFormed(info, ops, s, b);
  }

  // ---- Compactions ----

  /** On every path, each compaction covers strictly more than the one before
      it. */
  lemma CompactionsAdvance(info: Info, ops: seq<Op>, s: State, b: Id, i: nat, j: nat)
    requires Reached(info, ops, s) && b in s.tree.byID
    requires var h := HistoryOf(s.log, s.tree, b); i < j < |h| && Effective(h[i].payload) && Effective(h[j].payload)
    ensures var h := HistoryOf(s.log, s.tree, b);
            h[i].payload.coveredSeq < h[j].payload.coveredSeq < h[j].no
  {
    ReachedCore(info, ops, s);
    hide Core, Run, HistoryOf;
    CodeReadsBranch(s, b);
  }

  /** A compaction inside a turn leaves the model the request it is working
      on, whole. */
  lemma TurnKeepsItsRequest(info: Info, ops: seq<Op>, s: State, tokensAfter: int, summary: string, i: nat, j: nat)
    requires Reached(info, ops, s) && s.turn.Summarizing? && s.turn.inTurn
    requires var h := Active(EndCompaction(s, "", tokensAfter, summary));
             LatestUser(h, i) && i <= j < |h| && OfMessage(h[j].payload, h[i].payload.messageId)
    ensures var h := Active(EndCompaction(s, "", tokensAfter, summary));
            h[j] in ContextEvents(h, LastCompaction(h))
  {
    var p := CompactionDone("", s.turn.covered, s.turn.kept, tokensAfter, summary);
    hide Run, Sound, H, Rooted, After;
    ReachedCore(info, ops, s);
    SummaryShown(s, p);
    SoundIgnores(Append(s, p), EndCompaction(s, "", tokensAfter, summary));
    LatestRequestKept(Active(Append(s, p)), p, i, j);
  }

  /** The compaction just recorded is the one in effect. */
  lemma SummaryShown(s: State, p: Payload)
    requires Sound(s) && Effective(p)
    requires Fits(Summarizing(p.coveredSeq, p.keptTurns, true), Active(s), s.info.branch, |s.log|)
    ensures Sound(Append(s, p))
    ensures var h := Active(Append(s, p));
            LastCompaction(h) == Some(p) && FirstRole(After(h, p.coveredSeq)).Some? && Increasing(h)
  {
    var h, ev := Active(s), NextEvent(s.info, p);
    hide Sound, H, Good, After, FirstRole, StartsClean;
    SummarySound(s, p);
    SummaryActive(s, p);
    GoodIncreasing(Append(s, p));
    ActiveIsGood(s, p);
    AfterSnoc(h, ev, p.coveredSeq);
    FirstRoleSnoc(After(h, p.coveredSeq), ev);
  }

  lemma GoodIncreasing(s: State)
    requires Sound(s)
    ensures Increasing(Active(s))
  {
    GoodAt(s, s.info.branch);
  }

  lemma SummaryActive(s: State, p: Payload)
    requires Sound(s) && Effective(p)
    requires Fits(Summarizing(p.coveredSeq, p.keptTurns, false), Active(s), s.info.branch, |s.log|)
    ensures Active(Append(s, p)) == Active(s) + [NextEvent(s.info, p)] && NextEvent(s.info, p).payload == p
  {
    hide Sound, H, Good, Last, StartsClean, After;
    ActiveIsGood(s, p);
    CompactionGood(Active(s), NextEvent(s.info, p));
    AppendSound(s, p);
  }
}
