/** What making a branch keeps, and what the new branch starts with. */
module Forking {
  import opened Events
  import opened Branches
  import opened Context
  import opened Model
  import opened Histories
  import opened Conversations
  import opened Invariant

  // ---- Growing a tree ----

  ghost predicate Grown(t: TreeValue, t': TreeValue, b: Branch) {
    && WellFormed(t) && b.id !in t.byID && b.id != ROOT && t'.byID == t.byID[b.id := b]
    && b.parent in t.byID && 0 <= t.byID[b.parent].born <= b.forkSeq < b.born
    && (forall x :: x in t.byID ==> t.byID[x].born < b.born)
  }

  lemma GrownWellFormed(t: TreeValue, t': TreeValue, b: Branch)
    requires Grown(t, t', b)
    ensures WellFormed(t')
  {
    forall x ensures Forks(t', x) {
      assert Forks(t, x);
    }
  }

  /** A new branch's conversation is its parent's up to the fork. */
  lemma {:induction false} NewBranchConversation(log: seq<Event>, t: TreeValue, t': TreeValue, b: Branch)
    requires Increasing(log) && Grown(t, t', b) && WellFormed(t')
    requires forall i :: 0 <= i < |log| ==> log[i].branch in t.byID
    ensures Conversation(log, t', b.id) == UpTo(Conversation(log, t, b.parent), b.forkSeq)
  {
    if log != [] {
      var init, ev := log[..|log| - 1], log[|log| - 1];
      NewBranchConversation(init, t, t', b);
      assert log == init + [ev];
      UpToConversation(init, ev, t, b.parent, b.forkSeq);
      ConversationSnoc(init, t', b.id, ev);
      GrowthKeepsPaths(t, t', b.parent, ev.branch, ev.no);
      assert ev.branch in t.byID by { assert log[|log| - 1] == ev; }
      assert Forks(t', b.id);
    }
  }

  lemma {:induction false} HistoryEventsUpTo(c: seq<Event>, cap: int)
    requires Increasing(c)
    ensures HistoryEvents(UpTo(c, cap)) == UpTo(HistoryEvents(c), cap)
  {
    if c != [] {
      HistoryEventsUpTo(c[..|c| - 1], cap);
      assert c == c[..|c| - 1] + [c[|c| - 1]];
      HistoryUpToSnoc(c[..|c| - 1], c[|c| - 1], cap);
    }
  }

  lemma HistoryUpToSnoc(init: seq<Event>, ev: Event, cap: int)
    requires Increasing(init + [ev]) && HistoryEvents(UpTo(init, cap)) == UpTo(HistoryEvents(init), cap)
    ensures HistoryEvents(UpTo(init + [ev], cap)) == UpTo(HistoryEvents(init + [ev]), cap)
  {
    hide UpTo, HistoryEvents, Increasing, HistoryKind;
    UpToSnoc(init, ev, cap);
    HistorySnoc(init, ev);
    HistorySnoc(UpTo(init, cap), ev);
    HistoryIncreases(init + [ev]);
    var u, h := UpTo(init, cap), HistoryEvents(init);
    if HistoryKind(ev.payload) {
      UpToSnoc(h, ev, cap);
    } else {
      assert h + [] == h;
    }
    if ev.no > cap || !HistoryKind(ev.payload) {
      assert u + [] == u && HistoryEvents(u) + [] == HistoryEvents(u);
    }
  }

  lemma {:induction false} HistoryIncreases(c: seq<Event>)
    requires Increasing(c)
    ensures Increasing(HistoryEvents(c))
  {
    if c != [] {
      var init, ev := c[..|c| - 1], c[|c| - 1];
      HistoryIncreases(init);
      HistoryWithin(init);
      var h := HistoryEvents(init);
      forall i | 0 <= i < |h| ensures h[i].no < ev.no {
        assert h[i] in init;
        var k :| 0 <= k < |init| && init[k] == h[i];
        assert c[k] == h[i];
      }
    }
  }

  // ---- Appending BranchCreated ----

  ghost predicate MayFork(s: State, parent: Id, forkSeq: int) {
    parent in s.tree.byID && 0 <= s.tree.byID[parent].born <= forkSeq <= |s.log|
  }

  lemma CreatedRooted(log: seq<Event>, t: TreeValue, ev: Event)
    requires Rooted(log, t) && ev.no == |log| + 1 && ev.branch in t.byID && ev.payload.BranchCreated?
    requires ev.payload.branchId !in t.byID && ev.payload.branchId != ROOT && ev.payload.parent in t.byID
    requires t.byID[ev.payload.parent].born <= ev.payload.forkSeq <= |log|
    ensures var t' := Added(t, ev);
            Grown(t, t', t'.byID[ev.payload.branchId]) && Rooted(log + [ev], t')
  {
    var t', p := Added(t, ev), ev.payload;
    assert Forks(t, p.parent);
    GrownWellFormed(t, t', t'.byID[p.branchId]);
    assert (log + [ev])[..|log|] == log;
    forall i | 0 <= i < |log| + 1 ensures Placed(t', (log + [ev])[i]) {
      if i < |log| {
        assert Placed(t, log[i]);
      }
    }
  }

  lemma CreatedHistory(log: seq<Event>, t: TreeValue, ev: Event, b: Id)
    requires Rooted(log, t) && ev.no == |log| + 1 && ev.payload.BranchCreated? && b in t.byID
    requires Grown(t, Added(t, ev), Added(t, ev).byID[ev.payload.branchId]) && Rooted(log + [ev], Added(t, ev))
    ensures Conversation(log + [ev], Added(t, ev), b) == Conversation(log, t, b)
  {
    var t' := Added(t, ev);
    ConversationSnoc(log, t', b, ev);
    MoreBranches(log, t, t', b);
    assert Conversation(log, t', b) + [] == Conversation(log, t', b);
  }

  lemma CreatedNewHistory(log: seq<Event>, t: TreeValue, ev: Event)
    requires Rooted(log, t) && ev.no == |log| + 1 && ev.payload.BranchCreated?
    requires Grown(t, Added(t, ev), Added(t, ev).byID[ev.payload.branchId]) && Rooted(log + [ev], Added(t, ev))
    ensures var b := Added(t, ev).byID[ev.payload.branchId];
            b.id in Added(t, ev).byID &&
            Conversation(log + [ev], Added(t, ev), b.id) == UpTo(Conversation(log, t, b.parent), b.forkSeq)
  {
    var t' := Added(t, ev);
    var b := t'.byID[ev.payload.branchId];
    NumberedIncreases(log);
    NewBranchConversation(log, t, t', b);
    ConversationSnoc(log, t', b.id, ev);
    assert Conversation(log, t', b.id) + [] == Conversation(log, t', b.id);
  }

  /** The state when the branch has been made and is not switched to yet. */
  ghost function Made(s: State, parent: Id, forkSeq: int, kind: BranchKind, messageId: Id): State {
    Append(Mint(s), BranchCreated(Minted(s.minted), parent, forkSeq, kind, messageId))
  }

  lemma MadeBase(s: State, parent: Id, forkSeq: int, kind: BranchKind, messageId: Id)
    requires Base(s) && MayFork(s, parent, forkSeq)
    ensures var id, s' := Minted(s.minted), Made(s, parent, forkSeq, kind, messageId);
            && Base(s') && id !in s.tree.byID && s'.tree.byID.Keys == s.tree.byID.Keys + {id}
            && s'.info.branch == s.info.branch && s'.tree.byID[id].parent == parent &&
               s'.tree.byID[id].forkSeq == forkSeq
            && (forall b :: b in s.tree.byID ==> s'.tree.byID[b] == s.tree.byID[b])
            && Conversation(s'.log, s'.tree, id) == UpTo(Conversation(s.log, s.tree, parent), forkSeq)
  {
    hide Rooted, Conversation, UpTo, WellFormed;
    var ev := NextEvent(s.info, BranchCreated(Minted(s.minted), parent, forkSeq, kind, messageId));
    assert Minted(s.minted) !in s.tree.byID;
    RootedTree(s.log, s.tree);
    CreatedRooted(s.log, s.tree, ev);
    CreatedNewHistory(s.log, s.tree, ev);
    RootedTree(s.log + [ev], Added(s.tree, ev));
  }

  lemma RootedTree(log: seq<Event>, t: TreeValue)
    requires Rooted(log, t)
    ensures WellFormed(t) && ROOT in t.byID
  {
  }

  lemma MadeKeeps(s: State, parent: Id, forkSeq: int, kind: BranchKind, messageId: Id, b: Id)
    requires Base(s) && MayFork(s, parent, forkSeq) && b in s.tree.byID
    ensures var s' := Made(s, parent, forkSeq, kind, messageId);
            && Base(s') && b in s'.tree.byID && Conversation(s'.log, s'.tree, b) == Conversation(s.log, s.tree, b)
  {
    var ev := NextEvent(s.info, BranchCreated(Minted(s.minted), parent, forkSeq, kind, messageId));
    MadeBase(s, parent, forkSeq, kind, messageId);
    CreatedRooted(s.log, s.tree, ev);
    CreatedHistory(s.log, s.tree, ev, b);
  }

  lemma MadeSound(s: State, parent: Id, forkSeq: int, kind: BranchKind, messageId: Id)
    requires Sound(s) && MayFork(s, parent, forkSeq)
    ensures var id, s' := Minted(s.minted), Made(s, parent, forkSeq, kind, messageId);
            && Sound(s') && id in s'.tree.byID && H(s', id) == UpTo(H(s, parent), forkSeq)
            && (forall b :: b in s.tree.byID ==> b in s'.tree.byID && H(s', b) == H(s, b))
  {
    var id, s' := Minted(s.minted), Made(s, parent, forkSeq, kind, messageId);
    hide Good, Made, Append, Base, H;
    MadeBase(s, parent, forkSeq, kind, messageId);
    MadeHistory(s, parent, forkSeq, kind, messageId);
    PrefixGood(H(s, parent), Covering(H(s, parent), forkSeq));
    forall b | b in s.tree.byID ensures b in s'.tree.byID && H(s', b) == H(s, b) {
      MadeKeepsHistory(s, parent, forkSeq, kind, messageId, b);
    }
  }

  lemma MadeHistory(s: State, parent: Id, forkSeq: int, kind: BranchKind, messageId: Id)
    requires Base(s) && MayFork(s, parent, forkSeq)
    ensures H(Made(s, parent, forkSeq, kind, messageId), Minted(s.minted)) == UpTo(H(s, parent), forkSeq)
  {
    MadeBase(s, parent, forkSeq, kind, messageId);
    ConversationWithin(s.log, s.tree, parent);
    NumberedIncreases(s.log);
    HistoryEventsUpTo(Conversation(s.log, s.tree, parent), forkSeq);
  }

  lemma MadeKeepsHistory(s: State, parent: Id, forkSeq: int, kind: BranchKind, messageId: Id, b: Id)
    requires Base(s) && MayFork(s, parent, forkSeq) && b in s.tree.byID
    ensures var s' := Made(s, parent, forkSeq, kind, messageId);
            b in s'.tree.byID && H(s', b) == H(s, b)
  {
    MadeKeeps(s, parent, forkSeq, kind, messageId, b);
  }

  /** Making a branch and switching to it. */
  lemma BranchedSound(s: State, parent: Id, forkSeq: int, kind: BranchKind, messageId: Id)
    requires Sound(s) && MayFork(s, parent, forkSeq)
    ensures var id, s' := Minted(s.minted), Branched(s, parent, forkSeq, kind, messageId);
            && Sound(s') && s'.info.branch == id && id in s'.tree.byID && H(s', id) == UpTo(H(s, parent), forkSeq)
            && (forall b :: b in s.tree.byID ==> b in s'.tree.byID && H(s', b) == H(s, b))
  {
    hide Sound, H, UpTo, Append, MayFork;
    MadeSound(s, parent, forkSeq, kind, messageId);
    SwitchSound(Made(s, parent, forkSeq, kind, messageId), Minted(s.minted));
  }

  // ---- Where a fork leaves the path ----

  lemma {:induction false} MessageLogWithin(c: seq<Event>)
    ensures forall ev :: ev in MessageLog(c) ==> ev in c
  {
    if c != [] {
      MessageLogWithin(c[..|c| - 1]);
      assert c == c[..|c| - 1] + [c[|c| - 1]];
    }
  }

  /** The messages the code looks a fork's message up in. */
  function PathMessages(s: State): seq<Event> {
    Filtered(PathOf(s.tree, s.info.branch), MessageLog(s.log))
  }

  lemma PathMessagesAre(s: State)
    requires Sound(s) && |s.log| <= MAX_INT64
    ensures PathMessages(s) == MessageLog(Active(s))
  {
    MessagesRead(s.log, s.tree, s.info.branch);
  }

  ghost predicate Member(s: State, ev: Event) {
    && ev in s.log && WellFormed(s.tree) && s.info.branch in s.tree.byID
    && Of(s.tree, s.info.branch, ev) && Placed(s.tree, ev) && 1 <= ev.no <= |s.log|
  }

  lemma ActiveMember(s: State, ev: Event)
    requires Sound(s) && ev in Active(s)
    ensures Member(s, ev)
  {
    HistoryWithin(Conversation(s.log, s.tree, s.info.branch));
    ConversationWithin(s.log, s.tree, s.info.branch);
  }

  lemma PathMessage(s: State, ev: Event)
    requires Sound(s) && |s.log| <= MAX_INT64 && ev in PathMessages(s)
    ensures ev in Active(s) && Member(s, ev)
  {
    hide Sound, H, PathMessages, Member;
    PathMessagesAre(s);
    MessageLogWithin(Active(s));
    ActiveMember(s, ev);
  }

  lemma PairedHere(s: State, started: Event, ended: Event)
    requires Sound(s) && started in Active(s) && ended in Active(s)
    requires started.payload.MessageStarted? && ended.payload.MessageDone?
    requires started.payload.messageId == ended.payload.messageId
    ensures started.branch == ended.branch
  {
    GoodAt(s, s.info.branch);
    assert Paired(Active(s));
  }

  /** A fork leaves the active path at a point of it. */
  lemma ForkPoint(s: State, started: Event, ended: Event)
    requires Sound(s) && |s.log| <= MAX_INT64 && started in PathMessages(s) && ended in PathMessages(s)
    requires started.payload.MessageStarted? && ended.payload.MessageDone?
    requires started.payload.messageId == ended.payload.messageId
    ensures MayFork(s, started.branch, started.no - 1) && MayFork(s, started.branch, ended.no)
    ensures WellFormed(s.tree) && s.info.branch in s.tree.byID
    ensures OnPath(s.tree, s.info.branch, started.branch, started.no - 1)
    ensures OnPath(s.tree, s.info.branch, started.branch, ended.no)
  {
    hide Sound, H, PathMessages, WellFormed, OnPath;
    PathMessage(s, started);
    PathMessage(s, ended);
    PairedHere(s, started, ended);
    AllFork(s, started.branch);
    EarlierOnPath(s.tree, s.info.branch, started.branch, started.no, started.no - 1);
  }

  lemma AllFork(s: State, b: Id)
    requires WellFormed(s.tree)
    ensures Forks(s.tree, b) && (b in s.tree.byID ==> 0 <= s.tree.byID[b].born)
  {
    assert Forks(s.tree, b);
  }

  lemma ForkedSound(s: State, started: Event, ended: Event, text: string, edit: bool)
    requires Sound(s) && |s.log| <= MAX_INT64 && started in PathMessages(s) && ended in PathMessages(s)
    requires started.payload.MessageStarted? && ended.payload.MessageDone?
    requires started.payload.messageId == ended.payload.messageId
    ensures var s1 := ForkBranch(s, started, ended, edit);
            Sound(s1) && Sound(StartTurn(if edit then AppendUser(s1, text) else s1))
  {
    hide Sound, H, PathMessages, AppendUser, Branched, MayFork;
    ForkPoint(s, started, ended);
    if edit {
      BranchedSound(s, started.branch, started.no - 1, Edit, started.payload.messageId);
      UserSound(ForkBranch(s, started, ended, edit), text);
      StartTurnSound(AppendUser(ForkBranch(s, started, ended, edit), text));
    } else {
      BranchedSound(s, started.branch, ended.no, Retry, started.payload.messageId);
      StartTurnSound(ForkBranch(s, started, ended, edit));
    }
  }

  lemma StartTurnSound(s: State)
    requires Sound(s)
    ensures Sound(StartTurn(s)) && StartTurn(s).tree == s.tree && StartTurn(s).info.branch == s.info.branch
  {
    hide Sound, H;
    IgnoredSound(s, TaskStateChanged(Working, ""));
    SoundIgnores(Append(s, TaskStateChanged(Working, "")), StartTurn(s));
  }

  lemma ForkKeepsCore(s: State, messageId: Id, text: string, edit: bool)
    requires Core(s) && |s.log| <= MAX_INT64
    ensures Core(Fork(s, messageId, text, edit).0)
  {
    hide Sound, H, Filtered, MessageLog, AppendUser, Branched, Append;
    var evs := PathMessages(s);
    if Fork(s, messageId, text, edit).1.Forked? {
      ForkedSound(s, StartOf(evs, messageId).value, EndOf(evs, messageId).value, text, edit);
      PlainFits(Fork(s, messageId, text, edit).0);
    }
  }
}
