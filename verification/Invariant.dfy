/** The invariant of every reachable session, and what an append keeps of
    it. */
module Invariant {
  import opened Events
  import opened Branches
  import opened Context
  import opened Model
  import opened Histories
  import opened Conversations
  import Chat

  ghost predicate Below(id: Id, n: nat) {
    id.Minted? && id.n < n
  }

  /** The ids a payload introduces were minted already. */
  ghost predicate IdsMinted(p: Payload, n: nat) {
    (p.MessageStarted? ==> Below(p.messageId, n)) && (p.MessageDone? ==> Below(p.messageId, n)) &&
    (p.BranchCreated? ==> Below(p.branchId, n)) && (p.MessageQueued? ==> Below(p.queueId, n))
  }

  ghost predicate AllMinted(log: seq<Event>, n: nat) {
    forall i :: 0 <= i < |log| ==> IdsMinted(log[i].payload, n)
  }

  /** The log, the tree, the row and its live copy agree. */
  ghost predicate Base(s: State) {
    && Rooted(s.log, s.tree) && s.info.branch in s.tree.byID && s.info.lastNo == |s.log| && s.row == s.info
    && AllMinted(s.log, s.minted)
    && (forall b :: b in s.tree.byID && b != ROOT ==> Below(b, s.minted))
  }

  /** Branch b's history. */
  ghost function H(s: State, b: Id): seq<Event> {
    if WellFormed(s.tree) && b in s.tree.byID then History(s.log, s.tree, b) else []
  }

  /** The active branch's history. */
  ghost function Active(s: State): seq<Event> {
    H(s, s.info.branch)
  }

  ghost predicate AllGood(s: State) {
    forall b :: b in s.tree.byID ==> Good(H(s, b))
  }

  /** What holds whatever the turn is doing. */
  ghost predicate Sound(s: State) {
    Base(s) && AllGood(s)
  }

  ghost predicate StartedHere(h: seq<Event>, id: Id, branch: Id) {
    forall i :: 0 <= i < |h| && h[i].payload.MessageStarted? && h[i].payload.messageId == id ==> h[i].branch == branch
  }

  /** Message id is open at the end of h, started on branch. */
  ghost predicate OpenHere(h: seq<Event>, id: Id, role: Role, branch: Id) {
    && StartedSince(h) && StartedHere(h, id, branch)
    && Chat.Scan(h).Some? && Chat.Scan(h).value.Opened? && Chat.Scan(h).value.id == id &&
       Chat.Scan(h).value.role == role
  }

  /** The active branch's history has got as far as the turn says. */
  ghost predicate Fits(turn: Turn, h: seq<Event>, branch: Id, n: nat) {
    match turn
    case Streaming(id) => OpenHere(h, id, Assistant, branch)
    case Calling(id, calls, started, answered) =>
      && started <= |calls| && answered <= started && (answered > 0 ==> started == |calls|) && StartedSince(h)
      && Chat.Scan(h) == Some(Chat.Replying(id, Chat.CallIds(calls[..started]), answered))
    case Summarizing(covered, _, inTurn) =>
      && 0 <= covered <= n && StartsClean(After(h, covered)) && (inTurn ==> FirstRole(After(h, covered)).Some?)
      && (forall i :: 0 <= i < |h| && Effective(h[i].payload) ==> h[i].payload.coveredSeq < covered)
    case _ => true
  }

  predicate Plain(turn: Turn) {
    !turn.Streaming? && !turn.Calling? && !turn.Summarizing?
  }

  ghost predicate Core(s: State) {
    Sound(s) && Fits(s.turn, Active(s), s.info.branch, |s.log|)
  }

  // ---- What is in a history is in the log ----

  ghost predicate Logged(s: State, h: seq<Event>) {
    forall i :: 0 <= i < |h| ==> h[i] in s.log
  }

  lemma HistoryLogged(s: State, b: Id)
    ensures Logged(s, H(s, b))
  {
    if WellFormed(s.tree) && b in s.tree.byID {
      ConversationWithin(s.log, s.tree, b);
      HistoryWithin(Conversation(s.log, s.tree, b));
    }
  }

  lemma LoggedIsPast(s: State, h: seq<Event>, ev: Event)
    requires Numbered(s.log) && ev.no == |s.log| + 1 && Logged(s, h)
    ensures Last(h, ev)
  {
  }

  lemma GoodAt(s: State, b: Id)
    requires Sound(s) && b in s.tree.byID
    ensures Good(H(s, b)) && Logged(s, H(s, b))
  {
    HistoryLogged(s, b);
  }

  /** The active history, and the event appended next. */
  lemma ActiveIsGood(s: State, p: Payload)
    requires Sound(s)
    ensures Good(Active(s)) && Chat.Scan(Active(s)).Some? && Last(Active(s), NextEvent(s.info, p))
    ensures NextEvent(s.info, p).no == |s.log| + 1
  {
    GoodAt(s, s.info.branch);
    LoggedIsPast(s, Active(s), NextEvent(s.info, p));
  }

  // ---- Appending ----

  lemma AppendRooted(log: seq<Event>, t: TreeValue, ev: Event)
    requires Rooted(log, t) && ev.no == |log| + 1 && ev.branch in t.byID && !ev.payload.BranchCreated?
    ensures Rooted(log + [ev], t)
  {
    assert (log + [ev])[..|log|] == log;
  }

  lemma AppendBase(s: State, p: Payload)
    requires Base(s) && !p.BranchCreated? && (p.BranchSwitched? ==> p.branchId in s.tree.byID) && IdsMinted(p, s.minted)
    ensures Base(Append(s, p)) && Append(s, p).tree == s.tree
    ensures Append(s, p).info.branch == if p.BranchSwitched? then p.branchId else s.info.branch
    ensures NextEvent(s.info, p).branch == Append(s, p).info.branch && s.info.branch in s.tree.byID
  {
    AppendRooted(s.log, s.tree, NextEvent(s.info, p));
  }

  lemma AppendHistory(s: State, p: Payload, b: Id)
    requires Base(s) && !p.BranchCreated? && b in s.tree.byID
    ensures Append(s, p).tree == s.tree
    ensures var ev := NextEvent(s.info, p);
            H(Append(s, p), b) == if b == ev.branch && HistoryKind(p) then H(s, b) + [ev] else H(s, b)
  {
    HistoryGrows(s.log, s.tree, b, NextEvent(s.info, p));
    assert H(s, b) + [] == H(s, b);
  }

  /** An append is sound if it leaves the active branch's history good; it
      changes no other branch's. */
  lemma AppendSound(s: State, p: Payload)
    requires Sound(s) && !p.BranchCreated? && !p.BranchSwitched? && IdsMinted(p, s.minted)
    requires HistoryKind(p) ==> Good(Active(s) + [NextEvent(s.info, p)])
    ensures Sound(Append(s, p)) && Append(s, p).tree == s.tree && Append(s, p).info.branch == s.info.branch
    ensures Active(Append(s, p)) == if HistoryKind(p) then Active(s) + [NextEvent(s.info, p)] else Active(s)
    ensures forall b :: b in s.tree.byID && b != s.info.branch ==> H(Append(s, p), b) == H(s, b)
  {
    hide Good, Base, H, Append, NextEvent, HistoryKind, IdsMinted;
    AppendBase(s, p);
    forall b | b in s.tree.byID
      ensures Good(H(Append(s, p), b)) && (b != s.info.branch ==> H(Append(s, p), b) == H(s, b))
    {
      AppendHistory(s, p, b);
    }
    AppendHistory(s, p, s.info.branch);
  }

  lemma SwitchSound(s: State, b: Id)
    requires Sound(s) && b in s.tree.byID
    ensures var s' := Append(s, BranchSwitched(b));
            && Sound(s') && s'.tree == s.tree && s'.info.branch == b
            && (forall a :: a in s.tree.byID ==> H(s', a) == H(s, a))
  {
    var p := BranchSwitched(b);
    hide Good, Base, H, Append, NextEvent;
    AppendBase(s, p);
    forall a | a in s.tree.byID
      ensures H(Append(s, p), a) == H(s, a)
    {
      AppendHistory(s, p, a);
    }
  }

  /** What Sound does not look at. */
  lemma SoundIgnores(s: State, s': State)
    requires Sound(s) && s'.log == s.log && s'.row == s.row && s'.info == s.info && s'.tree == s.tree
    requires s'.minted >= s.minted
    ensures Sound(s') && Active(s') == Active(s)
    ensures forall b :: b in s.tree.byID ==> H(s', b) == H(s, b)
  {
    hide Good, WellFormed, Numbered, History;
    forall b ensures H(s', b) == H(s, b) {}
  }

  /** What Core does not look at. */
  lemma CoreIgnores(s: State, s': State)
    requires Core(s) && s'.log == s.log && s'.row == s.row && s'.info == s.info && s'.tree == s.tree
    requires s'.minted >= s.minted && (s'.turn == s.turn || Plain(s'.turn))
    ensures Core(s')
  {
    SoundIgnores(s, s');
  }

  lemma PlainFits(s: State)
    requires Sound(s) && Plain(s.turn)
    ensures Core(s)
  {
  }

  // ---- Events the scan ignores, other than a summary ----

  predicate Ignored(p: Payload) {
    Neutral(p) && !Effective(p) && !p.BranchCreated? && !p.BranchSwitched?
  }

  lemma IgnoredFits(turn: Turn, h: seq<Event>, branch: Id, n: nat, ev: Event)
    requires Good(h) && Last(h, ev) && Neutral(ev.payload) && !Effective(ev.payload) && ev.no == n + 1
    requires Fits(turn, h, branch, n)
    ensures Fits(turn, h + [ev], branch, n + 1)
  {
    hide Good, After, StartsClean, FirstRole, Chat.Scan, StartedSince, Last;
    OtherGood(h, ev);
    ScanSnoc(h, ev);
    match turn {
      case Streaming(id) => StartedStays(h, ev, id, branch);
      case Summarizing(covered, _, _) => CutSnoc(h, ev, covered);
      case _ =>
    }
  }

  lemma StartedStays(h: seq<Event>, ev: Event, id: Id, branch: Id)
    requires StartedHere(h, id, branch) && !ev.payload.MessageStarted?
    ensures StartedHere(h + [ev], id, branch)
  {
  }

  lemma FitsLater(turn: Turn, h: seq<Event>, branch: Id, n: nat)
    requires Fits(turn, h, branch, n)
    ensures Fits(turn, h, branch, n + 1)
  {
  }

  lemma IgnoredSound(s: State, p: Payload)
    requires Sound(s) && Ignored(p) && IdsMinted(p, s.minted)
    ensures Sound(Append(s, p)) && Append(s, p).tree == s.tree && Append(s, p).info.branch == s.info.branch
    ensures Active(Append(s, p)) == if HistoryKind(p) then Active(s) + [NextEvent(s.info, p)] else Active(s)
    ensures forall b :: b in s.tree.byID && b != s.info.branch ==> H(Append(s, p), b) == H(s, b)
  {
    ActiveIsGood(s, p);
    OtherGood(Active(s), NextEvent(s.info, p));
    AppendSound(s, p);
  }

  lemma IgnoredKeepsCore(s: State, p: Payload)
    requires Core(s) && Ignored(p) && IdsMinted(p, s.minted)
    ensures Core(Append(s, p)) && Append(s, p).tree == s.tree && Append(s, p).info.branch == s.info.branch
  {
    ActiveIsGood(s, p);
    IgnoredSound(s, p);
    if HistoryKind(p) {
      IgnoredFits(s.turn, Active(s), s.info.branch, |s.log|, NextEvent(s.info, p));
    } else {
      FitsLater(s.turn, Active(s), s.info.branch, |s.log|);
    }
  }

  // ---- Messages ----

  /** No message of the log is called id. */
  ghost predicate Unused(log: seq<Event>, id: Id) {
    forall i :: 0 <= i < |log| ==> !OfMessage(log[i].payload, id)
  }

  lemma MintedUnused(s: State)
    requires Sound(s)
    ensures Unused(s.log, Minted(s.minted))
  {
    forall i | 0 <= i < |s.log| ensures !OfMessage(s.log[i].payload, Minted(s.minted)) {
      assert IdsMinted(s.log[i].payload, s.minted);
    }
  }

  lemma UnusedIsNew(s: State, h: seq<Event>, id: Id)
    requires Logged(s, h) && Unused(s.log, id)
    ensures NewMessage(h, id)
  {
  }

  lemma StartOpens(h: seq<Event>, ev: Event)
    requires Good(h) && Last(h, ev) && ev.payload.MessageStarted? && NewMessage(h, ev.payload.messageId)
    ensures Good(h + [ev]) && OpenHere(h + [ev], ev.payload.messageId, ev.payload.role, ev.branch)
  {
    StartGood(h, ev);
    ScanSnoc(h, ev);
    forall i | 0 <= i < |h| ensures (h + [ev])[i] == h[i] && !OfMessage(h[i].payload, ev.payload.messageId) {}
  }

  /** Starting a message no other is called. */
  lemma StartSound(s: State, id: Id, role: Role)
    requires Sound(s) && Below(id, s.minted) && Unused(s.log, id)
    ensures var s' := Append(s, MessageStarted(id, role));
            && Sound(s') && s'.tree == s.tree && s'.info.branch == s.info.branch
            && OpenHere(Active(s'), id, role, s.info.branch)
            && (forall b :: b in s.tree.byID && b != s.info.branch ==> H(s', b) == H(s, b))
  {
    var p := MessageStarted(id, role);
    ActiveIsGood(s, p);
    HistoryLogged(s, s.info.branch);
    hide Good, Sound, StartedSince, OpenHere, Last, H;
    UnusedIsNew(s, Active(s), id);
    StartOpens(Active(s), NextEvent(s.info, p));
    AppendSound(s, p);
  }

  ghost function AfterDone(id: Id, role: Role): Chat.Shape {
    if role == Assistant then Chat.Replying(id, [], 0) else Chat.Between
  }

  lemma DoneCloses(h: seq<Event>, ev: Event, id: Id, role: Role)
    requires Good(h) && OpenHere(h, id, role, ev.branch) && Last(h, ev) && ev.payload.MessageDone? &&
             ev.payload.messageId == id
    ensures Good(h + [ev]) && StartedSince(h + [ev]) && Chat.Scan(h + [ev]) == Some(AfterDone(id, role))
  {
    DoneGood(h, ev);
    ScanSnoc(h, ev);
  }

  /** Ending the message that is open on the active branch. */
  lemma DoneSound(s: State, id: Id, role: Role, text: string)
    requires Sound(s) && Below(id, s.minted) && OpenHere(Active(s), id, role, s.info.branch)
    ensures var s' := Append(s, MessageDone(id, text));
            && Sound(s') && s'.tree == s.tree && s'.info.branch == s.info.branch
            && StartedSince(Active(s')) && Chat.Scan(Active(s')) == Some(AfterDone(id, role))
            && (forall b :: b in s.tree.byID && b != s.info.branch ==> H(s', b) == H(s, b))
  {
    var p := MessageDone(id, text);
    ActiveIsGood(s, p);
    hide Good, Sound, StartedSince, OpenHere, Last, H;
    DoneCloses(Active(s), NextEvent(s.info, p), id, role);
    AppendSound(s, p);
  }

  /** A whole user message no other is called. */
  lemma UserMessageSound(s: State, id: Id, text: string)
    requires Sound(s) && Below(id, s.minted) && Unused(s.log, id)
    ensures var s' := AppendUserMessage(s, id, text);
            && Sound(s') && s'.tree == s.tree && s'.info.branch == s.info.branch
            && (forall b :: b in s.tree.byID && b != s.info.branch ==> H(s', b) == H(s, b))
  {
    hide Sound, OpenHere, StartedSince, H;
    var s1 := Append(s, MessageStarted(id, User));
    StartSound(s, id, User);
    IgnoredSound(s1, TextDelta(id, text));
    DoneSound(Append(s1, TextDelta(id, text)), id, User, text);
  }

  lemma UserSound(s: State, text: string)
    requires Sound(s)
    ensures var s' := AppendUser(s, text);
            && Sound(s') && s'.tree == s.tree && s'.info.branch == s.info.branch
            && (forall b :: b in s.tree.byID && b != s.info.branch ==> H(s', b) == H(s, b))
  {
    hide Sound, H, AppendUserMessage, Unused;
    MintedUnused(s);
    SoundIgnores(s, Mint(s));
    UserMessageSound(Mint(s), Minted(s.minted), text);
  }

  // ---- Queued messages joining the conversation ----

  lemma DeliveryNoted(s: State, queueId: Id)
    requires Sound(s)
    ensures var id := Minted(s.minted);
            var s' := Append(Mint(s), QueuedMessageDelivered(queueId, id));
            && Sound(s') && s'.tree == s.tree && s'.info.branch == s.info.branch
            && Below(id, s'.minted) && Unused(s'.log, id)
            && (forall b :: b in s.tree.byID ==> H(s', b) == H(s, b))
  {
    hide Sound, H;
    MintedUnused(s);
    SoundIgnores(s, Mint(s));
    IgnoredSound(Mint(s), QueuedMessageDelivered(queueId, Minted(s.minted)));
  }

  lemma DeliverOneSound(s: State)
    requires Sound(s) && s.queue != []
    ensures var s' := DeliverOne(s);
            && Sound(s') && s'.tree == s.tree && s'.info.branch == s.info.branch
            && (forall b :: b in s.tree.byID && b != s.info.branch ==> H(s', b) == H(s, b))
  {
    hide Sound, H, AppendUserMessage, Unused, Append, Below;
    var q, id := s.queue[0], Minted(s.minted);
    var s1 := Append(Mint(s), QueuedMessageDelivered(q.id, id));
    DeliveryNoted(s, q.id);
    UserMessageSound(s1, id, q.text);
    SoundIgnores(AppendUserMessage(s1, id, q.text), DeliverOne(s));
  }

  lemma DeliverOneShorter(s: State)
    requires s.queue != []
    ensures |DeliverOne(s).queue| == |s.queue| - 1
  {
  }

  lemma {:induction false} DeliverSound(s: State)
    requires Sound(s)
    ensures var s' := Deliver(s);
            && Sound(s') && s'.tree == s.tree && s'.info.branch == s.info.branch
            && (forall b :: b in s.tree.byID && b != s.info.branch ==> H(s', b) == H(s, b))
    decreases |s.queue|
  {
    hide Sound, H, DeliverOne;
    if s.queue != [] {
      DeliverOneSound(s);
      DeliverOneShorter(s);
      DeliverSound(DeliverOne(s));
    }
  }
}
