/** What each operation does to the conversation: what is sent is said, what is
    said is shown, and what is asked for is done. */
module Operations {
  import opened Events
  import opened Branches
  import opened Model
  import opened Content
  import opened Invariant
  import opened Conversations
  import opened Reachable
  import opened Turns
  import opened Live
  import opened Queues
  import opened Guarantees
  import opened Requests
  import Chat
  import Compact
  import Context

  // ---- How the active history grows ----

  /** The active branch stays, and its history goes on with these. */
  ghost predicate Adds(s: State, s': State, ps: seq<Payload>) {
    && s'.info.branch == s.info.branch && |Active(s)| <= |Active(s')| && Active(s')[..|Active(s)|] == Active(s)
    && Payloads(Active(s')[|Active(s)|..]) == ps
  }

  lemma AddsTwice(s: State, s1: State, s2: State, ps: seq<Payload>, qs: seq<Payload>)
    requires Adds(s, s1, ps) && Adds(s1, s2, qs)
    ensures Adds(s, s2, ps + qs)
  {
    hide H;
    var a, b, c := Active(s), Active(s1), Active(s2);
    assert c[..|a|] == c[..|b|][..|a|];
    assert c[|a|..] == b[|a|..] + c[|b|..] by {
      assert c == b + c[|b|..];
    }
    assert Payloads(c[|a|..]) == Payloads(b[|a|..]) + Payloads(c[|b|..]);
  }

  lemma AddsLater(s: State, s1: State, s2: State, ps: seq<Payload>)
    requires Adds(s, s1, []) && Adds(s1, s2, ps)
    ensures Adds(s, s2, ps)
  {
    hide Adds;
    AddsTwice(s, s1, s2, [], ps);
    assert [] + ps == ps;
  }

  lemma AddsOnly(s: State, s1: State, s2: State, ps: seq<Payload>)
    requires Adds(s, s1, ps) && Adds(s1, s2, [])
    ensures Adds(s, s2, ps)
  {
    hide Adds;
    AddsTwice(s, s1, s2, ps, []);
    assert ps + [] == ps;
  }

  lemma AddsNothing(s: State, s': State)
    requires s'.log == s.log && s'.tree == s.tree && s'.info.branch == s.info.branch
    ensures Adds(s, s', [])
  {
    hide History, WellFormed;
    assert Active(s) == Active(s');
  }

  lemma LoggedAdds(s: State, p: Payload)
    requires Base(s) && !p.BranchCreated? && !p.BranchSwitched?
    ensures Adds(s, Append(s, p), if HistoryKind(p) then [p] else [])
  {
    hide H;
    AppendHistory(s, p, s.info.branch);
    if HistoryKind(p) {
      assert Active(Append(s, p)) == Active(s) + [NextEvent(s.info, p)];
    }
  }

  lemma AppendAdds(s: State, p: Payload)
    requires Base(s) && !p.BranchCreated? && !p.BranchSwitched? && IdsMinted(p, s.minted)
    ensures Base(Append(s, p)) && Adds(s, Append(s, p), if HistoryKind(p) then [p] else [])
  {
    hide Base, Adds;
    AppendBase(s, p);
    LoggedAdds(s, p);
  }

  /** What Base does not look at. */
  lemma BaseIgnores(s: State, s': State)
    requires Base(s) && s'.log == s.log && s'.row == s.row && s'.info == s.info && s'.tree == s.tree
    requires s'.minted >= s.minted
    ensures Base(s') && Adds(s, s', [])
  {
    hide WellFormed, Numbered;
    AddsNothing(s, s');
  }

  lemma UserMessageAdds(s: State, id: Id, text: string)
    requires Base(s) && Below(id, s.minted)
    ensures var s' := AppendUserMessage(s, id, text);
            Base(s') && Adds(s, s', UserPayloads(id, text)) && s'.minted == s.minted
  {
    hide Base, Adds, Append;
    var s1 := Append(s, MessageStarted(id, User));
    var s2 := Append(s1, TextDelta(id, text));
    AppendMints(s, MessageStarted(id, User));
    AppendMints(s1, TextDelta(id, text));
    AppendMints(s2, MessageDone(id, text));
    AppendAdds(s, MessageStarted(id, User));
    AppendAdds(s1, TextDelta(id, text));
    AppendAdds(s2, MessageDone(id, text));
    AddsOnly(s, s1, s2, [MessageStarted(id, User)]);
    AddsTwice(s, s2, Append(s2, MessageDone(id, text)), [MessageStarted(id, User)], [MessageDone(id, text)]);
    assert [MessageStarted(id, User)] + [MessageDone(id, text)] == UserPayloads(id, text);
  }

  lemma AppendMints(s: State, p: Payload)
    ensures Append(s, p).minted == s.minted
  {
  }

  lemma UserAdds(s: State, text: string)
    requires Base(s)
    ensures var s' := AppendUser(s, text);
            Base(s') && Adds(s, s', UserPayloads(Minted(s.minted), text)) && s'.minted == s.minted + 1
  {
    hide Base, Adds, AppendUserMessage;
    BaseIgnores(s, Mint(s));
    UserMessageAdds(Mint(s), Minted(s.minted), text);
    AddsLater(s, Mint(s), AppendUser(s, text), UserPayloads(Minted(s.minted), text));
  }

  lemma DeliverOneAdds(s: State)
    requires Base(s) && s.queue != []
    ensures var s' := DeliverOne(s);
            && Base(s') && Adds(s, s', UserPayloads(Minted(s.minted), s.queue[0].text))
            && s'.minted == s.minted + 1 && s'.queue == s.queue[1..]
  {
    hide Base, Adds, AppendUserMessage, Append;
    var q, id := s.queue[0], Minted(s.minted);
    var p := QueuedMessageDelivered(q.id, id);
    var s1 := Append(Mint(s), p);
    var s2 := AppendUserMessage(s1, id, q.text);
    var ps := UserPayloads(id, q.text);
    BaseIgnores(s, Mint(s));
    AppendMints(Mint(s), p);
    AppendAdds(Mint(s), p);
    UserMessageAdds(s1, id, q.text);
    BaseIgnores(s2, DeliverOne(s));
    AddsLater(s, Mint(s), s1, []);
    AddsLater(s, s1, s2, ps);
    AddsOnly(s, s2, DeliverOne(s), ps);
    QueueUntouched(Mint(s), p, id, q.text);
  }

  lemma QueueUntouched(s: State, p: Payload, id: Id, text: string)
    ensures AppendUserMessage(Append(s, p), id, text).queue == s.queue
  {
  }

  function TextsOf(q: seq<Queued>): seq<string> {
    seq(|q|, i requires 0 <= i < |q| => q[i].text)
  }

  lemma {:induction false} DeliverAdds(s: State)
    requires Base(s)
    ensures var s' := Deliver(s);
            && Base(s') && Adds(s, s', UsersPayloads(s.minted, TextsOf(s.queue)))
            && s'.minted == s.minted + |s.queue| && s'.queue == []
    decreases |s.queue|
  {
    hide Base, Adds, DeliverOne;
    if s.queue == [] {
      BaseIgnores(s, s);
    } else {
      var s1 := DeliverOne(s);
      DeliverOneAdds(s);
      DeliverAdds(s1);
      AddsTwice(s, s1, Deliver(s), UserPayloads(Minted(s.minted), s.queue[0].text),
                UsersPayloads(s.minted + 1, TextsOf(s.queue[1..])));
      assert TextsOf(s.queue)[1..] == TextsOf(s.queue[1..]);
    }
  }

  lemma {:induction false} UsersSnoc(n: nat, texts: seq<string>, text: string)
    ensures UsersPayloads(n, texts + [text]) ==
            UsersPayloads(n, texts) + UserPayloads(Minted(n + |texts|), text)
    decreases |texts|
  {
    if texts == [] {
      assert texts + [text] == [text] && [text][1..] == [];
      assert UsersPayloads(n, [text]) == UserPayloads(Minted(n), text) + [];
    } else {
      assert (texts + [text])[1..] == texts[1..] + [text];
      UsersSnoc(n + 1, texts[1..], text);
    }
  }

  lemma StartTurnAdds(s: State)
    requires Base(s)
    ensures Base(StartTurn(s)) && Adds(s, StartTurn(s), [])
  {
    hide Base, Adds, Append;
    var s1 := Append(s, TaskStateChanged(Working, ""));
    AppendAdds(s, TaskStateChanged(Working, ""));
    AppendMints(s, TaskStateChanged(Working, ""));
    BaseIgnores(s1, StartTurn(s));
    AddsOnly(s, s1, StartTurn(s), []);
  }

  // ---- Runs ----

  /** The last step of a run, from a state that keeps the invariant to another. */
  lemma LastStep(info: Info, ops: seq<Op>, op: Op, s: State, s': State)
    requires Reached(info, ops + [op], s') && s == Run(info, ops)
    ensures Reached(info, ops, s) && s' == Apply(s, op) && Core(s) && Core(s') && Base(s) && s.info.lastNo == |s.log|
  {
    hide Run, Apply;
    var all := ops + [op];
    assert all[..|ops|] == ops;
    ReachedEarlier(info, all, s', |ops|);
    ReachedCore(info, ops, s);
    ReachedCore(info, all, s');
    RunOne(info, all);
    CoreBase(s);
  }

  lemma CoreBase(s: State)
    requires Core(s)
    ensures Base(s) && s.info.lastNo == |s.log|
  {
  }

  /** The active branch stays, and the conversation the code reads for it goes on
      with these events and no others. */
  predicate GoesOn(s: State, s': State, ps: seq<Payload>) {
    var h, h' := ActiveHistory(s), ActiveHistory(s');
    && s'.info.branch == s.info.branch && |h| <= |h'| && h'[..|h|] == h && Payloads(h'[|h|..]) == ps
  }

  lemma AddsGoesOn(s: State, s': State, ps: seq<Payload>)
    requires Core(s) && Core(s') && |s.log| <= MAX_INT64 && |s'.log| <= MAX_INT64 && Adds(s, s', ps)
    ensures GoesOn(s, s', ps)
  {
    hide Core, HistoryOf, H;
    CodeReadsActive(s);
    CodeReadsActive(s');
  }

  /** The whole conversation of the active branch, as messages. */
  function Chatted(s: State): seq<Chat.Msg> {
    Chat.Messages(ActiveHistory(s))
  }

  lemma UsersChatted(s: State, s': State, n: nat, texts: seq<string>)
    requires GoesOn(s, s', UsersPayloads(n, texts))
    ensures Chatted(s') == Chatted(s) + UserMsgs(texts)
  {
    hide HistoryOf, Chat.Messages;
    var h, h' := ActiveHistory(s), ActiveHistory(s');
    UsersShown(h, h'[|h|..], n, texts);
    assert h' == h + h'[|h|..];
  }

  // ---- Sending ----

  function TrimmedLeft(s: string): string {
    if s != "" && IsSpace(s[0]) then TrimmedLeft(s[1..]) else s
  }

  function TrimmedRight(s: string): string {
    if s != "" && IsSpace(s[|s| - 1]) then TrimmedRight(s[..|s| - 1]) else s
  }

  lemma {:induction false} TrimmedBlank(s: string)
    requires Blank(s)
    ensures TrimmedLeft(s) == ""
  {
    if s != "" {
      TrimmedBlank(s[1..]);
    }
  }

  lemma {:induction false} LeftTrimmed(s: string)
    ensures TrimmedLeft(s) != "" ==> !IsSpace(TrimmedLeft(s)[0]) && !Blank(s)
  {
    if s != "" && IsSpace(s[0]) {
      LeftTrimmed(s[1..]);
    }
  }

  lemma {:induction false} RightKeepsFirst(s: string)
    requires s != "" && !IsSpace(s[0])
    ensures TrimmedRight(s) != ""
  {
    if IsSpace(s[|s| - 1]) {
      RightKeepsFirst(s[..|s| - 1]);
    }
  }

  /** A text is blank exactly when nothing is left of it once it is trimmed at
      both ends. */
  lemma BlankMeans(s: string)
    ensures Blank(s) <==> TrimmedRight(TrimmedLeft(s)) == ""
  {
    LeftTrimmed(s);
    if Blank(s) {
      TrimmedBlank(s);
    } else if TrimmedLeft(s) != "" {
      RightKeepsFirst(TrimmedLeft(s));
    } else {
      NotAllSpace(s);
    }
  }

  lemma {:induction false} NotAllSpace(s: string)
    requires TrimmedLeft(s) == ""
    ensures Blank(s)
  {
    if s != "" {
      NotAllSpace(s[1..]);
      assert s == [s[0]] + s[1..];
    }
  }

  /** With a turn running, what is sent waits: the log grows by one event that
      holds it under an id no message had, and nothing else changes. A blank
      text is refused. */
  lemma SendWaits(info: Info, ops: seq<Op>, text: string, client: string, s: State, s': State)
    requires Reached(info, ops + [OpSend(text, client)], s') && s == Run(info, ops) && s.turn != NoTurn
    ensures var id := Minted(s.minted);
            if Blank(text) then s' == s
            else
              && s'.log == s.log + [Event(|s.log| + 1, s.info.branch, MessageQueued(id, text, client))]
              && s'.queue == s.queue + [Queued(id, text, client)] && s'.turn == s.turn && GoesOn(s, s', [])
              && forall j :: 0 <= j < |s.log| ==> !Is(s.log[j].payload, id, WasQueued)
  {
    hide Run, Core, Blank, HistoryOf, Base, Adds;
    LastStep(info, ops, OpSend(text, client), s, s');
    if !Blank(text) {
      RunOrderly(info, ops);
      NextIdUnused(s);
      var p := MessageQueued(Minted(s.minted), text, client);
      BaseIgnores(s, Mint(s));
      AppendAdds(Mint(s), p);
      AddsLater(s, Mint(s), Append(Mint(s), p), []);
      BaseIgnores(Append(Mint(s), p), s');
      AddsLater(s, Append(Mint(s), p), s', []);
      AddsGoesOn(s, s', []);
    }
  }

  /** What a session says when it goes on: the texts that waited, in order, and
      then the text just sent, unless that is blank. */
  function ToSay(s: State, text: string): seq<string> {
    TextsOf(s.queue) + if Blank(text) then [] else [text]
  }

  lemma SaidAdds(s: State, text: string)
    requires Base(s)
    ensures var s1 := Deliver(s);
            var s2 := if Blank(text) then s1 else AppendUser(s1, text);
            Base(s2) && Adds(s, s2, UsersPayloads(s.minted, ToSay(s, text))) && s2.queue == []
  {
    hide Base, Adds, Deliver, AppendUser, Blank;
    var s1 := Deliver(s);
    DeliverAdds(s);
    if Blank(text) {
      assert ToSay(s, text) == TextsOf(s.queue);
    } else {
      UserAdds(s1, text);
      AddsTwice(s, s1, AppendUser(s1, text), UsersPayloads(s.minted, TextsOf(s.queue)),
                UserPayloads(Minted(s1.minted), text));
      UsersSnoc(s.minted, TextsOf(s.queue), text);
      UserQueue(s1, text);
    }
  }

  lemma UserQueue(s: State, text: string)
    ensures AppendUser(s, text).queue == s.queue
  {
  }

  /** A turn runs, from its first boundary. */
  predicate Begun(s: State) {
    s.turn == Boundary(true) && !s.cancelled && s.info.state == Working
  }

  lemma TurnBegun(s: State)
    ensures Begun(StartTurn(s)) && StartTurn(s).queue == s.queue
  {
  }

  /** With no turn running, the conversation goes on by what waited and what is
      sent, word for word and in order, nothing waits any more, and a turn is
      started. */
  lemma SendSays(info: Info, ops: seq<Op>, text: string, client: string, s: State, s': State)
    requires Reached(info, ops + [OpSend(text, client)], s') && s == Run(info, ops) && s.turn == NoTurn
    ensures if Blank(text) && s.queue == [] then s' == s
            else
              && GoesOn(s, s', UsersPayloads(s.minted, ToSay(s, text)))
              && Chatted(s') == Chatted(s) + UserMsgs(ToSay(s, text)) && s'.queue == [] && Begun(s')
  {
    hide Run, Core, Blank, Base, Adds, Deliver, AppendUser, StartTurn, GoesOn, Begun, Chatted;
    LastStep(info, ops, OpSend(text, client), s, s');
    if !(Blank(text) && s.queue == []) {
      var s1 := Deliver(s);
      var s2 := if Blank(text) then s1 else AppendUser(s1, text);
      SaidAdds(s, text);
      StartTurnAdds(s2);
      TurnBegun(s2);
      AddsOnly(s, s2, s', UsersPayloads(s.minted, ToSay(s, text)));
      AddsGoesOn(s, s', UsersPayloads(s.minted, ToSay(s, text)));
      UsersChatted(s, s', s.minted, ToSay(s, text));
    }
  }

  // ---- What is sent and waits ----

  /** No event of the log changes the text of queued message id. */
  ghost predicate NeverEdited(log: seq<Event>, id: Id) {
    forall j :: 0 <= j < |log| ==> !(log[j].payload.QueuedMessageUpdated? && log[j].payload.queueId == id)
  }

  lemma {:induction false} LastTextIs(log: seq<Event>, id: Id, k: nat)
    requires k < |log| && Is(log[k].payload, id, WasQueued) && NeverEdited(log, id)
    requires forall j :: k < j < |log| ==> !Is(log[j].payload, id, WasQueued)
    ensures LastText(log, id) == log[k].payload.text
  {
    if k < |log| - 1 {
      LastTextIs(log[..|log| - 1], id, k);
    }
  }

  lemma QueuedOnce(log: seq<Event>, id: Id, j: nat, k: nat)
    requires Lawful(log) && j < k < |log| && Is(log[j].payload, id, WasQueued)
    ensures !Is(log[k].payload, id, WasQueued)
  {
    assert LawfulAt(log, k) && log[..k][j] == log[j];
  }

  lemma {:induction false} ArrivedAt(log: seq<Event>, id: Id)
    requires Arrived(log, id) >= 0
    ensures Arrived(log, id) < |log| && Is(log[Arrived(log, id)].payload, id, WasQueued)
  {
    if log != [] && !Is(log[|log| - 1].payload, id, WasQueued) {
      ArrivedAt(log[..|log| - 1], id);
    }
  }

  /** Only what was queued is delivered. */
  lemma DeliveredAfter(log: seq<Event>, id: Id, i: nat, k: nat)
    requires Lawful(log) && i < |log| && Is(log[i].payload, id, WasDelivered)
    requires k < |log| && Is(log[k].payload, id, WasQueued)
    ensures k < i
  {
    FirstDelivered(log, i, id);
    LawfulAllowed(log, i);
    WaitInOrder(log[..i]);
    ArrivedAt(log[..i], id);
    var a := Arrived(log[..i], id);
    assert log[..i][a] == log[a];
    if a < k {
      QueuedOnce(log, id, a, k);
    }
  }

  /** A text sent while a turn runs, when it joins the conversation, is said as
      it was sent, unless somebody changed it meanwhile. */
  lemma SentIsSaid(info: Info, ops: seq<Op>, rest: seq<Op>, text: string, client: string, i: nat)
    requires New(info) && Run(info, ops).turn != NoTurn && !Blank(text)
    requires var id := Minted(Run(info, ops).minted);
             var log := Run(info, ops + [OpSend(text, client)] + rest).log;
             i < |log| && Is(log[i].payload, id, WasDelivered) && NeverEdited(log, id)
    ensures var log := Run(info, ops + [OpSend(text, client)] + rest).log;
            var id := log[i].payload.messageId;
            && i + 3 < |log| && log[i + 1].payload == MessageStarted(id, User)
            && log[i + 2].payload == TextDelta(id, text) && log[i + 3].payload == MessageDone(id, text)
  {
    hide Run, Blank, Lawful, Arrived;
    var s, sent, all := Run(info, ops), ops + [OpSend(text, client)], ops + [OpSend(text, client)] + rest;
    var id, log, k := Minted(s.minted), Run(info, all).log, |s.log|;
    assert all[..|sent|] == sent && sent[..|ops|] == ops;
    RunOne(info, sent);
    RunGrows(info, all, |sent|);
    var s1 := Run(info, sent);
    SentLast(s, s1, text, client);
    assert log[k] == log[..|s1.log|][k];
    RunOrderly(info, all);
    DeliveredAfter(log, id, i, k);
    forall j | k < j < i ensures !Is(log[..i][j].payload, id, WasQueued) {
      QueuedOnce(log, id, k, j);
    }
    LastTextIs(log[..i], id, k);
    DeliveredOnce(info, all, i);
  }

  lemma SentLast(s: State, s': State, text: string, client: string)
    requires s' == Send(s, text, client).0 && s.turn != NoTurn && !Blank(text)
    ensures |s'.log| == |s.log| + 1 && s'.log[|s.log|].payload == MessageQueued(Minted(s.minted), text, client)
  {
  }

  /** A change to a waiting message is logged as it was asked for, and nothing
      else changes; one to a message that does not wait is refused. */
  lemma UpdateLogged(info: Info, ops: seq<Op>, id: Id, text: string, cancel: bool, s: State, s': State)
    requires Reached(info, ops + [OpUpdateQueued(id, text, cancel)], s') && s == Run(info, ops)
    ensures if exists k :: 0 <= k < |s.queue| && s.queue[k].id == id then
              && s'.log == s.log + [Event(|s.log| + 1, s.info.branch, QueuedMessageUpdated(id, text, cancel))]
              && s'.turn == s.turn && GoesOn(s, s', [])
            else s' == s
  {
    hide Run, Core, HistoryOf, Base, Adds, Edited, GoesOn;
    LastStep(info, ops, OpUpdateQueued(id, text, cancel), s, s');
    if InQueue(s.queue, id) {
      var p := QueuedMessageUpdated(id, text, cancel);
      AppendAdds(s, p);
      BaseIgnores(Append(s, p), s');
      AddsLater(s, Append(s, p), s', []);
      AddsGoesOn(s, s', []);
    }
  }

  // ---- A turn's boundaries ----

  /** At every boundary of a turn but the first, what waited joins the
      conversation, word for word and in order. */
  lemma BoundarySays(info: Info, ops: seq<Op>, s: State, s': State)
    requires Reached(info, ops + [OpStep], s') && s == Run(info, ops) && s.turn.Boundary?
    ensures s'.turn == Ready(true)
    ensures if s.turn.first then s' == s.(turn := Ready(true))
            else GoesOn(s, s', UsersPayloads(s.minted, TextsOf(s.queue))) && s'.queue == [] &&
                 Chatted(s') == Chatted(s) + UserMsgs(TextsOf(s.queue))
  {
    hide Run, Core, Base, Adds, Deliver, GoesOn, Chatted;
    LastStep(info, ops, OpStep, s, s');
    if !s.turn.first {
      DeliverAdds(s);
      BaseIgnores(Deliver(s), s');
      AddsOnly(s, Deliver(s), s', UsersPayloads(s.minted, TextsOf(s.queue)));
      AddsGoesOn(s, s', UsersPayloads(s.minted, TextsOf(s.queue)));
      UsersChatted(s, s', s.minted, TextsOf(s.queue));
    }
  }

  // ---- The end of a turn ----

  lemma EndLogged(s: State, e: End)
    requires Base(s)
    ensures var s1 := Append(s.(turn := NoTurn, compactAsk := false), TaskStateChanged(e.state, e.reason));
            && Base(s1) && Adds(s, s1, []) && s1.queue == s.queue && s1.minted == s.minted && !s1.compactAsk
            && s1.turn == NoTurn && s1.info.state == e.state && s1.log[..|s.log|] == s.log
            && |s1.log| == |s.log| + 1 && s1.log[|s.log|].payload == TaskStateChanged(e.state, e.reason)
  {
    hide Base, Adds;
    var s0 := s.(turn := NoTurn, compactAsk := false);
    BaseIgnores(s, s0);
    AppendAdds(s0, TaskStateChanged(e.state, e.reason));
    AddsLater(s, s0, Append(s0, TaskStateChanged(e.state, e.reason)), []);
  }

  lemma StartCompactionAdds(s: State)
    requires Base(s)
    ensures var s' := StartCompaction(s);
            && Base(s') && Adds(s, s', []) && s'.queue == s.queue && s'.turn == CompactionRun
            && s'.info.state == Working && !s'.cancelled && s'.compactAsk == s.compactAsk
  {
    hide Base, Adds;
    var p := TaskStateChanged(Working, "compacting");
    AppendAdds(s, p);
    BaseIgnores(Append(s, p), StartCompaction(s));
    AddsOnly(s, Append(s, p), StartCompaction(s), []);
  }

  /** How a turn ended is logged. If it was not interrupted, and the server is
      not going away, a compaction asked for meanwhile is begun if the turn
      ended well, and otherwise what waits is said and answered; or else the
      session is idle, and what waits goes on waiting. */
  lemma EndSays(info: Info, ops: seq<Op>, e: End, s: State, s': State)
    requires Reached(info, ops + [OpEndTurn(e)], s') && s == Run(info, ops) && MayEnd(s, e)
    ensures |s.log| < |s'.log| && s'.log[|s.log|].payload == TaskStateChanged(e.state, e.reason) && !s'.compactAsk
    ensures var on := e != END_INTERRUPTED && !s.closing;
            if on && s.compactAsk && e.state == TaskState.Done then
              && s'.turn == CompactionRun && !s'.cancelled && s'.info.state == Working && s'.queue == s.queue
              && GoesOn(s, s', [])
            else if on && s.queue != [] then
              && GoesOn(s, s', UsersPayloads(s.minted, TextsOf(s.queue)))
              && Chatted(s') == Chatted(s) + UserMsgs(TextsOf(s.queue)) && s'.queue == [] && Begun(s')
            else s'.turn == NoTurn && s'.info.state == e.state && s'.queue == s.queue && GoesOn(s, s', [])
  {
    hide Run, Core, Base, Adds, Deliver, StartTurn, StartCompaction, GoesOn, Begun, Chatted, Append;
    LastStep(info, ops, OpEndTurn(e), s, s');
    var s1 := Append(s.(turn := NoTurn, compactAsk := false), TaskStateChanged(e.state, e.reason));
    EndLogged(s, e);
    EndKeepsLog(info, s, s1, s', e);
    var on := e != END_INTERRUPTED && !s.closing;
    if on && s.compactAsk && e.state == TaskState.Done {
      StartCompactionAdds(s1);
      AddsOnly(s, s1, s', []);
      AddsGoesOn(s, s', []);
    } else if on && s.queue != [] {
      var ps := UsersPayloads(s.minted, TextsOf(s.queue));
      DeliverAdds(s1);
      StartTurnAdds(Deliver(s1));
      TurnBegun(Deliver(s1));
      AddsLater(s, s1, Deliver(s1), ps);
      AddsOnly(s, Deliver(s1), s', ps);
      AddsGoesOn(s, s', ps);
      UsersChatted(s, s', s.minted, TextsOf(s.queue));
    } else {
      AddsGoesOn(s, s', []);
    }
  }

  lemma {:induction false} DeliverKeeps(s: State)
    ensures Longer(s, Deliver(s)) && Deliver(s).compactAsk == s.compactAsk
    decreases |s.queue|
  {
    if s.queue == [] {
      assert s.log[..|s.log|] == s.log;
    } else {
      DeliverKeeps(DeliverOne(s));
      assert DeliverOne(s).log[..|s.log|] == s.log;
      LongerTwice(s, DeliverOne(s), Deliver(s));
    }
  }

  lemma EndKeepsLog(info: Info, s: State, s1: State, s': State, e: End)
    requires s' == EndTurn(s, e)
    requires s1 == Append(s.(turn := NoTurn, compactAsk := false), TaskStateChanged(e.state, e.reason))
    ensures Longer(s1, s') && |s1.log| == |s.log| + 1 && s'.log[|s.log|] == s1.log[|s.log|] && !s'.compactAsk
  {
    hide Deliver;
    DeliverKeeps(s1);
    assert s1.log[..|s1.log|] == s1.log;
    var d := Deliver(s1);
    assert StartTurn(d).log[..|s1.log|] == d.log[..|s1.log|];
    assert s'.log[..|s1.log|][|s.log|] == s'.log[|s.log|];
  }

  /** A step that neither ends a turn nor begins a compaction. */
  predicate LeavesAsk(op: Op) {
    !op.OpRestart? && !op.OpEndTurn? && !op.OpBeginCompaction?
  }

  lemma AskStays(s: State, op: Op)
    requires s.turn != NoTurn && s.compactAsk && LeavesAsk(op)
    ensures Apply(s, op).turn != NoTurn && Apply(s, op).compactAsk
  {
    DeliverKeeps(s);
    hide Deliver;
    DeliverTurn(s);
  }

  lemma {:induction false} DeliverTurn(s: State)
    ensures Deliver(s).turn == s.turn
    decreases |s.queue|
  {
    if s.queue != [] {
      DeliverTurn(DeliverOne(s));
    }
  }

  lemma {:induction false} AskKept(info: Info, ops: seq<Op>, keep: int, hasModel: bool, mid: seq<Op>)
    requires keep >= 1 && Run(info, ops).turn != NoTurn && forall k :: 0 <= k < |mid| ==> LeavesAsk(mid[k])
    ensures var s := Run(info, ops + [OpRequestCompact(keep, hasModel)] + mid); s.turn != NoTurn && s.compactAsk
  {
    hide Run, Apply;
    var asked, all := ops + [OpRequestCompact(keep, hasModel)], ops + [OpRequestCompact(keep, hasModel)] + mid;
    RunOne(info, all);
    if mid == [] {
      assert all == asked && asked[..|ops|] == ops;
      AskNoted(Run(info, ops), keep, hasModel);
    } else {
      var init := mid[..|mid| - 1];
      AskKept(info, ops, keep, hasModel, init);
      assert all[..|all| - 1] == asked + init;
      AskStays(Run(info, asked + init), mid[|mid| - 1]);
    }
  }

  lemma AskNoted(s: State, keep: int, hasModel: bool)
    requires s.turn != NoTurn && keep >= 1
    ensures Apply(s, OpRequestCompact(keep, hasModel)) == s.(compactAsk := true)
  {
  }

  /** A compaction asked for while a turn runs is begun: by the turn itself
      before its next request, or once the turn has ended well; the turn says so
      when there is nothing to compact. */
  lemma AskedIsBegun(info: Info, ops: seq<Op>, keep: int, hasModel: bool, mid: seq<Op>, again: int)
    requires New(info) && keep >= 1 && again >= 1 && Run(info, ops).turn != NoTurn
    requires forall k :: 0 <= k < |mid| ==> LeavesAsk(mid[k])
    ensures var s := Run(info, ops + [OpRequestCompact(keep, hasModel)] + mid);
            var begun, ended := Apply(s, OpBeginCompaction(again)), Apply(s, OpEndTurn(END_DONE));
            && (s.turn == Ready(true) ==>
                  !begun.compactAsk &&
                  (begun.turn.Summarizing? ||
                   (|begun.log| == |s.log| + 1 &&
                    begun.log[|s.log|].payload == CompactionDone("nothing to compact yet", 0, 0, 0, ""))))
            && (!s.closing ==> ended.turn == CompactionRun && ended.info.state == Working)
  {
    hide Run, Compact.ChosenCut, HistoryOf, Deliver;
    AskKept(info, ops, keep, hasModel, mid);
  }

  /** Once every call of a reply has its result the turn goes on to its next
      boundary, where what waited joins the conversation; a reply that called
      nothing has no next boundary. */
  lemma CallsThenQueue(info: Info, ops: seq<Op>, s: State, s': State)
    requires Reached(info, ops + [OpNextStep] + [OpStep], s') && s == Run(info, ops)
    requires s.turn.Calling? && s.turn.answered == |s.turn.calls|
    ensures if s.turn.calls == [] then s' == s
            else
              && s'.turn == Ready(true) && s'.queue == []
              && GoesOn(s, s', UsersPayloads(s.minted, TextsOf(s.queue)))
              && Chatted(s') == Chatted(s) + UserMsgs(TextsOf(s.queue))
  {
    hide Run, Core, Base, GoesOn, Chatted, HistoryOf;
    var next := ops + [OpNextStep];
    var s1 := Run(info, next);
    LastStep(info, next, OpStep, s1, s');
    LastStep(info, ops, OpNextStep, s, s1);
    if s.turn.calls != [] {
      BoundarySays(info, next, s1, s');
      SameHistory(s, s1);
    }
  }

  lemma SameHistory(s: State, s1: State)
    requires s1.log == s.log && s1.tree == s.tree && s1.info == s.info
    ensures ActiveHistory(s1) == ActiveHistory(s) && Chatted(s1) == Chatted(s)
    ensures forall s', ps :: GoesOn(s1, s', ps) == GoesOn(s, s', ps)
  {
    hide HistoryOf;
  }

  /** A running turn that is interrupted may end at once; then the session is
      idle, and what waits goes on waiting. */
  lemma InterruptEnds(info: Info, ops: seq<Op>, s: State, s': State)
    requires Reached(info, ops + [OpInterrupt] + [OpEndTurn(END_INTERRUPTED)], s') && s == Run(info, ops)
    requires s.turn != NoTurn
    ensures s'.turn == NoTurn && s'.queue == s.queue && s'.info.state == TaskState.Done && GoesOn(s, s', [])
    ensures |s.log| < |s'.log| && s'.log[|s.log|].payload == TaskStateChanged(TaskState.Done, "interrupted")
  {
    hide Run, Core, Base, GoesOn, Chatted, HistoryOf;
    var cut := ops + [OpInterrupt];
    var s1 := Run(info, cut);
    LastStep(info, cut, OpEndTurn(END_INTERRUPTED), s1, s');
    LastStep(info, ops, OpInterrupt, s, s1);
    EndSays(info, cut, END_INTERRUPTED, s1, s');
    SameHistory(s, s1);
  }

  /** With no turn running, a compaction asked for is started exactly when there
      is a model to ask and some turn came after the newest compaction. */
  lemma IdleCompaction(info: Info, ops: seq<Op>, keep: int, hasModel: bool, s: State, s': State)
    requires Reached(info, ops + [OpRequestCompact(keep, hasModel)], s') && s == Run(info, ops)
    requires keep >= 1 && s.turn == NoTurn
    ensures var h := ActiveHistory(s);
            if hasModel && Compact.Turns(h, Context.CoveredBy(h)) != {} then
              && s'.turn == CompactionRun && !s'.cancelled && s'.info.state == Working && s'.queue == s.queue
              && GoesOn(s, s', [])
            else s' == s
  {
    hide Run, Core, Base, Adds, GoesOn, HistoryOf, StartCompaction, Compact.ChosenCut, Compact.Turns, Compact.Steps;
    var h := ActiveHistory(s);
    LastStep(info, ops, OpRequestCompact(keep, hasModel), s, s');
    GoodNumbers(s);
    Compact.NothingToSummarize(h, Context.CoveredBy(h), keep, 0, false);
    assert |Compact.Turns(h, Context.CoveredBy(h))| <= 0 <==> Compact.Turns(h, Context.CoveredBy(h)) == {};
    if hasModel && Compact.Turns(h, Context.CoveredBy(h)) != {} {
      StartCompactionAdds(s);
      AddsGoesOn(s, s', []);
    }
  }

  /** While a call asks somebody the session is waiting, and what is asked is
      logged; once it goes on the session is working again. */
  lemma QuestionShows(info: Info, ops: seq<Op>, title: string, s: State, s': State)
    requires Reached(info, ops + [OpAsk(title)], s') && s == Run(info, ops) && RunningCall(s.turn)
    ensures s'.turn == s.turn && s'.info.state == TaskState.Waiting && GoesOn(s, s', [])
    ensures |s'.log| == |s.log| + 1 && s'.log[|s.log|].payload == TaskStateChanged(TaskState.Waiting, title)
    ensures Apply(s', OpResume).info.state == Working && Apply(s', OpResume).turn == s.turn
  {
    hide Run, Core, Base, Adds, GoesOn;
    LastStep(info, ops, OpAsk(title), s, s');
    AppendAdds(s, TaskStateChanged(TaskState.Waiting, title));
    AddsGoesOn(s, s', []);
  }

  /** A summary that fails is logged with its error, and changes neither what is
      covered nor what has been said. */
  lemma FailureCoversNothing(info: Info, ops: seq<Op>, error: string, tokensAfter: int, summary: string, s: State,
                             s': State)
    requires Reached(info, ops + [OpEndCompaction(error, tokensAfter, summary)], s') && s == Run(info, ops)
    requires s.turn.Summarizing? && error != ""
    ensures GoesOn(s, s', [CompactionDone(error, 0, 0, 0, "")]) && Chatted(s') == Chatted(s)
    ensures Context.LastCompaction(ActiveHistory(s')) == Context.LastCompaction(ActiveHistory(s))
    ensures s'.turn == if s.turn.inTurn then Ready(false) else Over
  {
    hide Run, Core, Base, Adds, HistoryOf, Chat.Messages;
    var p := CompactionDone(error, 0, 0, 0, "");
    LastStep(info, ops, OpEndCompaction(error, tokensAfter, summary), s, s');
    LoggedAdds(s, p);
    AddsNothing(Append(s, p), s');
    AddsOnly(s, Append(s, p), s', [p]);
    AddsGoesOn(s, s', [p]);
    var h, h' := ActiveHistory(s), ActiveHistory(s');
    var ev := h'[|h|..][0];
    assert h' == h + h'[|h|..] && h'[|h|..] == [ev] && ev.payload == p;
    assert (h + [ev])[..|h|] == h;
    NothingMore(h, ev);
  }

  lemma NothingMore(h: seq<Event>, ev: Event)
    requires ev.payload.CompactionDone?
    ensures Chat.Messages(h + [ev]) == Chat.Messages(h)
  {
    assert (h + [ev])[..|h|] == h;
  }
}
