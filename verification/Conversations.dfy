/** Branch histories read off the log by definition, and how they grow. */
module Conversations {
  import opened Events
  import opened Branches
  import opened Context
  import opened Model
  import opened Histories

  /** The log and the tree fit together: events are numbered from 1, the tree
      is the one the log records, and every event's branch was made before
      it. */
  ghost predicate Rooted(log: seq<Event>, t: TreeValue) {
    && Numbered(log) && WellFormed(t) && t == TreeOf(log)
    && (forall b :: b in t.byID ==> t.byID[b].born <= |log|)
    && (forall i :: 0 <= i < |log| ==> Placed(t, log[i]))
  }

  /** An event is part of branch b's conversation. */
  ghost predicate Of(t: TreeValue, b: Id, ev: Event)
    requires WellFormed(t) && b in t.byID
  {
    !SessionWide(ev.payload) && OnPath(t, b, ev.branch, ev.no)
  }

  /** Branch b's conversation: every event of it, in order. */
  ghost function Conversation(log: seq<Event>, t: TreeValue, b: Id): seq<Event>
    requires WellFormed(t) && b in t.byID
  {
    if log == [] then []
    else
      var ev := log[|log| - 1];
      Conversation(log[..|log| - 1], t, b) + if Of(t, b, ev) then [ev] else []
  }

  /** The part of it the model's context is rebuilt from. */
  ghost function History(log: seq<Event>, t: TreeValue, b: Id): seq<Event>
    requires WellFormed(t) && b in t.byID
  {
    HistoryEvents(Conversation(log, t, b))
  }

  // ---- The code reads the same ----

  /** The history the code reads is the branch's history. */
  lemma {:induction false} CodeReadsHistory(log: seq<Event>, t: TreeValue, b: Id)
    requires WellFormed(t) && b in t.byID && (b != ROOT ==> t.byID[b].born <= MAX_INT64)
    requires forall i :: 0 <= i < |log| ==> log[i].no <= MAX_INT64
    ensures HistoryOf(log, t, b) == History(log, t, b)
  {
    if log != [] {
      var init, ev := log[..|log| - 1], log[|log| - 1];
      CodeReadsHistory(init, t, b);
      PathMeansOnPath(t, b, ev.branch, ev.no);
      var c, h := Conversation(init, t, b), HistoryEvents(init);
      HistorySnoc(c, ev);
      FilteredSnoc(PathOf(t, b), h, ev);
      assert log == init + [ev];
      HistorySnoc(init, ev);
      ConversationSnoc(init, t, b, ev);
      assert c + [] == c && h + [] == h && HistoryEvents(c) + [] == HistoryEvents(c);
    }
  }

  lemma HistorySnoc(h: seq<Event>, ev: Event)
    ensures HistoryEvents(h + [ev]) == HistoryEvents(h) + if HistoryKind(ev.payload) then [ev] else []
  {
    assert (h + [ev])[..|h|] == h;
  }

  lemma FilteredSnoc(p: Path, h: seq<Event>, ev: Event)
    ensures Filtered(p, h + [ev]) == Filtered(p, h) + if Contains(p, ev) then [ev] else []
  {
    assert (h + [ev])[..|h|] == h;
  }

  lemma MessagesSnoc(h: seq<Event>, ev: Event)
    ensures MessageLog(h + [ev]) == MessageLog(h) + if MessageKind(ev.payload) then [ev] else []
  {
    assert (h + [ev])[..|h|] == h;
  }

  lemma {:induction false} MessagesOfHistory(c: seq<Event>)
    ensures MessageLog(HistoryEvents(c)) == MessageLog(c)
  {
    if c != [] {
      var init, ev := c[..|c| - 1], c[|c| - 1];
      MessagesOfHistory(init);
      assert c == init + [ev];
      HistorySnoc(init, ev);
      MessagesSnoc(init, ev);
      MessagesSnoc(HistoryEvents(init), ev);
      assert HistoryEvents(init) + [] == HistoryEvents(init) && MessageLog(init) + [] == MessageLog(init);
    }
  }

  lemma {:induction false} CodeReadsMessages(log: seq<Event>, t: TreeValue, b: Id)
    requires WellFormed(t) && b in t.byID && (b != ROOT ==> t.byID[b].born <= MAX_INT64)
    requires forall i :: 0 <= i < |log| ==> log[i].no <= MAX_INT64
    ensures Filtered(PathOf(t, b), MessageLog(log)) == MessageLog(Conversation(log, t, b))
  {
    if log != [] {
      var init, ev := log[..|log| - 1], log[|log| - 1];
      CodeReadsMessages(init, t, b);
      assert log == init + [ev];
      OneMoreMessage(init, ev, t, b);
    }
  }

  lemma OneMoreMessage(log: seq<Event>, ev: Event, t: TreeValue, b: Id)
    requires WellFormed(t) && b in t.byID && (b != ROOT ==> t.byID[b].born <= MAX_INT64) && ev.no <= MAX_INT64
    requires Filtered(PathOf(t, b), MessageLog(log)) == MessageLog(Conversation(log, t, b))
    ensures Filtered(PathOf(t, b), MessageLog(log + [ev])) == MessageLog(Conversation(log + [ev], t, b))
  {
    hide Filtered, MessageLog, Conversation, PathOf, WellFormed, OnPath, Includes;
    var c, m := Conversation(log, t, b), MessageLog(log);
    PathMeansOnPath(t, b, ev.branch, ev.no);
    MessagesSnoc(c, ev);
    MessagesSnoc(log, ev);
    FilteredSnoc(PathOf(t, b), m, ev);
    ConversationSnoc(log, t, b, ev);
    assert c + [] == c && m + [] == m && MessageLog(c) + [] == MessageLog(c);
  }

  lemma HistoryRead(log: seq<Event>, t: TreeValue, b: Id)
    requires Rooted(log, t) && b in t.byID && |log| <= MAX_INT64
    ensures HistoryOf(log, t, b) == History(log, t, b)
  {
    CodeReadsHistory(log, t, b);
  }

  lemma MessagesRead(log: seq<Event>, t: TreeValue, b: Id)
    requires Rooted(log, t) && b in t.byID && |log| <= MAX_INT64
    ensures Filtered(PathOf(t, b), MessageLog(log)) == MessageLog(History(log, t, b))
  {
    CodeReadsMessages(log, t, b);
    MessagesOfHistory(Conversation(log, t, b));
  }

  // ---- One more event ----

  lemma ConversationSnoc(log: seq<Event>, t: TreeValue, b: Id, ev: Event)
    requires WellFormed(t) && b in t.byID
    ensures Conversation(log + [ev], t, b) == Conversation(log, t, b) + if Of(t, b, ev) then [ev] else []
  {
    assert (log + [ev])[..|log|] == log;
  }

  lemma KindsOfBranch(p: Payload)
    ensures HistoryKind(p) ==> !SessionWide(p)
  {
  }

  /** A new event joins the history of its own branch only. */
  lemma HistoryGrows(log: seq<Event>, t: TreeValue, b: Id, ev: Event)
    requires WellFormed(t) && b in t.byID && t.byID[b].born < ev.no
    ensures Conversation(log + [ev], t, b) ==
      Conversation(log, t, b) + if b == ev.branch && !SessionWide(ev.payload) then [ev] else []
    ensures History(log + [ev], t, b) ==
      History(log, t, b) + if b == ev.branch && HistoryKind(ev.payload) then [ev] else []
  {
    hide Conversation, HistoryEvents, WellFormed, OnPath, HistoryKind, SessionWide;
    ConversationSnoc(log, t, b, ev);
    NewEventsStay(t, b, ev.branch, ev.no);
    HistorySnoc(Conversation(log, t, b), ev);
    KindsOfBranch(ev.payload);
    var c := Conversation(log, t, b);
    assert c + [] == c && HistoryEvents(c) + [] == HistoryEvents(c);
  }

  lemma {:induction false} ConversationWithin(log: seq<Event>, t: TreeValue, b: Id)
    requires WellFormed(t) && b in t.byID
    ensures forall ev :: ev in Conversation(log, t, b) ==> ev in log && Of(t, b, ev)
    ensures Increasing(log) ==> Increasing(Conversation(log, t, b))
  {
    hide Of, WellFormed, Increasing;
    if log != [] {
      var init, last := log[..|log| - 1], log[|log| - 1];
      ConversationWithin(init, t, b);
      assert log == init + [last];
      var c := Conversation(init, t, b);
      IncreasesWith(init, c, last);
      assert c + [] == c;
    } else {
      assert Conversation(log, t, b) == log;
    }
  }

  /** Events of a log stay increasing with the log's next event. */
  lemma IncreasesWith(log: seq<Event>, c: seq<Event>, last: Event)
    requires forall ev :: ev in c ==> ev in log
    ensures Increasing(log + [last]) ==> Increasing(log)
    ensures Increasing(log + [last]) && Increasing(c) ==> Increasing(c + [last])
  {
    if Increasing(log + [last]) {
      forall i | 0 <= i < |log| ensures log[i].no < last.no {
        assert (log + [last])[i] == log[i] && (log + [last])[|log|] == last;
      }
      forall i, j | 0 <= i < j < |log| ensures log[i].no < log[j].no {
        assert (log + [last])[i] == log[i] && (log + [last])[j] == log[j];
      }
      forall i | 0 <= i < |c| ensures c[i].no < last.no {
        assert c[i] in log;
        var k :| 0 <= k < |log| && log[k] == c[i];
      }
    }
  }

  lemma {:induction false} HistoryWithin(h: seq<Event>)
    ensures forall ev :: ev in HistoryEvents(h) ==> ev in h && HistoryKind(ev.payload)
  {
    if h != [] {
      HistoryWithin(h[..|h| - 1]);
      assert h == h[..|h| - 1] + [h[|h| - 1]];
    }
  }

  lemma NumberedIncreases(log: seq<Event>)
    requires Numbered(log)
    ensures Increasing(log)
  {
  }

  // ---- Agreement and growth ----

  /** The first events of a sequence of increasing numbers, up to a cap. */
  lemma {:induction false} UpToSnoc(h: seq<Event>, ev: Event, cap: int)
    requires Increasing(h + [ev])
    ensures UpTo(h + [ev], cap) == UpTo(h, cap) + if ev.no <= cap then [ev] else []
  {
    CoveringSnoc(h, ev, cap);
    var n := Covering(h, cap);
    if n < |h| {
      assert (h + [ev])[n] == h[n] && (h + [ev])[|h|] == ev;
    }
  }

  /** Two branches whose paths agree up to cap have the same conversation up
      to cap. */
  lemma {:induction false} SameUpTo(log: seq<Event>, t: TreeValue, a: Id, p: Id, cap: int)
    requires Increasing(log) && WellFormed(t) && a in t.byID && p in t.byID
    requires forall i :: 0 <= i < |log| && log[i].no <= cap ==>
      (OnPath(t, a, log[i].branch, log[i].no) <==> OnPath(t, p, log[i].branch, log[i].no))
    ensures UpTo(Conversation(log, t, a), cap) == UpTo(Conversation(log, t, p), cap)
  {
    if log != [] {
      var init, ev := log[..|log| - 1], log[|log| - 1];
      SameUpTo(init, t, a, p, cap);
      UpToConversation(init, ev, t, a, cap);
      UpToConversation(init, ev, t, p, cap);
    }
  }

  lemma UpToConversation(init: seq<Event>, ev: Event, t: TreeValue, b: Id, cap: int)
    requires Increasing(init + [ev]) && WellFormed(t) && b in t.byID
    ensures UpTo(Conversation(init + [ev], t, b), cap) ==
      UpTo(Conversation(init, t, b), cap) + if ev.no <= cap && Of(t, b, ev) then [ev] else []
  {
    ConversationSnoc(init, t, b, ev);
    var c := Conversation(init, t, b);
    ConversationWithin(init + [ev], t, b);
    if Of(t, b, ev) {
      UpToSnoc(c, ev, cap);
    } else {
      assert c + [] == c;
    }
  }

  /** Any event p's branch shares with a settles what a and p share. */
  lemma AgreeUpTo(log: seq<Event>, t: TreeValue, a: Id, p: Id, q: int, cap: int)
    requires Rooted(log, t) && a in t.byID && p in t.byID && OnPath(t, a, p, q) && cap <= q
    ensures UpTo(Conversation(log, t, a), cap) == UpTo(Conversation(log, t, p), cap)
  {
    NumberedIncreases(log);
    forall i | 0 <= i < |log| && log[i].no <= cap
      ensures OnPath(t, a, log[i].branch, log[i].no) <==> OnPath(t, p, log[i].branch, log[i].no)
    {
      PathsAgree(t, a, p, q, log[i]);
    }
    SameUpTo(log, t, a, p, cap);
  }

  /** More branches change no old branch's conversation. */
  lemma {:induction false} MoreBranches(log: seq<Event>, t: TreeValue, t': TreeValue, b: Id)
    requires WellFormed(t) && WellFormed(t') && b in t.byID
    requires forall x :: x in t.byID ==> x in t'.byID && t'.byID[x] == t.byID[x]
    ensures Conversation(log, t', b) == Conversation(log, t, b)
  {
    if log != [] {
      MoreBranches(log[..|log| - 1], t, t', b);
      GrowthKeepsPaths(t, t', b, log[|log| - 1].branch, log[|log| - 1].no);
    }
  }

  /** Events past the cap do not matter below it. */
  lemma {:induction false} LaterEventsDoNotMatter(log: seq<Event>, t: TreeValue, b: Id, k: nat, cap: int)
    requires Increasing(log) && WellFormed(t) && b in t.byID && k <= |log|
    requires forall i :: k <= i < |log| ==> log[i].no > cap
    ensures UpTo(Conversation(log, t, b), cap) == UpTo(Conversation(log[..k], t, b), cap)
  {
    if k < |log| {
      var init, ev := log[..|log| - 1], log[|log| - 1];
      LaterEventsDoNotMatter(init, t, b, k, cap);
      assert init[..k] == log[..k] && log == init + [ev];
      UpToConversation(init, ev, t, b, cap);
    } else {
      assert log[..k] == log;
    }
  }

  // ---- The tree of a prefix ----

  /** The branches made by then, and nothing else. */
  lemma {:induction false} TreeOfPrefix(log: seq<Event>, k: nat)
    requires Numbered(log) && k <= |log|
    ensures var t, u := TreeOf(log), TreeOf(log[..k]);
            && (forall b :: b in u.byID ==> b in t.byID && t.byID[b] == u.byID[b])
            && (forall b :: b in t.byID && t.byID[b].born <= k ==> b in u.byID)
  {
    if k < |log| {
      var init := log[..|log| - 1];
      TreeOfPrefix(init, k);
      assert init[..k] == log[..k];
    } else {
      assert log[..k] == log;
    }
  }

  lemma {:induction false} TreeBorn(log: seq<Event>)
    requires Numbered(log)
    ensures forall b :: b in TreeOf(log).byID ==> TreeOf(log).byID[b].born <= |log|
    ensures ROOT in TreeOf(log).byID && TreeOf(log).byID[ROOT] == ROOT_BRANCH
  {
    if log != [] {
      TreeBorn(log[..|log| - 1]);
    }
  }

  lemma RootedPrefix(log: seq<Event>, t: TreeValue, k: nat)
    requires Rooted(log, t) && k <= |log|
    ensures Rooted(log[..k], TreeOf(log[..k]))
  {
    var u := TreeOf(log[..k]);
    TreeOfPrefix(log, k);
    TreeBorn(log[..k]);
    forall b ensures Forks(u, b) {
      assert Forks(t, b);
    }
    forall i | 0 <= i < k ensures Placed(u, log[..k][i]) {
      assert Placed(t, log[i]);
    }
  }

  // ---- Isolation ----

  /** The events of a log recorded on branch b. */
  function Own(log: seq<Event>, b: Id): seq<Event> {
    if log == [] then []
    else
      var ev := log[|log| - 1];
      Own(log[..|log| - 1], b) + if ev.branch == b && !SessionWide(ev.payload) then [ev] else []
  }

  lemma OwnSnoc(log: seq<Event>, b: Id, ev: Event)
    ensures Own(log + [ev], b) == Own(log, b) + if ev.branch == b && !SessionWide(ev.payload) then [ev] else []
  {
    assert (log + [ev])[..|log|] == log;
  }

  lemma GrowsOnce(init: seq<Event>, ev: Event, t: TreeValue, b: Id, k: nat)
    requires WellFormed(t) && b in t.byID && t.byID[b].born < ev.no && k <= |init|
    requires Conversation(init, t, b) == Conversation(init[..k], t, b) + Own(init[k..], b)
    ensures var log := init + [ev];
            Conversation(log, t, b) == Conversation(log[..k], t, b) + Own(log[k..], b)
  {
    hide Conversation, Own, WellFormed, History;
    var log := init + [ev];
    assert log[..k] == init[..k] && log[k..] == init[k..] + [ev];
    OwnSnoc(init[k..], b, ev);
    HistoryGrows(init, t, b, ev);
  }

  lemma {:induction false} GrowsByOwn(log: seq<Event>, t: TreeValue, b: Id, k: nat)
    requires Numbered(log) && WellFormed(t) && b in t.byID && t.byID[b].born <= k <= |log|
    ensures Conversation(log, t, b) == Conversation(log[..k], t, b) + Own(log[k..], b)
  {
    if k < |log| {
      var init, ev := log[..|log| - 1], log[|log| - 1];
      GrowsByOwn(init, t, b, k);
      GrowsOnce(init, ev, t, b, k);
      assert log == init + [ev];
    } else {
      assert log[..k] == log && log[k..] == [];
    }
  }

  /** Whatever happens after the first k events, a branch made by then adds to
      its conversation exactly the events recorded on itself: no event on any
      other branch, and no new branch, ever changes it. */
  lemma Isolation(log: seq<Event>, t: TreeValue, b: Id, k: nat)
    requires Rooted(log, t) && k <= |log| && b in TreeOf(log[..k]).byID
    ensures Rooted(log[..k], TreeOf(log[..k])) && b in t.byID
    ensures Conversation(log, t, b) == Conversation(log[..k], TreeOf(log[..k]), b) + Own(log[k..], b)
  {
    RootedPrefix(log, t, k);
    TreeOfPrefix(log, k);
    GrowsByOwn(log, t, b, k);
    MoreBranches(log[..k], TreeOf(log[..k]), t, b);
  }
}
