/** The part of a conversation the model still sees after a compaction. */
module Context {
  import opened Events
  import opened Chat

  /** A CompactionDone event's payload. */
  type Compaction = p: Payload | p.CompactionDone? witness CompactionDone("", 0, 0, 0, "")

  // ---- What the code computes ----

  /** The newest compaction that took effect. */
  function LastCompaction(events: seq<Event>): Option<Compaction> {
    if events == [] then None
    else
      var p := events[|events| - 1].payload;
      if Effective(p) then Some(p) else LastCompaction(events[..|events| - 1])
  }

  /** How far the compactions of a history reach: as far as the newest. */
  function CoveredBy(events: seq<Event>): int {
    if LastCompaction(events).Some? then LastCompaction(events).value.coveredSeq else 0
  }

  /** How many leading events are numbered at most no. */
  function Covering(events: seq<Event>, no: int): (n: nat)
    ensures n <= |events|
    ensures forall i :: 0 <= i < n ==> events[i].no <= no
    ensures n < |events| ==> events[n].no > no
  {
    if events == [] || events[0].no > no then 0 else 1 + Covering(events[1..], no)
  }

  function UpTo(events: seq<Event>, no: int): seq<Event> {
    events[..Covering(events, no)]
  }

  function After(events: seq<Event>, no: int): seq<Event> {
    events[Covering(events, no)..]
  }

  /** The role of the first message started in events. */
  function FirstRole(events: seq<Event>): Option<Role> {
    if events == [] then None
    else if events[0].payload.MessageStarted? then Some(events[0].payload.role)
    else FirstRole(events[1..])
  }

  predicate UserStart(p: Payload) {
    p.MessageStarted? && p.role == User
  }

  /** The id of the last user message started in events. */
  function LastUser(events: seq<Event>): Id {
    if events == [] then Empty
    else
      var p := events[|events| - 1].payload;
      if UserStart(p) then p.messageId else LastUser(events[..|events| - 1])
  }

  predicate OfMessage(p: Payload, id: Id) {
    (p.MessageStarted? && p.messageId == id) || (p.MessageDone? && p.messageId == id)
  }

  function MessageEvents(events: seq<Event>, id: Id): seq<Event> {
    if events == [] then []
    else
      var ev := events[|events| - 1];
      MessageEvents(events[..|events| - 1], id) + if OfMessage(ev.payload, id) then [ev] else []
  }

  function ContextEvents(events: seq<Event>, c: Option<Compaction>): seq<Event> {
    if c.None? then events
    else
      var older, kept := UpTo(events, c.value.coveredSeq), After(events, c.value.coveredSeq);
      if FirstRole(kept).None? || FirstRole(kept).value == User || LastUser(older) == Empty then kept
      else MessageEvents(older, LastUser(older)) + kept
  }

  // ---- The code ----

  method FindLastCompaction(events: seq<Event>) returns (c: Option<Compaction>)
    ensures c == LastCompaction(events)
  {
    c := None;
    var i := 0;
    while i < |events|
      invariant 0 <= i <= |events|
      invariant c == LastCompaction(events[..i])
    {
      assert events[..i + 1][..i] == events[..i];
      var p := events[i].payload;
      if p.CompactionDone? && p.error == "" {
        c := Some(p);
      }
      i := i + 1;
    }
    assert events[..i] == events;
  }

  lemma CoveringIs(events: seq<Event>, no: int, i: nat)
    requires i <= |events|
    requires forall k :: 0 <= k < i ==> events[k].no <= no
    requires i < |events| ==> events[i].no > no
    ensures Covering(events, no) == i
  {
  }

  method CutUpTo(events: seq<Event>, no: int) returns (out: seq<Event>)
    ensures out == UpTo(events, no)
  {
    var i := 0;
    while i < |events| && events[i].no <= no
      invariant 0 <= i <= |events|
      invariant forall k :: 0 <= k < i ==> events[k].no <= no
    {
      i := i + 1;
    }
    CoveringIs(events, no, i);
    return events[..i];
  }

  lemma NoneYet(older: seq<Event>, id: Id)
    ensures LastUser(older[..0]) == Empty && MessageEvents(older[..0], id) == []
  {
  }

  lemma LastUserNext(older: seq<Event>, k: nat)
    requires k < |older|
    ensures LastUser(older[..k + 1]) ==
            if UserStart(older[k].payload) then older[k].payload.messageId else LastUser(older[..k])
  {
    assert older[..k + 1][..k] == older[..k];
  }

  lemma MessageEventsNext(older: seq<Event>, id: Id, k: nat)
    requires k < |older|
    ensures MessageEvents(older[..k + 1], id) ==
            if OfMessage(older[k].payload, id) then MessageEvents(older[..k], id) + [older[k]]
            else MessageEvents(older[..k], id)
  {
    assert older[..k + 1][..k] == older[..k];
    assert MessageEvents(older[..k], id) + [] == MessageEvents(older[..k], id);
  }

  method BuildContext(events: seq<Event>, c: Option<Compaction>) returns (out: seq<Event>)
    ensures out == ContextEvents(events, c)
  {
    hide LastUser, MessageEvents;
    if c.None? {
      return events;
    }
    var i := 0;
    while i < |events| && events[i].no <= c.value.coveredSeq
      invariant 0 <= i <= |events|
      invariant forall k :: 0 <= k < i ==> events[k].no <= c.value.coveredSeq
    {
      i := i + 1;
    }
    CoveringIs(events, c.value.coveredSeq, i);
    var older, kept := events[..i], events[i..];
    var j := 0;
    while j < |kept|
      invariant 0 <= j <= |kept|
      invariant FirstRole(kept) == FirstRole(kept[j..])
    {
      var p := kept[j].payload;
      if p.MessageStarted? {
        if p.role == User {
          return kept;
        }
        // Cut inside a turn: keep the request it is working on.
        var userId, k := Empty, 0;
        NoneYet(older, Empty);
        while k < |older|
          invariant 0 <= k <= |older|
          invariant userId == LastUser(older[..k])
        {
          LastUserNext(older, k);
          var q := older[k].payload;
          if q.MessageStarted? && q.role == User {
            userId := q.messageId;
          }
          k := k + 1;
        }
        assert older[..k] == older;
        if userId == Empty {
          return kept;
        }
        out, k := [], 0;
        NoneYet(older, userId);
        while k < |older|
          invariant 0 <= k <= |older|
          invariant out == MessageEvents(older[..k], userId)
        {
          MessageEventsNext(older, userId, k);
          var q := older[k].payload;
          if (q.MessageStarted? && q.messageId == userId) || (q.MessageDone? && q.messageId == userId) {
            out := out + [older[k]];
          }
          k := k + 1;
        }
        assert older[..k] == older;
        return out + kept;
      }
      assert kept[j..][1..] == kept[j + 1..];
      j := j + 1;
    }
    return kept;
  }

  // ---- A cut at a message boundary leaves a chat that can be rebuilt ----

  /** Events the scan of a conversation ignores. */
  predicate Neutral(p: Payload) {
    !p.MessageStarted? && !p.MessageDone? && !p.ToolCallStarted? && !p.ToolCallDone?
  }

  /** The first event that matters, if any, starts a message. */
  predicate StartsClean(events: seq<Event>) {
    events == [] || events[0].payload.MessageStarted? || (Neutral(events[0].payload) && StartsClean(events[1..]))
  }

  function ScanFrom(sh: Shape, events: seq<Event>): Option<Shape>
    decreases |events|
  {
    if events == [] then Some(sh)
    else
      var next := NextShape(sh, events[0].payload);
      if next.None? then None else ScanFrom(next.value, events[1..])
  }

  lemma {:induction false} ScanConcat(a: seq<Event>, b: seq<Event>)
    ensures Scan(a + b) == if Scan(a).None? then None else ScanFrom(Scan(a).value, b)
    decreases |b|
  {
    if b == [] {
      assert a + b == a;
    } else {
      var a' := a + [b[0]];
      assert a + b == a' + b[1..];
      assert a'[..|a|] == a;
      ScanConcat(a', b[1..]);
      if Scan(a).None? {
        assert Scan(a').None?;
      }
    }
  }

  /** Two scans that can no longer come apart. */
  ghost predicate Alike(a: Shape, b: Shape) {
    a == b || (a.Opened? && b.Opened? && a.id == b.id && a.role == b.role)
  }

  lemma {:induction false} AlikeScan(x: Shape, y: Shape, events: seq<Event>)
    requires Alike(x, y)
    ensures ScanFrom(x, events).Some? <==> ScanFrom(y, events).Some?
    decreases |events|
  {
    if events != [] {
      var p := events[0].payload;
      if NextShape(x, p).Some? {
        AlikeScan(NextShape(x, p).value, NextShape(y, p).value, events[1..]);
      }
    }
  }

  /** Where a clean start is scanned from makes no difference. */
  lemma {:induction false} CleanStartScans(x: Shape, y: Shape, events: seq<Event>)
    requires StartsClean(events)
    ensures ScanFrom(x, events).Some? <==> ScanFrom(y, events).Some?
    decreases |events|
  {
    if events != [] {
      var p := events[0].payload;
      if p.MessageStarted? {
        AlikeScan(NextShape(x, p).value, NextShape(y, p).value, events[1..]);
      } else {
        CleanStartScans(x, y, events[1..]);
      }
    }
  }

  /** Each message is started once and done once, in that order. */
  ghost predicate UniqueMessages(events: seq<Event>) {
    && (forall i, j ::
          0 <= i < j < |events| && events[i].payload.MessageStarted? && events[j].payload.MessageStarted? ==>
          events[i].payload.messageId != events[j].payload.messageId)
    && (forall i, j :: 0 <= i < j < |events| && events[i].payload.MessageDone? && events[j].payload.MessageDone? ==>
          events[i].payload.messageId != events[j].payload.messageId)
    && (forall i, j :: 0 <= i < j < |events| && events[i].payload.MessageDone? && events[j].payload.MessageStarted? ==>
          events[i].payload.messageId != events[j].payload.messageId)
  }

  lemma {:induction false} MessageEventsShape(events: seq<Event>, id: Id)
    requires UniqueMessages(events)
    ensures var m := MessageEvents(events, id);
            && |m| <= 2 && (forall i :: 0 <= i < |m| ==> OfMessage(m[i].payload, id) && m[i] in events)
            && (|m| == 2 ==> m[0].payload.MessageStarted? && m[1].payload.MessageDone?)
  {
    if events != [] {
      var init, p := events[..|events| - 1], events[|events| - 1].payload;
      MessageEventsShape(init, id);
      var m := MessageEvents(init, id);
      if OfMessage(p, id) {
        forall i | 0 <= i < |m|
          ensures m[i].payload.MessageStarted? && p.MessageDone?
        {
          var k :| 0 <= k < |init| && init[k] == m[i];
          assert events[k] == m[i];
        }
      }
    }
  }

  lemma {:induction false} MessageEventsHas(events: seq<Event>, id: Id, i: nat)
    requires i < |events| && OfMessage(events[i].payload, id)
    ensures events[i] in MessageEvents(events, id)
  {
    if i < |events| - 1 {
      MessageEventsHas(events[..|events| - 1], id, i);
    }
  }

  /** The user message kept in front of a cut scans by itself. */
  lemma KeptRequestScans(older: seq<Event>)
    requires UniqueMessages(older) && LastUser(older) != Empty
    ensures Scan(MessageEvents(older, LastUser(older))).Some?
  {
    var id := LastUser(older);
    var m := MessageEvents(older, id);
    MessageEventsShape(older, id);
    LastUserLast(older);
    var i: nat :| LastUserAt(older, i);
    MessageEventsHas(older, id, i);
    var k :| 0 <= k < |m| && m[k] == older[i];
    assert m[0].payload.MessageStarted?;
    assert m[..1][..0] == [];
    assert Scan(m[..1]).Some? by { assert m[..1][0] == m[0]; }
    if |m| == 2 {
      assert Scan(m[..1]) == Some(Opened(id, m[0].payload.role, [], 0)) by { assert m[..1][0] == m[0]; }
    } else {
      assert m == m[..1];
    }
  }

  lemma SuffixScans(older: seq<Event>, kept: seq<Event>, front: seq<Event>)
    requires Scan(older + kept).Some? && StartsClean(kept) && Scan(front).Some?
    ensures Scan(front + kept).Some?
  {
    ScanConcat(older, kept);
    CleanStartScans(Scan(older).value, Scan(front).value, kept);
    ScanConcat(front, kept);
  }

  /** If a conversation scans and the cut falls before a message, what the
      model sees after it scans too. */
  lemma ContextScans(events: seq<Event>, c: Option<Compaction>)
    requires Scan(events).Some? && UniqueMessages(events)
    requires c.Some? ==> StartsClean(After(events, c.value.coveredSeq))
    ensures Scan(ContextEvents(events, c)).Some?
  {
    hide Scan, StartsClean, UniqueMessages, MessageEvents, LastUser, FirstRole, Covering;
    if c.Some? {
      var older, kept := UpTo(events, c.value.coveredSeq), After(events, c.value.coveredSeq);
      assert events == older + kept;
      if ContextEvents(events, c) == kept {
        NothingScans();
        SuffixScans(older, kept, []);
        assert [] + kept == kept;
      } else {
        UniqueFront(older, kept);
        KeptRequestScans(older);
        SuffixScans(older, kept, MessageEvents(older, LastUser(older)));
      }
    }
  }

  lemma NothingScans()
    ensures Scan([]).Some?
  {
  }

  lemma UniqueFront(a: seq<Event>, b: seq<Event>)
    requires UniqueMessages(a + b)
    ensures UniqueMessages(a)
  {
    forall i | 0 <= i < |a| ensures a[i] == (a + b)[i] {}
  }

  // ---- What comes back of what a summary covers ----

  /** Message start i is the first past number no. */
  ghost predicate FirstMessage(events: seq<Event>, no: int, i: nat) {
    && i < |events| && events[i].no > no && events[i].payload.MessageStarted?
    && forall j :: 0 <= j < i && events[j].no > no ==> !events[j].payload.MessageStarted?
  }

  predicate FirstFromUser(events: seq<Event>, i: nat) {
    i < |events| && UserStart(events[i].payload)
  }

  /** User message start k is the last up to number no. */
  ghost predicate LastRequest(events: seq<Event>, no: int, k: nat) {
    && k < |events| && events[k].no <= no && UserStart(events[k].payload)
    && forall j :: k < j < |events| && events[j].no <= no ==> !UserStart(events[j].payload)
  }

  lemma {:induction false} MessageEventsOf(events: seq<Event>, id: Id)
    ensures forall ev :: ev in MessageEvents(events, id) ==> ev in events && OfMessage(ev.payload, id)
  {
    if events != [] {
      MessageEventsOf(events[..|events| - 1], id);
      assert events == events[..|events| - 1] + [events[|events| - 1]];
    }
  }

  lemma {:induction false} FirstRoleAt(events: seq<Event>, i: nat)
    requires i < |events| && events[i].payload.MessageStarted?
    requires forall j :: 0 <= j < i ==> !events[j].payload.MessageStarted?
    ensures FirstRole(events) == Some(events[i].payload.role)
  {
    if i > 0 {
      FirstRoleAt(events[1..], i - 1);
    }
  }

  lemma {:induction false} FirstRoleNone(events: seq<Event>)
    requires forall j :: 0 <= j < |events| ==> !events[j].payload.MessageStarted?
    ensures FirstRole(events) == None
  {
    if events != [] {
      FirstRoleNone(events[1..]);
    }
  }

  /** The events past a number are those of larger numbers. */
  lemma AfterIs(events: seq<Event>, no: int)
    requires Increasing(events)
    ensures var n := Covering(events, no);
            && (forall j :: 0 <= j < |events| ==> (events[j].no > no <==> j >= n))
            && After(events, no) == events[n..] && UpTo(events, no) == events[..n]
  {
  }

  /** The role of the first message past the cut. */
  lemma FirstRolePast(events: seq<Event>, no: int, i: nat)
    requires Increasing(events) && FirstMessage(events, no, i)
    ensures FirstRole(After(events, no)) == Some(events[i].payload.role)
  {
    AfterIs(events, no);
    var n := Covering(events, no);
    hide FirstRole, Covering;
    forall j | 0 <= j < i - n ensures !events[n..][j].payload.MessageStarted? {
      assert events[n..][j] == events[n + j];
    }
    FirstRoleAt(events[n..], i - n);
  }

  lemma NoMessagePast(events: seq<Event>, no: int)
    requires Increasing(events) && forall i: nat :: !FirstMessage(events, no, i)
    ensures FirstRole(After(events, no)) == None
  {
    AfterIs(events, no);
    var n := Covering(events, no);
    NoFirst(events, no, |events|);
    hide FirstRole, Covering;
    FirstRoleNone(events[n..]);
  }

  lemma {:induction false} NoFirst(events: seq<Event>, no: int, k: nat)
    requires k <= |events| && forall i: nat :: !FirstMessage(events, no, i)
    ensures forall j :: 0 <= j < k && events[j].no > no ==> !events[j].payload.MessageStarted?
  {
    if k > 0 {
      NoFirst(events, no, k - 1);
      assert !FirstMessage(events, no, k - 1);
    }
  }

  /** If the first message past the cut is a user's, or none starts there, the
      model sees exactly what is past the cut. */
  lemma NothingOldShown(events: seq<Event>, c: Compaction)
    requires Increasing(events)
    requires forall i: nat :: FirstMessage(events, c.coveredSeq, i) ==> FirstFromUser(events, i)
    ensures ContextEvents(events, Some(c)) == After(events, c.coveredSeq)
  {
    if i: nat :| FirstMessage(events, c.coveredSeq, i) {
      FirstRolePast(events, c.coveredSeq, i);
    } else {
      NoMessagePast(events, c.coveredSeq);
    }
  }

  /** Of what a summary covers, an event is shown again only if the first message
      past the cut is a reply, and only of the request it answers. */
  lemma {:induction false} OldShownOnlyInside(events: seq<Event>, c: Compaction, ev: Event)
    requires Increasing(events) && ev in ContextEvents(events, Some(c)) && ev.no <= c.coveredSeq
    ensures exists i: nat :: FirstMessage(events, c.coveredSeq, i) && events[i].payload.role != User
    ensures exists k: nat :: LastRequest(events, c.coveredSeq, k) && OfMessage(ev.payload, events[k].payload.messageId)
  {
    hide Covering, ContextEvents, LastUser, MessageEvents, UpTo, After, FirstMessage, LastRequest;
    OldNotKept(events, c, ev);
    if forall i: nat :: FirstMessage(events, c.coveredSeq, i) ==> FirstFromUser(events, i) {
      NothingOldShown(events, c);
      assert false;
    }
    var older := UpTo(events, c.coveredSeq);
    MessageEventsOf(older, LastUser(older));
    LastUserLast(older);
    var k: nat :| LastUserAt(older, k);
    LastUserIsRequest(events, c.coveredSeq, k);
    var i: nat :| FirstMessage(events, c.coveredSeq, i) && !FirstFromUser(events, i);
    FirstIsMessage(events, c.coveredSeq, i);
  }

  lemma FirstIsMessage(events: seq<Event>, no: int, i: nat)
    requires FirstMessage(events, no, i)
    ensures i < |events| && events[i].payload.MessageStarted?
  {
  }

  lemma OldNotKept(events: seq<Event>, c: Compaction, ev: Event)
    requires Increasing(events) && ev in ContextEvents(events, Some(c)) && ev.no <= c.coveredSeq
    ensures var older := UpTo(events, c.coveredSeq);
            && LastUser(older) != Empty && ev in MessageEvents(older, LastUser(older))
            && ev !in After(events, c.coveredSeq)
  {
    AfterIs(events, c.coveredSeq);
  }

  /** User message start k is the last of events. */
  ghost predicate LastUserAt(events: seq<Event>, k: nat) {
    && k < |events| && UserStart(events[k].payload) && events[k].payload.messageId == LastUser(events)
    && forall j :: k < j < |events| ==> !UserStart(events[j].payload)
  }

  lemma LastUserIsRequest(events: seq<Event>, no: int, k: nat)
    requires Increasing(events) && LastUserAt(UpTo(events, no), k)
    ensures LastRequest(events, no, k) && events[k].payload.messageId == LastUser(UpTo(events, no))
  {
    AfterIs(events, no);
  }

  lemma {:induction false} LastUserLast(events: seq<Event>)
    requires LastUser(events) != Empty
    ensures exists k: nat :: LastUserAt(events, k)
  {
    var n := |events| - 1;
    if UserStart(events[n].payload) {
      assert LastUserAt(events, n);
    } else {
      var init := events[..n];
      LastUserLast(init);
      var k: nat :| LastUserAt(init, k);
      forall j | k < j < |events| ensures !UserStart(events[j].payload) {
        assert j < n ==> events[j] == init[j];
      }
      assert LastUserAt(events, k);
    }
  }

  // ---- Distinct call ids ----

  /** No two calls have the same id. */
  ghost predicate DistinctCalls(events: seq<Event>) {
    forall i, j :: 0 <= i < j < |events| && events[i].payload.ToolCallStarted? && events[j].payload.ToolCallStarted? ==>
      events[i].payload.callId != events[j].payload.callId
  }

  ghost predicate Started(events: seq<Event>, id: Id) {
    exists i :: 0 <= i < |events| && events[i].payload.ToolCallStarted? && events[i].payload.callId == id
  }

  lemma StartedSnoc(events: seq<Event>, id: Id)
    requires events != []
    ensures var p := events[|events| - 1].payload;
            Started(events, id) <==> Started(events[..|events| - 1], id) || (p.ToolCallStarted? && p.callId == id)
  {
    var init := events[..|events| - 1];
    if Started(init, id) {
      var i :| 0 <= i < |init| && init[i].payload.ToolCallStarted? && init[i].payload.callId == id;
      assert events[i] == init[i];
    }
    if Started(events, id) {
      var i :| 0 <= i < |events| && events[i].payload.ToolCallStarted? && events[i].payload.callId == id;
      assert i < |init| ==> init[i] == events[i];
    }
  }

  lemma {:induction false} DistinctCallsAnswerOnce(events: seq<Event>)
    requires DistinctCalls(events) && Scan(events).Some?
    ensures var sh := Scan(events).value; var open := OpenCalls(sh);
            && OpenAnswered(sh) <= |open|
            && (forall k :: 0 <= k < |open| ==> Started(events, open[k]))
            && (forall k, l :: 0 <= k < l < |open| ==> open[k] != open[l])
            && (forall k :: OpenAnswered(sh) <= k < |open| ==> open[k] !in Answered(events))
    ensures forall id :: id in Answered(events) ==> Started(events, id)
  {
    if events != [] {
      var init, p := events[..|events| - 1], events[|events| - 1].payload;
      DistinctCallsAnswerOnce(init);
      forall id ensures Started(init, id) ==> Started(events, id) {
        StartedSnoc(events, id);
      }
      if p.ToolCallStarted? {
        StartedSnoc(events, p.callId);
        assert !Started(init, p.callId);
      }
    }
  }

  /** Distinct ids are enough for nothing to be stale. */
  lemma DistinctCallsNeverStale(events: seq<Event>)
    requires DistinctCalls(events)
    ensures NoStaleCalls(events)
  {
    forall i | 0 <= i <= |events|
      ensures Fresh(events[..i])
    {
      if Scan(events[..i]).Some? {
        DistinctCallsAnswerOnce(events[..i]);
        UnansweredIs(Scan(events[..i]).value);
      }
    }
    assert events[..|events|] == events;
  }

  /** A provider that numbers its calls afresh in every reply: call_0 is
      answered in the first reply and left open by the second. */
  const REUSED: seq<Event> := [
    Event(1, ROOT, MessageStarted(Minted(0), User)),
    Event(3, ROOT, MessageDone(Minted(0), "fix it")),
    Event(5, ROOT, MessageStarted(Minted(1), Assistant)),
    Event(6, ROOT, MessageDone(Minted(1), "")),
    Event(7, ROOT, ToolCallStarted(Minted(1), Text("call_0"), "shell", "{}")),
    Event(8, ROOT, ToolCallDone(Text("call_0"), "ok")),
    Event(9, ROOT, MessageStarted(Minted(2), Assistant)),
    Event(10, ROOT, MessageDone(Minted(2), "")),
    Event(11, ROOT, ToolCallStarted(Minted(2), Text("call_0"), "shell", "{}"))]

  /** With reused ids an interrupted call can be left without a result. A
      session that shows the model this is Reuse.ReusedIdsReached. */
  lemma ReusedIdsBreakTheChat()
    ensures Scan(REUSED).Some? && !WellFormedChat(Messages(REUSED))
  {
    hide Scan, Answered, WellFormedChat, Messages;
    ReusedScan();
    ReusedAnswered();
    var c := Text("call_0");
    assert c in Unanswered(Scan(REUSED).value) by { assert [c][0..] == [c]; }
    assert !Fresh(REUSED);
    RebuiltChatWellFormed(REUSED);
  }

  lemma ReusedStep(k: nat, from: Shape, to: Shape)
    requires k < |REUSED| && Scan(REUSED[..k]) == Some(from) && NextShape(from, REUSED[k].payload) == Some(to)
    ensures Scan(REUSED[..k + 1]) == Some(to)
  {
    assert REUSED[..k + 1][..k] == REUSED[..k];
  }

  lemma FirstReplyScan()
    ensures Scan(REUSED[..5]) == Some(Replying(Minted(1), [Text("call_0")], 0))
  {
    var c := Text("call_0");
    assert REUSED[..0] == [] && [] + [c] == [c];
    assert Scan(REUSED[..0]) == Some(Between);
    hide Scan;
    ReusedStep(0, Between, Opened(Minted(0), User, [], 0));
    ReusedStep(1, Opened(Minted(0), User, [], 0), Between);
    ReusedStep(2, Between, Opened(Minted(1), Assistant, [], 0));
    ReusedStep(3, Opened(Minted(1), Assistant, [], 0), Replying(Minted(1), [], 0));
    ReusedStep(4, Replying(Minted(1), [], 0), Replying(Minted(1), [c], 0));
  }

  lemma ReusedScan()
    ensures Scan(REUSED) == Some(Replying(Minted(2), [Text("call_0")], 0))
  {
    hide Scan;
    FirstReplyScan();
    var c := Text("call_0");
    assert REUSED[..9] == REUSED && [] + [c] == [c];
    ReusedStep(5, Replying(Minted(1), [c], 0), Replying(Minted(1), [c], 1));
    ReusedStep(6, Replying(Minted(1), [c], 1), Opened(Minted(2), Assistant, [c], 1));
    ReusedStep(7, Opened(Minted(2), Assistant, [c], 1), Replying(Minted(2), [], 0));
    ReusedStep(8, Replying(Minted(2), [], 0), Replying(Minted(2), [c], 0));
  }

  lemma ReusedAnswered()
    ensures Text("call_0") in Answered(REUSED)
  {
    forall k | 0 <= k < 9 ensures REUSED[..k + 1][..k] == REUSED[..k] {}
    assert REUSED[..9] == REUSED;
    var c := Text("call_0");
    assert c in Answered(REUSED[..6]) && c in Answered(REUSED[..7]) && c in Answered(REUSED[..8]);
  }
}
