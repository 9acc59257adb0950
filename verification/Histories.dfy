/** What every branch's history keeps true, whichever way it grows: by an
    event at its end, or by a fork that takes a prefix of it. */
module Histories {
  import opened Events
  import opened Chat
  import opened Context

  /** The message of an end is the message of a start on the same branch. */
  ghost predicate Paired(h: seq<Event>) {
    forall i, j | 0 <= i < |h| && 0 <= j < |h| && h[i].payload.MessageStarted? && h[j].payload.MessageDone? ::
      h[i].payload.messageId == h[j].payload.messageId ==> h[i].branch == h[j].branch
  }

  /** Every compaction in effect covers only what came before it and ends
      where a message starts. */
  ghost predicate CleanCuts(h: seq<Event>) {
    forall i :: 0 <= i < |h| && Effective(h[i].payload) ==>
      0 <= h[i].payload.coveredSeq < h[i].no && StartsClean(After(h, h[i].payload.coveredSeq))
  }

  /** Every compaction covers more than the one before it. */
  ghost predicate Advancing(h: seq<Event>) {
    forall i, j :: 0 <= i < j < |h| && Effective(h[i].payload) && Effective(h[j].payload) ==>
      h[i].payload.coveredSeq < h[j].payload.coveredSeq
  }

  ghost predicate Good(h: seq<Event>) {
    && Increasing(h) && Scan(h).Some? && UniqueMessages(h) && Paired(h) && CleanCuts(h) && Advancing(h)
  }

  /** Some message starts after every compaction in effect. */
  ghost predicate StartedSince(h: seq<Event>) {
    forall i :: 0 <= i < |h| && Effective(h[i].payload) ==> FirstRole(After(h, h[i].payload.coveredSeq)).Some?
  }

  // ---- Prefixes ----

  lemma {:induction false} PrefixScans(h: seq<Event>, n: nat)
    requires n <= |h| && Scan(h).Some?
    ensures Scan(h[..n]).Some?
    decreases |h|
  {
    if n < |h| {
      var init := h[..|h| - 1];
      PrefixScans(init, n);
      assert init[..n] == h[..n];
    } else {
      assert h[..n] == h;
    }
  }

  lemma {:induction false} CoveringPrefix(h: seq<Event>, n: nat, no: int)
    requires n <= |h|
    ensures Covering(h[..n], no) == if Covering(h, no) <= n then Covering(h, no) else n
  {
    CoveringIs(h[..n], no, if Covering(h, no) <= n then Covering(h, no) else n);
  }

  lemma {:induction false} StartsCleanPrefix(h: seq<Event>, n: nat)
    requires n <= |h| && StartsClean(h)
    ensures StartsClean(h[..n])
  {
    if n > 0 && !h[0].payload.MessageStarted? {
      StartsCleanPrefix(h[1..], n - 1);
      assert h[..n][1..] == h[1..][..n - 1];
    }
  }

  lemma CutPrefix(h: seq<Event>, n: nat, no: int)
    requires n <= |h| && StartsClean(After(h, no))
    ensures StartsClean(After(h[..n], no))
  {
    CoveringPrefix(h, n, no);
    var l := Covering(h, no);
    if l <= n {
      StartsCleanPrefix(h[l..], n - l);
      assert h[..n][l..] == h[l..][..n - l];
    }
  }

  /** A fork takes a prefix of a history, and that is a history too. */
  lemma PrefixGood(h: seq<Event>, n: nat)
    requires Good(h) && n <= |h|
    ensures Good(h[..n])
  {
    hide Scan, StartsClean, After;
    PrefixScans(h, n);
    PrefixCuts(h, n);
    PrefixMessages(h, n);
    forall i | 0 <= i < n ensures h[..n][i] == h[i] {}
  }

  lemma PrefixCuts(h: seq<Event>, n: nat)
    requires CleanCuts(h) && n <= |h|
    ensures CleanCuts(h[..n])
  {
    var p := h[..n];
    forall i | 0 <= i < n && Effective(p[i].payload)
      ensures 0 <= p[i].payload.coveredSeq < p[i].no && StartsClean(After(p, p[i].payload.coveredSeq))
    {
      assert p[i] == h[i];
      CutPrefix(h, n, p[i].payload.coveredSeq);
    }
  }

  lemma PrefixMessages(h: seq<Event>, n: nat)
    requires UniqueMessages(h) && Paired(h) && n <= |h|
    ensures UniqueMessages(h[..n]) && Paired(h[..n])
  {
    forall i | 0 <= i < n ensures h[..n][i] == h[i] {}
  }

  // ---- One more event ----

  lemma CoveringSnoc(h: seq<Event>, ev: Event, no: int)
    ensures Covering(h + [ev], no) == if Covering(h, no) == |h| && ev.no <= no then |h| + 1 else Covering(h, no)
  {
    CoveringIs(h + [ev], no, if Covering(h, no) == |h| && ev.no <= no then |h| + 1 else Covering(h, no));
  }

  lemma AfterSnoc(h: seq<Event>, ev: Event, no: int)
    requires no < ev.no
    ensures After(h + [ev], no) == After(h, no) + [ev]
  {
    CoveringSnoc(h, ev, no);
  }

  lemma {:induction false} FirstRoleSnoc(h: seq<Event>, ev: Event)
    ensures FirstRole(h + [ev]) ==
      if FirstRole(h).Some? then FirstRole(h)
      else if ev.payload.MessageStarted? then Some(ev.payload.role) else None
  {
    if h == [] {
      assert ([] + [ev])[1..] == [];
    } else {
      assert (h + [ev])[1..] == h[1..] + [ev];
      FirstRoleSnoc(h[1..], ev);
    }
  }

  lemma {:induction false} StartsCleanSnoc(h: seq<Event>, ev: Event)
    requires StartsClean(h)
    ensures StartsClean(h + [ev]) <==> FirstRole(h).Some? || ev.payload.MessageStarted? || Neutral(ev.payload)
  {
    if h == [] {
      assert ([] + [ev])[1..] == [];
    } else {
      assert (h + [ev])[1..] == h[1..] + [ev];
      if !h[0].payload.MessageStarted? {
        StartsCleanSnoc(h[1..], ev);
      }
    }
  }

  /** A cut stays clean as long as the next event may follow it. */
  lemma CutSnoc(h: seq<Event>, ev: Event, no: int)
    requires no < ev.no && StartsClean(After(h, no))
    requires FirstRole(After(h, no)).Some? || ev.payload.MessageStarted? || Neutral(ev.payload)
    ensures StartsClean(After(h + [ev], no))
    ensures FirstRole(After(h, no)).Some? || ev.payload.MessageStarted? ==> FirstRole(After(h + [ev], no)).Some?
  {
    AfterSnoc(h, ev, no);
    StartsCleanSnoc(After(h, no), ev);
    FirstRoleSnoc(After(h, no), ev);
  }

  ghost predicate Last(h: seq<Event>, ev: Event) {
    forall i :: 0 <= i < |h| ==> h[i].no < ev.no
  }

  lemma IncreasingSnoc(h: seq<Event>, ev: Event)
    requires Increasing(h) && Last(h, ev)
    ensures Increasing(h + [ev])
  {
  }

  lemma ScanSnoc(h: seq<Event>, ev: Event)
    ensures Scan(h + [ev]) == if Scan(h).None? then None else NextShape(Scan(h).value, ev.payload)
  {
    ScanOne(h, ev);
  }

  lemma CleanCutsSnoc(h: seq<Event>, ev: Event)
    requires CleanCuts(h) && Last(h, ev)
    requires StartedSince(h) || ev.payload.MessageStarted? || Neutral(ev.payload)
    requires Effective(ev.payload) ==>
               0 <= ev.payload.coveredSeq < ev.no && StartsClean(After(h, ev.payload.coveredSeq))
    ensures CleanCuts(h + [ev])
    ensures !Effective(ev.payload) && (StartedSince(h) || ev.payload.MessageStarted?) ==> StartedSince(h + [ev])
  {
    var h' := h + [ev];
    forall i | 0 <= i < |h'| && Effective(h'[i].payload)
      ensures 0 <= h'[i].payload.coveredSeq < h'[i].no && StartsClean(After(h', h'[i].payload.coveredSeq))
      ensures !Effective(ev.payload) && (StartedSince(h) || ev.payload.MessageStarted?) ==>
                FirstRole(After(h', h'[i].payload.coveredSeq)).Some?
    {
      CutSnoc(h, ev, h'[i].payload.coveredSeq);
    }
  }

  lemma NeutralUnique(h: seq<Event>, ev: Event)
    requires UniqueMessages(h) && Paired(h) && !ev.payload.MessageStarted? && !ev.payload.MessageDone?
    ensures UniqueMessages(h + [ev]) && Paired(h + [ev])
  {
  }

  lemma AdvancingSnoc(h: seq<Event>, ev: Event)
    requires Advancing(h)
    requires Effective(ev.payload) ==>
      forall i :: 0 <= i < |h| && Effective(h[i].payload) ==> h[i].payload.coveredSeq < ev.payload.coveredSeq
    ensures Advancing(h + [ev])
  {
  }

  /** An event the scan ignores, or a call or result it accepts. */
  lemma OtherGood(h: seq<Event>, ev: Event)
    requires Good(h) && Last(h, ev) && !ev.payload.MessageStarted? && !ev.payload.MessageDone? && !Effective(ev.payload)
    requires NextShape(Scan(h).value, ev.payload).Some?
    requires Neutral(ev.payload) || StartedSince(h)
    ensures Good(h + [ev])
    ensures StartedSince(h) ==> StartedSince(h + [ev])
  {
    IncreasingSnoc(h, ev);
    ScanSnoc(h, ev);
    NeutralUnique(h, ev);
    CleanCutsSnoc(h, ev);
    AdvancingSnoc(h, ev);
  }

  /** A compaction that goes further than those before it. */
  lemma CompactionGood(h: seq<Event>, ev: Event)
    requires Good(h) && Last(h, ev) && Effective(ev.payload)
    requires 0 <= ev.payload.coveredSeq < ev.no && StartsClean(After(h, ev.payload.coveredSeq))
    requires forall i :: 0 <= i < |h| && Effective(h[i].payload) ==> h[i].payload.coveredSeq < ev.payload.coveredSeq
    ensures Good(h + [ev])
  {
    IncreasingSnoc(h, ev);
    ScanSnoc(h, ev);
    NeutralUnique(h, ev);
    CleanCutsSnoc(h, ev);
    AdvancingSnoc(h, ev);
  }

  ghost predicate NewMessage(h: seq<Event>, id: Id) {
    forall i :: 0 <= i < |h| ==> !OfMessage(h[i].payload, id)
  }

  /** A message with a new id. */
  lemma StartGood(h: seq<Event>, ev: Event)
    requires Good(h) && Last(h, ev) && ev.payload.MessageStarted? && NewMessage(h, ev.payload.messageId)
    ensures Good(h + [ev]) && StartedSince(h + [ev])
  {
    hide Scan, Increasing, UniqueMessages, Paired, CleanCuts, Advancing, StartedSince, NewMessage, Last;
    IncreasingSnoc(h, ev);
    ScanSnoc(h, ev);
    CleanCutsSnoc(h, ev);
    AdvancingSnoc(h, ev);
    StartUnique(h, ev);
  }

  lemma StartUnique(h: seq<Event>, ev: Event)
    requires UniqueMessages(h) && Paired(h) && ev.payload.MessageStarted? && NewMessage(h, ev.payload.messageId)
    ensures UniqueMessages(h + [ev]) && Paired(h + [ev])
  {
    forall i | 0 <= i < |h| ensures (h + [ev])[i] == h[i] && !OfMessage(h[i].payload, ev.payload.messageId) {}
  }

  /** What is open in a scan was started last. */
  lemma {:induction false} OpenedBy(h: seq<Event>)
    requires Scan(h).Some? && Scan(h).value.Opened?
    ensures exists i :: 0 <= i < |h| && h[i].payload.MessageStarted? && h[i].payload.messageId == Scan(h).value.id &&
                        forall j :: i < j < |h| ==> !h[j].payload.MessageDone?
  {
    var init, ev := h[..|h| - 1], h[|h| - 1];
    if !ev.payload.MessageStarted? {
      OpenedBy(init);
      var i :| 0 <= i < |init| && init[i].payload.MessageStarted? && init[i].payload.messageId == Scan(init).value.id &&
               forall j :: i < j < |init| ==> !init[j].payload.MessageDone?;
      assert h[i] == init[i];
      forall j | i < j < |h| ensures !h[j].payload.MessageDone? {
        if j < |init| {
          assert h[j] == init[j];
        }
      }
    }
  }

  /** The end of the message that is open, on the branch it was started on. */
  lemma DoneGood(h: seq<Event>, ev: Event)
    requires Good(h) && Last(h, ev) && ev.payload.MessageDone? && StartedSince(h)
    requires Scan(h).value.Opened? && Scan(h).value.id == ev.payload.messageId
    requires forall i ::
               0 <= i < |h| && h[i].payload.MessageStarted? && h[i].payload.messageId == ev.payload.messageId ==>
               h[i].branch == ev.branch
    ensures Good(h + [ev]) && StartedSince(h + [ev])
  {
    hide Scan, Increasing, UniqueMessages, Paired, CleanCuts, Advancing, StartedSince, Last;
    IncreasingSnoc(h, ev);
    ScanSnoc(h, ev);
    CleanCutsSnoc(h, ev);
    AdvancingSnoc(h, ev);
    NotDoneYet(h, ev.payload.messageId);
    DoneUnique(h, ev);
  }

  /** What is open has no end yet. */
  lemma NotDoneYet(h: seq<Event>, id: Id)
    requires Scan(h).Some? && Scan(h).value.Opened? && Scan(h).value.id == id && UniqueMessages(h)
    ensures forall j :: 0 <= j < |h| && h[j].payload.MessageDone? ==> h[j].payload.messageId != id
  {
    OpenedBy(h);
  }

  lemma DoneUnique(h: seq<Event>, ev: Event)
    requires UniqueMessages(h) && Paired(h) && ev.payload.MessageDone?
    requires forall j :: 0 <= j < |h| && h[j].payload.MessageDone? ==> h[j].payload.messageId != ev.payload.messageId
    requires forall i ::
               0 <= i < |h| && h[i].payload.MessageStarted? && h[i].payload.messageId == ev.payload.messageId ==>
               h[i].branch == ev.branch
    ensures UniqueMessages(h + [ev]) && Paired(h + [ev])
  {
    forall j | 0 <= j < |h| ensures (h + [ev])[j] == h[j] {}
  }

  // ---- What a good history gives the model ----

  lemma {:induction false} LastCompactionFound(h: seq<Event>)
    requires LastCompaction(h).Some?
    ensures exists i :: 0 <= i < |h| && Effective(h[i].payload) && h[i].payload == LastCompaction(h).value &&
                        forall j :: i < j < |h| ==> !Effective(h[j].payload)
  {
    var init, ev := h[..|h| - 1], h[|h| - 1];
    if !Effective(ev.payload) {
      LastCompactionFound(init);
      var i :| 0 <= i < |init| && Effective(init[i].payload) && init[i].payload == LastCompaction(h).value &&
               forall j :: i < j < |init| ==> !Effective(init[j].payload);
      assert h[i] == init[i];
      forall j | i < j < |h| ensures !Effective(h[j].payload) {
        if j < |init| {
          assert h[j] == init[j];
        }
      }
    }
  }

  lemma {:induction false} NoLastCompaction(h: seq<Event>)
    requires LastCompaction(h).None?
    ensures forall i :: 0 <= i < |h| ==> !Effective(h[i].payload)
  {
    if h != [] {
      NoLastCompaction(h[..|h| - 1]);
      forall i | 0 <= i < |h| ensures !Effective(h[i].payload) {
        if i < |h| - 1 {
          assert h[i] == h[..|h| - 1][i];
        }
      }
    }
  }

  lemma NewestCoversMost(h: seq<Event>)
    requires Good(h)
    ensures 0 <= CoveredBy(h)
    ensures forall i :: 0 <= i < |h| && Effective(h[i].payload) ==> h[i].payload.coveredSeq <= CoveredBy(h)
  {
    if LastCompaction(h).Some? {
      LastCompactionFound(h);
    } else {
      NoLastCompaction(h);
    }
  }

  /** The chat a good history gives the model is well formed exactly when no
      call of it is stale. */
  lemma GoodChat(h: seq<Event>)
    requires Good(h)
    ensures var shown := ContextEvents(h, LastCompaction(h));
            Scan(shown).Some? && (WellFormedChat(Messages(shown)) <==> NoStaleCalls(shown))
  {
    if LastCompaction(h).Some? {
      LastCompactionFound(h);
    }
    ContextScans(h, LastCompaction(h));
    RebuiltChatWellFormed(ContextEvents(h, LastCompaction(h)));
  }

  /** So is the chat its first n events give, under the same compaction. */
  lemma PrefixChat(h: seq<Event>, n: nat)
    requires Good(h) && n <= |h|
    ensures var shown := ContextEvents(h[..n], LastCompaction(h));
            Scan(shown).Some? && (WellFormedChat(Messages(shown)) <==> NoStaleCalls(shown))
  {
    hide Scan, WellFormedChat, Messages, NoStaleCalls, StartsClean, After, ContextEvents;
    PrefixGood(h, n);
    if LastCompaction(h).Some? {
      LastCompactionFound(h);
      CutPrefix(h, n, LastCompaction(h).value.coveredSeq);
    }
    ContextScans(h[..n], LastCompaction(h));
    RebuiltChatWellFormed(ContextEvents(h[..n], LastCompaction(h)));
  }
}
