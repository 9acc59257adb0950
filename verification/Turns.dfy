/** What each step of a turn keeps of the invariant. */
module Turns {
  import opened Events
  import opened Context
  import opened Compact
  import opened Model
  import opened Histories
  import opened Conversations
  import opened Invariant
  import Chat

  // ---- Replies ----

  lemma StartReplyKeepsCore(s: State)
    requires Core(s)
    ensures Core(StartReply(s)) && StartReply(s).tree == s.tree
  {
    hide Sound, H, OpenHere, Unused;
    if s.turn.Ready? {
      var id := Minted(s.minted);
      MintedUnused(s);
      SoundIgnores(s, Mint(s));
      StartSound(Mint(s), id, Assistant);
      SoundIgnores(Append(Mint(s), MessageStarted(id, Assistant)), StartReply(s));
    }
  }

  lemma OpenBelow(s: State, id: Id, role: Role)
    requires Sound(s) && OpenHere(Active(s), id, role, s.info.branch)
    ensures Below(id, s.minted)
  {
    var h := Active(s);
    HistoryLogged(s, s.info.branch);
    OpenedBy(h);
    var i :| 0 <= i < |h| && h[i].payload.MessageStarted? && h[i].payload.messageId == id;
    assert h[i] in s.log;
  }

  lemma EndReplyKeepsCore(s: State, text: string, calls: seq<Chat.Call>)
    requires Core(s)
    ensures Core(EndReply(s, text, calls)) && EndReply(s, text, calls).tree == s.tree
  {
    hide Sound, H, OpenHere, StartedSince;
    if s.turn.Streaming? {
      var id := s.turn.id;
      OpenBelow(s, id, Assistant);
      DoneSound(s, id, Assistant, text);
      SoundIgnores(Append(s, MessageDone(id, text)), EndReply(s, text, calls));
      assert calls[..0] == [];
    }
  }

  // ---- Calls ----

  /** A call, or a result, that the scan accepts next. */
  lemma CallSound(s: State, p: Payload)
    requires Sound(s) && (p.ToolCallStarted? || p.ToolCallDone?) && StartedSince(Active(s))
    requires Chat.Scan(Active(s)).Some? && Chat.NextShape(Chat.Scan(Active(s)).value, p).Some?
    ensures var s' := Append(s, p);
            && Sound(s') && s'.tree == s.tree && StartedSince(Active(s'))
            && Chat.Scan(Active(s')) == Chat.NextShape(Chat.Scan(Active(s)).value, p)
  {
    hide Sound, H, Good, StartedSince, Last;
    ActiveIsGood(s, p);
    OtherGood(Active(s), NextEvent(s.info, p));
    ScanSnoc(Active(s), NextEvent(s.info, p));
    AppendSound(s, p);
  }

  lemma StartCallKeepsCore(s: State)
    requires Core(s)
    ensures Core(StartCall(s)) && StartCall(s).tree == s.tree
  {
    hide Sound, H, StartedSince;
    if s.turn.Calling? && s.turn.started < |s.turn.calls| {
      var k, c := s.turn.started, s.turn.calls[s.turn.started];
      var p := ToolCallStarted(s.turn.id, c.id, c.name, c.arguments);
      CallSound(s, p);
      SoundIgnores(Append(s, p), StartCall(s));
      assert s.turn.calls[..k + 1] == s.turn.calls[..k] + [c];
      Chat.CallIdsSnoc(s.turn.calls[..k], c);
    }
  }

  lemma {:induction false} CallIdsAt(calls: seq<Chat.Call>, k: nat)
    requires k < |calls|
    ensures |Chat.CallIds(calls)| == |calls| && Chat.CallIds(calls)[k] == calls[k].id
  {
    Chat.CallIdsLength(calls);
    Chat.CallIdsLength(calls[..|calls| - 1]);
    if k < |calls| - 1 {
      CallIdsAt(calls[..|calls| - 1], k);
    }
  }

  lemma EndCallKeepsCore(s: State, result: string)
    requires Core(s)
    ensures Core(EndCall(s, result)) && EndCall(s, result).tree == s.tree
  {
    hide Sound, H, StartedSince;
    if RunningCall(s.turn) {
      var p := ToolCallDone(s.turn.calls[s.turn.answered].id, result);
      assert s.turn.calls[..s.turn.started] == s.turn.calls;
      CallIdsAt(s.turn.calls, s.turn.answered);
      CallSound(s, p);
      SoundIgnores(Append(s, p), EndCall(s, result));
    }
  }

  // ---- Compactions ----

  lemma {:induction false} StartsCleanAt(h: seq<Event>)
    requires h != [] && h[0].payload.MessageStarted?
    ensures StartsClean(h)
  {
  }

  lemma CutStartsClean(h: seq<Event>, covered: int)
    requires Increasing(h) && h != []
    requires StartsAt(h, covered + 1) || covered == h[|h| - 1].no
    ensures StartsClean(After(h, covered))
    ensures StartsAt(h, covered + 1) ==> FirstRole(After(h, covered)).Some?
  {
    if StartsAt(h, covered + 1) {
      var i :| 0 <= i < |h| && h[i].no == covered + 1 && h[i].payload.MessageStarted?;
      CoveringIs(h, covered, i);
      StartsCleanAt(h[i..]);
    } else {
      CoveringIs(h, covered, |h|);
    }
  }

  /** The cut a compaction starts from, whenever it is recorded, will cover
      more than every compaction before it and end at a message. */
  lemma CutFits(h: seq<Event>, keep: int, minKeep: int, midTurn: bool, n: nat)
    requires Good(h) && keep >= 1 && minKeep >= 0 && (forall i :: 0 <= i < |h| ==> h[i].no <= n)
    requires ChosenCut(h, CoveredBy(h), keep, minKeep, midTurn).Some?
    ensures var c := ChosenCut(h, CoveredBy(h), keep, minKeep, midTurn).value;
            && 0 <= c.covered <= n && StartsClean(After(h, c.covered))
            && (minKeep >= 1 ==> FirstRole(After(h, c.covered)).Some?)
            && (forall i :: 0 <= i < |h| && Effective(h[i].payload) ==> h[i].payload.coveredSeq < c.covered)
  {
    NewestCoversMost(h);
    CutsMakeProgress(h, CoveredBy(h), keep, minKeep, midTurn);
    CutStartsClean(h, ChosenCut(h, CoveredBy(h), keep, minKeep, midTurn).value.covered);
  }

  /** What the code reads as the active branch's history is that. */
  lemma CodeReadsActive(s: State)
    requires Core(s) && |s.log| <= MAX_INT64
    ensures HistoryOf(s.log, s.tree, s.info.branch) == Active(s)
  {
    HistoryRead(s.log, s.tree, s.info.branch);
  }

  lemma ActiveWithin(s: State)
    requires Sound(s)
    ensures forall i :: 0 <= i < |Active(s)| ==> 1 <= Active(s)[i].no <= |s.log|
  {
    HistoryLogged(s, s.info.branch);
    forall i | 0 <= i < |Active(s)| ensures 1 <= Active(s)[i].no <= |s.log| {
      assert Active(s)[i] in s.log;
    }
  }

  /** The cut a compaction starts from. */
  ghost function CutNow(s: State, keep: int, inTurn: bool): Option<Cut>
    requires keep >= 1
  {
    ChosenCut(Active(s), CoveredBy(Active(s)), keep, if inTurn then 1 else 0, inTurn)
  }

  lemma CutNowFits(s: State, keep: int, inTurn: bool)
    requires Core(s) && keep >= 1 && CutNow(s, keep, inTurn).Some?
    ensures var c := CutNow(s, keep, inTurn).value;
            Fits(Summarizing(c.covered, c.kept, inTurn), Active(s), s.info.branch, |s.log|)
  {
    GoodAt(s, s.info.branch);
    ActiveWithin(s);
    CutFits(Active(s), keep, if inTurn then 1 else 0, inTurn, |s.log|);
  }

  lemma BeginCompactionKeepsCore(s: State, keep: int)
    requires Core(s) && keep >= 1 && |s.log| <= MAX_INT64
    ensures Core(BeginCompaction(s, keep)) && BeginCompaction(s, keep).tree == s.tree
  {
    CodeReadsActive(s);
    hide Core, ChosenCut, HistoryOf, Append;
    if s.turn == Ready(true) || s.turn == CompactionRun {
      var inTurn := s.turn != CompactionRun;
      assert BeginCompaction(s, keep) == BegunAt(s, inTurn, CutNow(s, keep, inTurn));
      if CutNow(s, keep, inTurn).Some? {
        CutNowFits(s, keep, inTurn);
        SummaryBegins(s, inTurn, CutNow(s, keep, inTurn).value);
      } else {
        NothingBegins(s, inTurn);
      }
    }
  }

  ghost function BegunAt(s: State, inTurn: bool, c: Option<Cut>): State {
    var next, ask := if inTurn then Ready(false) else Over, s.compactAsk && !inTurn;
    if c.Some? then
      Append(s, Note("compaction_started")).(turn := Summarizing(c.value.covered, c.value.kept, inTurn),
                                             compactAsk := ask)
    else if inTurn && !s.compactAsk then s.(turn := next)
    else Append(s, CompactionDone("nothing to compact yet", 0, 0, 0, "")).(turn := next, compactAsk := ask)
  }

  lemma SummaryBegins(s: State, inTurn: bool, c: Cut)
    requires Core(s) && Fits(Summarizing(c.covered, c.kept, inTurn), Active(s), s.info.branch, |s.log|)
    ensures Core(BegunAt(s, inTurn, Some(c))) && BegunAt(s, inTurn, Some(c)).tree == s.tree
  {
    hide Sound, H, Core;
    var s1 := s.(turn := Summarizing(c.covered, c.kept, inTurn));
    SummarizingCore(s, s1);
    IgnoredKeepsCore(s1, Note("compaction_started"));
    CoreIgnores(Append(s1, Note("compaction_started")), BegunAt(s, inTurn, Some(c)));
  }

  lemma NothingBegins(s: State, inTurn: bool)
    requires Core(s)
    ensures Core(BegunAt(s, inTurn, None)) && BegunAt(s, inTurn, None).tree == s.tree
  {
    hide Sound, H, Core;
    var p := CompactionDone("nothing to compact yet", 0, 0, 0, "");
    if inTurn && !s.compactAsk {
      CoreIgnores(s, BegunAt(s, inTurn, None));
    } else {
      IgnoredKeepsCore(s, p);
      CoreIgnores(Append(s, p), BegunAt(s, inTurn, None));
    }
  }

  lemma SummarizingCore(s: State, s': State)
    requires Core(s) && s' == s.(turn := s'.turn) && Fits(s'.turn, Active(s), s.info.branch, |s.log|)
    ensures Core(s')
  {
    SoundIgnores(s, s');
  }

  lemma SummarySound(s: State, p: Payload)
    requires Sound(s) && Effective(p)
    requires Fits(Summarizing(p.coveredSeq, p.keptTurns, false), Active(s), s.info.branch, |s.log|)
    ensures Sound(Append(s, p)) && Append(s, p).tree == s.tree
  {
    hide Sound, H, Good, Last, StartsClean, After;
    ActiveIsGood(s, p);
    CompactionGood(Active(s), NextEvent(s.info, p));
    AppendSound(s, p);
  }

  lemma EndCompactionKeepsCore(s: State, error: string, tokensAfter: int, summary: string)
    requires Core(s)
    ensures Core(EndCompaction(s, error, tokensAfter, summary))
    ensures EndCompaction(s, error, tokensAfter, summary).tree == s.tree
  {
    hide Sound, H;
    if s.turn.Summarizing? {
      var s' := EndCompaction(s, error, tokensAfter, summary);
      if error == "" {
        var p := CompactionDone("", s.turn.covered, s.turn.kept, tokensAfter, summary);
        SummarySound(s, p);
        SoundIgnores(Append(s, p), s');
      } else {
        var p := CompactionDone(error, 0, 0, 0, "");
        IgnoredSound(s, p);
        SoundIgnores(Append(s, p), s');
      }
    }
  }
}
