/** Where summaries come from: every compaction that took effect was begun by a
    turn, which waited for its summary and then recorded it. */
module Summaries {
  import opened Events
  import opened Branches
  import opened Model
  import opened Live

  // ---- Only the end of a compaction records a summary ----

  /** Nothing new in the log is a summary. */
  ghost predicate NoSummary(s: State, s': State) {
    && |s.log| <= |s'.log|
    && forall i :: |s.log| <= i < |s'.log| ==> !Effective(s'.log[i].payload)
  }

  lemma NoSummaryTwice(s: State, s1: State, s2: State)
    requires NoSummary(s, s1) && NoSummary(s1, s2) && s2.log[..|s1.log|] == s1.log
    ensures NoSummary(s, s2)
  {
    forall i | |s.log| <= i < |s1.log| ensures s2.log[i] == s1.log[i] {
      assert s2.log[..|s1.log|][i] == s1.log[i];
    }
  }

  lemma UserMessageNoSummary(s: State, id: Id, text: string)
    ensures var s' := AppendUserMessage(s, id, text);
            NoSummary(s, s') && Longer(s, s') && s'.turn == s.turn && s'.queue == s.queue
  {
    assert AppendUserMessage(s, id, text).log[..|s.log|] == s.log;
  }

  lemma DeliverOneNoSummary(s: State)
    requires s.queue != []
    ensures var s' := DeliverOne(s); NoSummary(s, s') && Longer(s, s') && s'.turn == s.turn
  {
    hide AppendUserMessage;
    var q, id := s.queue[0], Minted(s.minted);
    var s1 := Append(Mint(s), QueuedMessageDelivered(q.id, id));
    UserMessageNoSummary(s1, id, q.text);
    assert s1.log[..|s.log|] == s.log;
    NoSummaryTwice(s, s1, DeliverOne(s));
    LongerTwice(s, s1, DeliverOne(s));
  }

  lemma {:induction false} DeliverNoSummary(s: State)
    ensures var s' := Deliver(s); NoSummary(s, s') && Longer(s, s') && s'.turn == s.turn
    decreases |s.queue|
  {
    if s.queue != [] {
      DeliverOneNoSummary(s);
      DeliverNoSummary(DeliverOne(s));
      hide DeliverOne, NoSummary, Longer;
      LongerHas(DeliverOne(s), Deliver(s));
      NoSummaryTwice(s, DeliverOne(s), Deliver(s));
      LongerTwice(s, DeliverOne(s), Deliver(s));
    } else {
      assert s.log[..|s.log|] == s.log;
    }
  }

  lemma LongerHas(s: State, s': State)
    requires Longer(s, s')
    ensures |s.log| <= |s'.log| && s'.log[..|s.log|] == s.log
  {
  }

  /** A delivery, perhaps one more user message, and one more event. */
  lemma StartsNoSummary(s: State, s': State, text: string, blank: bool, p: Payload)
    requires !Effective(p)
    requires s'.log == Append(if blank then Deliver(s) else AppendUser(Deliver(s), text), p).log
    ensures NoSummary(s, s')
  {
    hide Deliver, AppendUserMessage;
    var s1 := Deliver(s);
    DeliverNoSummary(s);
    UserMessageNoSummary(Mint(s1), Minted(s1.minted), text);
    var s2 := if blank then s1 else AppendUser(s1, text);
    assert s1.log[..|s1.log|] == s1.log;
    NoSummaryTwice(s, s1, s2);
    assert s'.log[..|s2.log|] == s2.log;
    NoSummaryTwice(s, s2, s');
  }

  lemma ForkNoSummary(s: State, messageId: Id, text: string, edit: bool)
    ensures NoSummary(s, Fork(s, messageId, text, edit).0)
  {
    hide AppendUserMessage, MessageLog, Filtered, PathOf;
    if Fork(s, messageId, text, edit).1.Forked? {
      var evs := Filtered(PathOf(s.tree, s.info.branch), MessageLog(s.log));
      var s1 := ForkBranch(s, StartOf(evs, messageId).value, EndOf(evs, messageId).value, edit);
      UserMessageNoSummary(Mint(s1), Minted(s1.minted), text);
      var s2 := if edit then AppendUser(s1, text) else s1;
      assert s1.log[..|s1.log|] == s1.log;
      NoSummaryTwice(s, s1, s2);
      assert StartTurn(s2).log[..|s2.log|] == s2.log;
      NoSummaryTwice(s, s2, StartTurn(s2));
    }
  }

  lemma EndTurnNoSummary(s: State, e: End)
    ensures NoSummary(s, EndTurn(s, e))
  {
    hide Deliver, AppendUserMessage;
    var s1 := Append(s.(turn := NoTurn, compactAsk := false), TaskStateChanged(e.state, e.reason));
    DeliverNoSummary(s1);
    NoSummaryTwice(s, s1, Deliver(s1));
    var s2 := Deliver(s1);
    assert StartTurn(s2).log[..|s2.log|] == s2.log && StartCompaction(s1).log[..|s1.log|] == s1.log;
    NoSummaryTwice(s, s2, StartTurn(s2));
    NoSummaryTwice(s, s1, StartCompaction(s1));
  }

  lemma SendNoSummary(s: State, text: string, client: string)
    ensures NoSummary(s, Send(s, text, client).0)
  {
    hide Deliver, AppendUserMessage, Blank;
    if s.turn == NoTurn && (!Blank(text) || s.queue != []) {
      StartsNoSummary(s, Send(s, text, client).0, text, Blank(text), TaskStateChanged(Working, ""));
    }
  }

  lemma BeginCompactionNoSummary(s: State, keep: int)
    requires keep >= 1
    ensures NoSummary(s, BeginCompaction(s, keep))
  {
    hide HistoryOf;
  }

  /** Only the end of a compaction logs a summary. */
  lemma ApplyNoSummary(s: State, op: Op)
    requires !op.OpEndCompaction?
    ensures NoSummary(s, Apply(s, op))
  {
    hide Deliver, Send, Fork, EndTurn, BeginCompaction, HistoryOf, MayEnd, InQueue, Edited;
    match op {
      case OpSend(text, client) => SendNoSummary(s, text, client);
      case OpFork(id, text, edit) => ForkNoSummary(s, id, text, edit);
      case OpStep => DeliverNoSummary(s);
      case OpBeginCompaction(keep) => if keep >= 1 { BeginCompactionNoSummary(s, keep); }
      case OpEndTurn(e) => EndTurnNoSummary(s, e);
      case _ =>
    }
  }

  // ---- Only the start of a compaction waits for one ----

  /** A turn waits for a summary because it just did, or because a compaction
      was begun. */
  lemma SummarizingSince(s: State, op: Op)
    requires Apply(s, op).turn.Summarizing?
    ensures Apply(s, op).turn == s.turn || (op.OpBeginCompaction? && !s.turn.Summarizing?)
  {
    hide HistoryOf, MayEnd, Blank, InQueue, Edited, Append, Deliver;
    DeliverNoSummary(s);
    hide NoSummary, Longer;
    AppendKeepsTurn();
  }

  lemma AppendKeepsTurn()
    ensures forall s, p :: Append(s, p).turn == s.turn
  {
  }

  lemma RecordsTurn(s: State, op: Op, i: nat)
    requires op.OpEndCompaction? && |s.log| <= i < |Apply(s, op).log| && Effective(Apply(s, op).log[i].payload)
    ensures s.turn.Summarizing? && i == |s.log| && Apply(s, op).log[i].branch == s.info.branch
    ensures var p := Apply(s, op).log[i].payload;
            p.coveredSeq == s.turn.covered && p.keptTurns == s.turn.kept && p.summary == op.summary
  {
  }

  // ---- Every summary of a run ----

  /** Operation m - 1 began a compaction, whose summary the turn then waited for
      until operation k recorded it as event i. */
  ghost predicate Begun(info: Info, ops: seq<Op>, i: nat, m: nat, k: nat) {
    && 0 < m <= k < |ops| && ops[m - 1].OpBeginCompaction? && ops[k].OpEndCompaction?
    && Awaiting(info, ops, m, k) && |Run(info, ops[..k]).log| == i
  }

  /** Between m and k the turn waits for the summary it began at m. */
  ghost predicate Awaiting(info: Info, ops: seq<Op>, m: nat, k: nat)
    requires 0 < m <= k <= |ops|
  {
    && !Run(info, ops[..m - 1]).turn.Summarizing? && Run(info, ops[..m]).turn.Summarizing?
    && forall j :: m <= j <= k ==> Run(info, ops[..j]).turn == Run(info, ops[..m]).turn
  }

  lemma WaitingOn(info: Info, ops: seq<Op>, before: seq<Op>, m: nat)
    requires ops != [] && before == ops[..|ops| - 1] && 0 < m <= |before| && Awaiting(info, before, m, |before|)
    requires Run(info, ops).turn == Run(info, before).turn
    ensures Awaiting(info, ops, m, |ops|)
  {
    hide Run;
    assert ops[..|ops|] == ops && before[..|before|] == before;
    forall j | 0 <= j <= |before| ensures before[..j] == ops[..j] {}
    forall j | m <= j <= |ops| ensures Run(info, ops[..j]).turn == Run(info, ops[..m]).turn {
      assert Run(info, before).turn == Run(info, before[..m]).turn;
      if j < |ops| {
        assert Run(info, before[..j]).turn == Run(info, before[..m]).turn;
      }
    }
  }

  lemma WaitsNow(info: Info, ops: seq<Op>)
    requires ops != [] && Run(info, ops).turn.Summarizing? && !Run(info, ops[..|ops| - 1]).turn.Summarizing?
    ensures Awaiting(info, ops, |ops|, |ops|)
  {
    assert ops[..|ops|] == ops;
  }

  lemma {:induction false} WaitingSince(info: Info, ops: seq<Op>)
    requires Run(info, ops).turn.Summarizing?
    ensures exists m: nat :: 0 < m <= |ops| && ops[m - 1].OpBeginCompaction? && Awaiting(info, ops, m, |ops|)
  {
    if ops == [] {
      assert false;
    } else {
      var before := ops[..|ops| - 1];
      hide Apply, Run, Awaiting;
      RunOne(info, ops);
      SummarizingSince(Run(info, before), ops[|ops| - 1]);
      if Run(info, before).turn.Summarizing? {
        WaitingSince(info, before);
        var m: nat :| 0 < m <= |before| && before[m - 1].OpBeginCompaction? && Awaiting(info, before, m, |before|);
        WaitingOn(info, ops, before, m);
      } else {
        WaitsNow(info, ops);
      }
    }
  }

  lemma BegunStays(info: Info, ops: seq<Op>, before: seq<Op>, i: nat, m: nat, k: nat)
    requires before <= ops && Begun(info, before, i, m, k)
    ensures Begun(info, ops, i, m, k)
  {
    forall j | 0 <= j <= |before| ensures before[..j] == ops[..j] {}
    hide Run;
    forall j | m <= j <= k ensures Run(info, ops[..j]).turn == Run(info, ops[..m]).turn {
      assert Run(info, before[..j]).turn == Run(info, before[..m]).turn;
    }
  }

  /** Every compaction that took effect was begun, and recorded once its
      summary was there. */
  lemma {:induction false} SummaryBegun(info: Info, ops: seq<Op>, i: nat)
    requires New(info) && i < |Run(info, ops).log| && Effective(Run(info, ops).log[i].payload)
    ensures exists m: nat, k: nat :: Begun(info, ops, i, m, k)
  {
    var n := |ops| - 1;
    var before := ops[..n];
    var s := Run(info, before);
    RunGrows(info, ops, n);
    hide Apply;
    if i < |s.log| {
      assert s.log[i] == Run(info, ops).log[..|s.log|][i];
      SummaryBegun(info, before, i);
      var m: nat, k: nat :| Begun(info, before, i, m, k);
      BegunStays(info, ops, before, i, m, k);
    } else {
      if !ops[n].OpEndCompaction? {
        ApplyNoSummary(s, ops[n]);
        assert false;
      }
      RecordsTurn(s, ops[n], i);
      WaitingSince(info, before);
      var m: nat :| 0 < m <= n && before[m - 1].OpBeginCompaction? && Awaiting(info, before, m, n);
      RecordedAt(info, ops, before, i, m);
    }
  }

  lemma RecordedAt(info: Info, ops: seq<Op>, before: seq<Op>, i: nat, m: nat)
    requires ops != [] && before == ops[..|ops| - 1] && ops[|ops| - 1].OpEndCompaction?
    requires |Run(info, before).log| == i
    requires 0 < m <= |before| && before[m - 1].OpBeginCompaction? && Awaiting(info, before, m, |before|)
    ensures Begun(info, ops, i, m, |before|)
  {
    hide Run;
    forall j | 0 <= j <= |before| ensures before[..j] == ops[..j] {}
    forall j | m <= j <= |before| ensures Run(info, ops[..j]).turn == Run(info, ops[..m]).turn {
      assert Run(info, before[..j]).turn == Run(info, before[..m]).turn;
    }
  }

  /** While the turn waits, nothing is taken from the log and the branch stays
      active. */
  lemma WaitsOnBranch(info: Info, ops: seq<Op>, m: nat, k: nat)
    requires New(info) && 0 < m <= k <= |ops| && Awaiting(info, ops, m, k)
    ensures var s0, s1 := Run(info, ops[..m]), Run(info, ops[..k]);
            s1.turn == s0.turn && s0.turn.Summarizing? && |s0.log| <= |s1.log| && s1.info.branch == s0.info.branch
  {
    hide Run;
    var until := ops[..k];
    assert until[..m] == ops[..m];
    forall j | m <= j < k ensures Run(info, until[..j]).turn != NoTurn {
      assert until[..j] == ops[..j];
      assert Run(info, ops[..j]).turn == Run(info, ops[..m]).turn;
    }
    OneBranchPerTurn(info, until, m);
  }

  /** A summary is recorded on the branch it was begun on, and covers what the
      cut then chosen covers. */
  lemma BegunRecords(info: Info, ops: seq<Op>, i: nat, m: nat, k: nat)
    requires New(info) && Begun(info, ops, i, m, k) && i < |Run(info, ops).log|
    requires Effective(Run(info, ops).log[i].payload)
    ensures var s0, ev := Run(info, ops[..m]), Run(info, ops).log[i];
            && s0.turn.Summarizing? && |s0.log| <= i && s0.info.branch == ev.branch
            && ev.payload.coveredSeq == s0.turn.covered && ev.payload.keptTurns == s0.turn.kept
  {
    hide Apply, Run, Awaiting;
    var s1, s2 := Run(info, ops[..k]), Run(info, ops[..k + 1]);
    WaitsOnBranch(info, ops, m, k);
    assert ops[..k + 1][..k] == ops[..k];
    RunOne(info, ops[..k + 1]);
    RunGrows(info, ops, k + 1);
    EndsCompaction(s1, ops[k]);
    assert s2.log[i] == Run(info, ops).log[..|s2.log|][i];
    RecordsTurn(s1, ops[k], i);
  }

  lemma EndsCompaction(s: State, op: Op)
    requires op.OpEndCompaction? && s.turn.Summarizing?
    ensures |Apply(s, op).log| == |s.log| + 1
  {
  }
}
