/** What a summary is asked for with: the conversation up to the cut, as the
    model sees it under the compaction before. */
module Requests {
  import opened Events
  import opened Context
  import opened Compact
  import opened Model
  import opened Histories
  import opened Invariant
  import opened Turns
  import opened Guarantees
  import Chat

  /** The history a turn on the active branch works with. */
  function ActiveHistory(s: State): seq<Event> {
    HistoryOf(s.log, s.tree, s.info.branch)
  }

  /** A compaction begins here, and covers this much. */
  predicate Begins(s: State, keep: int, covered: int)
    requires keep >= 1
  {
    !s.turn.Summarizing? && BeginCompaction(s, keep).turn.Summarizing? &&
    BeginCompaction(s, keep).turn.covered == covered
  }

  /** What the summarizer is shown of the conversation. */
  function ToSummarize(s: State, covered: int): seq<Event> {
    ContextEvents(UpTo(ActiveHistory(s), covered), LastCompaction(ActiveHistory(s)))
  }

  /** The request: that, and what is asked of it. */
  function Request(s: State, covered: int, instructions: string): seq<Chat.Msg> {
    Chat.Messages(ToSummarize(s, covered)) + [Chat.UserMsg(instructions)]
  }

  /** Whenever a compaction begins, the chat sent for its summary is well formed
      exactly when no call shown to the summarizer is stale, so with distinct
      call ids it always is. */
  lemma SummaryRequestWellFormed(info: Info, ops: seq<Op>, s: State, keep: int, covered: int, instructions: string)
    requires Reached(info, ops, s) && keep >= 1 && Begins(s, keep, covered)
    ensures Chat.WellFormedChat(Request(s, covered, instructions)) <==> Chat.NoStaleCalls(ToSummarize(s, covered))
    ensures DistinctCalls(ActiveHistory(s)) ==> Chat.WellFormedChat(Request(s, covered, instructions))
  {
    hide Run, Core, Good, Chat.WellFormedChat, Chat.Messages, Chat.NoStaleCalls, Begins, DistinctCalls, ContextEvents;
    var h := ActiveHistory(s);
    ReachedCore(info, ops, s);
    ActiveExists(s);
    CodeReadsBranch(s, s.info.branch);
    PrefixChat(h, Covering(h, covered));
    Chat.ThenUser(Chat.Messages(ToSummarize(s, covered)), instructions);
    if DistinctCalls(h) {
      DistinctPrefix(h, Covering(h, covered));
      ShownCallsDistinct(UpTo(h, covered), LastCompaction(h));
      DistinctCallsNeverStale(ToSummarize(s, covered));
    }
  }

  lemma ActiveExists(s: State)
    requires Core(s)
    ensures s.info.branch in s.tree.byID
  {
  }

  lemma DistinctPrefix(h: seq<Event>, n: nat)
    requires DistinctCalls(h) && n <= |h|
    ensures DistinctCalls(h[..n])
  {
  }

  /** The cut the code begins the compaction with. */
  lemma BeginsAt(s: State, keep: int, covered: int)
    requires Core(s) && |s.log| <= MAX_INT64 && keep >= 1 && Begins(s, keep, covered)
    ensures var inTurn, h := s.turn != CompactionRun, ActiveHistory(s);
            var c := ChosenCut(h, CoveredBy(h), keep, if inTurn then 1 else 0, inTurn);
            c.Some? && c.value.covered == covered && BeginCompaction(s, keep).turn.kept == c.value.kept
  {
    hide Core, HistoryOf, ChosenCut;
  }

  /** However a compaction begins, it leaves as many turns as are to be kept, if
      there are more since the newest one; and otherwise all but the first, or
      inside a turn that has gone on for two steps or more, its last step. */
  lemma BegunKeepsTurns(info: Info, ops: seq<Op>, s: State, keep: int, covered: int)
    requires Reached(info, ops, s) && keep >= 1 && Begins(s, keep, covered)
    ensures var h, inTurn := ActiveHistory(s), s.turn != CompactionRun;
            var left, turns := |Compact.Turns(h, covered)|, |Compact.Turns(h, CoveredBy(h))|;
            var kept := BeginCompaction(s, keep).turn.kept;
            if turns > keep then kept == keep == left
            else if inTurn && |Steps(h, CoveredBy(h))| >= 2 then
              kept == 1 && left == 0 && Steps(h, covered) == {covered + 1}
            else kept == left == turns - 1
  {
    hide Run, Core, HistoryOf, Begins, BeginCompaction, ChosenCut, Compact.Turns, Steps;
    var h, inTurn := ActiveHistory(s), s.turn != CompactionRun;
    ReachedCore(info, ops, s);
    BeginsAt(s, keep, covered);
    GoodNumbers(s);
    CutKeepsTurns(h, CoveredBy(h), keep, if inTurn then 1 else 0, inTurn);
  }

  /** Up to a later cut is up to the earlier, and then what lies between. */
  lemma UpToLater(h: seq<Event>, before: int, covered: int)
    requires before <= covered
    ensures var older, rest := UpTo(UpTo(h, covered), before), After(UpTo(h, covered), before);
            older == UpTo(h, before) && UpTo(h, covered) == older + rest
  {
    CoveringPrefix(h, Covering(h, covered), before);
  }

  lemma SomethingBetween(h: seq<Event>, before: int, covered: int, no: int)
    requires Increasing(h) && before < no <= covered && StartsAt(h, no)
    ensures After(UpTo(h, covered), before) != []
  {
    var i :| 0 <= i < |h| && h[i].no == no && h[i].payload.MessageStarted?;
    var n := Covering(h, covered);
    assert i < n;
    CoveringPrefix(h, n, before);
  }

  /** What is shown under a compaction: what lies after it, and before that only
      the latest message it covers. */
  lemma ShownUnder(p: seq<Event>, c: Option<Compaction>)
    requires c.None? ==> UpTo(p, 0) == []
    ensures var before := if c.Some? then c.value.coveredSeq else 0;
            var rest, shown, older := After(p, before), ContextEvents(p, c), UpTo(p, before);
            && |rest| <= |shown| && shown[|shown| - |rest|..] == rest
            && forall i :: 0 <= i < |shown| - |rest| ==>
                 shown[i] in older && OfMessage(shown[i].payload, LastUser(older))
  {
    if c.Some? {
      var older := UpTo(p, c.value.coveredSeq);
      MessageEventsOf(older, LastUser(older));
    }
  }

  /** What the previous summary covers, plus what the summarizer is shown in
      full, is everything the new summary covers: nothing is lost from one
      summary to the next, and a message is covered that was not before. All
      else it is shown is the request those events work on. */
  lemma SummaryRequestCovers(info: Info, ops: seq<Op>, s: State, keep: int, covered: int)
    requires Reached(info, ops, s) && keep >= 1 && Begins(s, keep, covered)
    ensures var h, before, shown := ActiveHistory(s), CoveredBy(ActiveHistory(s)), ToSummarize(s, covered);
            var rest := After(UpTo(h, covered), before);
            && before < covered && UpTo(h, covered) == UpTo(h, before) + rest && rest != []
            && |rest| <= |shown| && shown[|shown| - |rest|..] == rest
            && forall i :: 0 <= i < |shown| - |rest| ==>
                 shown[i] in UpTo(h, before) && OfMessage(shown[i].payload, LastUser(UpTo(h, before)))
  {
    hide Run, Core, Good, ContextEvents, HistoryOf, Begins, ChosenCut, StartsAt, UpTo, After, LastUser, LastCompaction;
    var h, inTurn := ActiveHistory(s), s.turn != CompactionRun;
    var before, least := CoveredBy(h), if inTurn then 1 else 0;
    ReachedCore(info, ops, s);
    ActiveExists(s);
    CodeReadsBranch(s, s.info.branch);
    BeginsAt(s, keep, covered);
    GoodNumbers(s);
    CutsMakeProgress(h, before, keep, least, inTurn);
    CutsCoverAMessage(h, before, keep, least, inTurn);
    var no :| before < no <= covered && StartsAt(h, no);
    SomethingBetween(h, before, covered, no);
    UpToLater(h, before, covered);
    ShownUnder(UpTo(h, covered), LastCompaction(h));
  }

  /** Numbers of a history increase from 1. */
  lemma GoodNumbers(s: State)
    requires Core(s) && |s.log| <= MAX_INT64
    ensures Increasing(ActiveHistory(s))
    ensures forall cap :: UpTo(UpTo(ActiveHistory(s), cap), 0) == []
  {
    hide Good, AllGood;
    ActiveExists(s);
    CodeReadsBranch(s, s.info.branch);
    ActiveWithin(s);
    GoodIs(H(s, s.info.branch));
  }

  lemma GoodIs(h: seq<Event>)
    requires Good(h)
    ensures Increasing(h)
  {
  }
}
