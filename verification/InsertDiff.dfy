/** The unified diff shown before a config file is extended: b is meant to be
    a with lines inserted. */
module InsertDiff {

  import opened Events

  /** Lines of context around a change. */
  const CTX: int := 3

  datatype Line = Line(added: bool, text: string)

  /** A hunk: its header's numbers, counted from 0, and its lines. */
  datatype Hunk = Hunk(aStart: int, aCount: int, bStart: int, bCount: int, lines: seq<Line>)

  /** Lines start to stop of b. */
  datatype Range = Range(start: int, stop: int)

  // ---- Marking ----

  /** How many lines of a the first j lines of b have matched, greedily. */
  function Matched(a: seq<string>, b: seq<string>, j: nat): (i: nat)
    requires j <= |b|
    ensures i <= |a| && i <= j
  {
    if j == 0 then 0
    else
      var i := Matched(a, b, j - 1);
      if i < |a| && a[i] == b[j - 1] then i + 1 else i
  }

  /** Line j of b is taken for a new one. */
  predicate Added(a: seq<string>, b: seq<string>, j: nat)
    requires j < |b|
  {
    Matched(a, b, j + 1) == Matched(a, b, j)
  }

  /** A line that is not new is the next of a. */
  lemma {:induction false} Unchanged(a: seq<string>, b: seq<string>, j: nat)
    requires j < |b|
    ensures Added(a, b, j) ==> Matched(a, b, j + 1) == Matched(a, b, j)
    ensures !Added(a, b, j) ==>
      Matched(a, b, j) < |a| && b[j] == a[Matched(a, b, j)] && Matched(a, b, j + 1) == Matched(a, b, j) + 1
  {
  }

  function LinesOf(a: seq<string>, b: seq<string>, start: nat, stop: nat): seq<Line>
    requires start <= stop <= |b|
    decreases stop
  {
    if start == stop then [] else LinesOf(a, b, start, stop - 1) + [Line(Added(a, b, stop - 1), b[stop - 1])]
  }

  function HunkOf(a: seq<string>, b: seq<string>, r: Range): Hunk
    requires 0 <= r.start <= r.stop <= |b|
  {
    var from, to := Matched(a, b, r.start), Matched(a, b, r.stop);
    Hunk(from, to - from, r.start, r.stop - r.start, LinesOf(a, b, r.start, r.stop))
  }

  // ---- Applying a diff ----

  /** How far a hunk's lines have got: the next line of a, and the output. */
  datatype Progress = At(pos: int, out: seq<string>) | Clash

  /** One line applied: context must be there, and an added line goes in. */
  function ApplyLine(a: seq<string>, p: Progress, l: Line): Progress {
    if p.Clash? then Clash
    else if l.added then At(p.pos, p.out + [l.text])
    else if 0 <= p.pos < |a| && a[p.pos] == l.text then At(p.pos + 1, p.out + [l.text])
    else Clash
  }

  /** A hunk's lines applied from p on. */
  function ApplyLines(a: seq<string>, p: Progress, lines: seq<Line>): Progress {
    if lines == [] then p else ApplyLine(a, ApplyLines(a, p, lines[..|lines| - 1]), lines[|lines| - 1])
  }

  /** What patch does: hunks in order, each where its header says, with as many
      lines as its header says. */
  function PatchFrom(a: seq<string>, pos: int, out: seq<string>, hunks: seq<Hunk>): Option<seq<string>>
    decreases |hunks|
  {
    if !(0 <= pos <= |a|) then None
    else if hunks == [] then Some(out + a[pos..])
    else
      var h := hunks[0];
      if !(pos <= h.aStart <= |a|) || |out| + (h.aStart - pos) != h.bStart then None
      else
        var r := ApplyLines(a, At(h.aStart, out + a[pos..h.aStart]), h.lines);
        if r.Clash? || r.pos != h.aStart + h.aCount || |r.out| != h.bStart + h.bCount then None
        else PatchFrom(a, r.pos, r.out, hunks[1..])
  }

  function Patch(a: seq<string>, hunks: seq<Hunk>): Option<seq<string>> {
    PatchFrom(a, 0, [], hunks)
  }

  // ---- Where the hunks lie ----

  ghost predicate Within(r: Range, k: int) {
    r.start <= k < r.stop
  }

  /** Line k has a new line within CTX lines of it, or is one. */
  ghost predicate Near(a: seq<string>, b: seq<string>, k: nat) {
    exists x: nat :: x < |b| && Added(a, b, x) && x - CTX <= k <= x + CTX
  }

  /** Lines first to last are all near new ones. */
  ghost predicate AllNear(a: seq<string>, b: seq<string>, first: nat, last: int) {
    forall k: nat :: first <= k <= last ==> Near(a, b, k)
  }

  /** A hunk runs from three lines before its first new line to three after
      its last, as far as there are that many. */
  ghost predicate Tight(a: seq<string>, b: seq<string>, r: Range) {
    && 0 <= r.start < r.stop <= |b|
    && exists first: nat, last: nat :: TightAt(a, b, r, first, last)
  }

  ghost predicate TightAt(a: seq<string>, b: seq<string>, r: Range, first: nat, last: nat) {
    && first <= last < |b| && Added(a, b, first) && Added(a, b, last) && AllNear(a, b, first, last)
    && r.start == (if first < CTX then 0 else first - CTX)
    && r.stop == (if last + 1 + CTX < |b| then last + 1 + CTX else |b|)
    && (forall k: nat :: r.start <= k < first ==> !Added(a, b, k))
    && (forall k: nat :: last < k < r.stop ==> !Added(a, b, k))
  }

  /** The hunks are in order with a line between them, and everything new is
      in one. */
  ghost predicate Laid(a: seq<string>, b: seq<string>, ranges: seq<Range>, upTo: int) {
    && (forall i :: 0 <= i < |ranges| ==> Tight(a, b, ranges[i]) && ranges[i].stop <= upTo)
    && (forall i, j :: 0 <= i < j < |ranges| ==> ranges[i].stop < ranges[j].start)
    && (forall k: nat :: k < upTo && k < |b| && Added(a, b, k) ==>
          exists i :: 0 <= i < |ranges| && Within(ranges[i], k))
  }

  function HunksOf(a: seq<string>, b: seq<string>, ranges: seq<Range>): seq<Hunk>
    requires forall i :: 0 <= i < |ranges| ==> 0 <= ranges[i].start <= ranges[i].stop <= |b|
  {
    seq(|ranges|, i requires 0 <= i < |ranges| => HunkOf(a, b, ranges[i]))
  }

  // ---- Greedy marking finds all of a, if it is there ----

  /** a's lines are b's with some left out. */
  predicate IsSubsequence(a: seq<string>, b: seq<string>)
    decreases |b|
  {
    a == [] ||
    (b != [] &&
     var b' := b[..|b| - 1];
     (IsSubsequence(a, b') || (a[|a| - 1] == b[|b| - 1] && IsSubsequence(a[..|a| - 1], b'))))
  }

  lemma {:induction false} GreedyIsBest(a: seq<string>, b: seq<string>, p: nat, j: nat)
    requires p <= |a| && j <= |b|
    ensures IsSubsequence(a[..p], b[..j]) <==> p <= Matched(a, b, j)
    decreases j
  {
    if p > 0 && j > 0 {
      assert b[..j][..j - 1] == b[..j - 1] && a[..p][..p - 1] == a[..p - 1];
      GreedyIsBest(a, b, p, j - 1);
      GreedyIsBest(a, b, p - 1, j - 1);
    }
  }

  lemma {:induction false} GreedyFindsAll(a: seq<string>, b: seq<string>)
    ensures IsSubsequence(a, b) <==> Matched(a, b, |b|) == |a|
  {
    GreedyIsBest(a, b, |a|, |b|);
    assert a[..|a|] == a && b[..|b|] == b;
  }

  // ---- Applying the diff gives b ----

  lemma ApplySnoc(a: seq<string>, p: Progress, lines: seq<Line>, l: Line)
    ensures ApplyLines(a, p, lines + [l]) == ApplyLine(a, ApplyLines(a, p, lines), l)
  {
    assert (lines + [l])[..|lines|] == lines;
  }

  lemma LineApplies(a: seq<string>, b: seq<string>, start: nat, k: nat, out: seq<string>)
    requires start <= k < |b|
    ensures ApplyLine(a, At(Matched(a, b, k), out + b[start..k]), Line(Added(a, b, k), b[k])) ==
            At(Matched(a, b, k + 1), out + b[start..k + 1])
  {
    Unchanged(a, b, k);
    hide Matched, Added;
    assert out + b[start..k + 1] == out + b[start..k] + [b[k]];
  }

  lemma {:induction false} LinesApply(a: seq<string>, b: seq<string>, start: nat, stop: nat, out: seq<string>)
    requires start <= stop <= |b|
    ensures ApplyLines(a, At(Matched(a, b, start), out), LinesOf(a, b, start, stop)) ==
            At(Matched(a, b, stop), out + b[start..stop])
    decreases stop
  {
    hide Matched, ApplyLine, Added;
    if start < stop {
      LinesApply(a, b, start, stop - 1, out);
      var last := Line(Added(a, b, stop - 1), b[stop - 1]);
      ApplySnoc(a, At(Matched(a, b, start), out), LinesOf(a, b, start, stop - 1), last);
      LineApplies(a, b, start, stop - 1, out);
    } else {
      assert out + b[start..stop] == out;
    }
  }

  lemma {:induction false} UnchangedCopies(a: seq<string>, b: seq<string>, s: nat, t: nat)
    requires s <= t <= |b| && forall k: nat :: s <= k < t ==> !Added(a, b, k)
    ensures Matched(a, b, t) == Matched(a, b, s) + (t - s)
    ensures a[Matched(a, b, s)..Matched(a, b, t)] == b[s..t]
    decreases t
  {
    if s < t {
      UnchangedCopies(a, b, s, t - 1);
      Unchanged(a, b, t - 1);
      assert b[s..t] == b[s..t - 1] + [b[t - 1]];
    }
  }

  /** Where the hunks before range m end. */
  ghost function Reached(ranges: seq<Range>, m: nat): int
    requires m <= |ranges|
  {
    if m == 0 then 0 else ranges[m - 1].stop
  }

  /** The hunks' places, without what makes them tight. */
  ghost predicate Placed(b: seq<string>, ranges: seq<Range>) {
    && (forall i :: 0 <= i < |ranges| ==> 0 <= ranges[i].start <= ranges[i].stop <= |b|)
    && (forall i, j :: 0 <= i < j < |ranges| ==> ranges[i].stop < ranges[j].start)
  }

  lemma LaidPlaced(a: seq<string>, b: seq<string>, ranges: seq<Range>, upTo: int)
    requires Laid(a, b, ranges, upTo)
    ensures Placed(b, ranges)
  {
    hide TightAt;
    forall i | 0 <= i < |ranges| ensures 0 <= ranges[i].start <= ranges[i].stop <= |b| {
      assert Tight(a, b, ranges[i]);
    }
  }

  lemma BetweenHunks(b: seq<string>, ranges: seq<Range>, m: nat, k: int, i: int)
    requires Placed(b, ranges) && m <= |ranges| && 0 <= i < |ranges|
    requires Reached(ranges, m) <= k && (m < |ranges| ==> k < ranges[m].start)
    ensures !Within(ranges[i], k)
  {
    if i < m - 1 {
      assert ranges[i].stop < ranges[m - 1].start;
    } else if i > m {
      assert ranges[m].stop < ranges[i].start;
    }
  }

  lemma GapUnchanged(a: seq<string>, b: seq<string>, ranges: seq<Range>, m: nat, k: nat)
    requires Laid(a, b, ranges, |b|) && m <= |ranges| && k < |b|
    requires Reached(ranges, m) <= k && (m < |ranges| ==> k < ranges[m].start)
    ensures !Added(a, b, k)
  {
    hide Tight, Added, Placed, Within, Reached;
    LaidPlaced(a, b, ranges, |b|);
    if Added(a, b, k) {
      var i :| 0 <= i < |ranges| && Within(ranges[i], k);
      BetweenHunks(b, ranges, m, k, i);
    }
  }

  lemma GapCopies(a: seq<string>, b: seq<string>, ranges: seq<Range>, m: nat, to: nat)
    requires Laid(a, b, ranges, |b|) && m <= |ranges|
    requires to == if m < |ranges| then ranges[m].start else |b|
    ensures 0 <= Reached(ranges, m) <= to <= |b|
    ensures Matched(a, b, to) == Matched(a, b, Reached(ranges, m)) + (to - Reached(ranges, m))
    ensures a[Matched(a, b, Reached(ranges, m))..Matched(a, b, to)] == b[Reached(ranges, m)..to]
  {
    hide Laid, Added, Matched;
    LaidPlaced(a, b, ranges, |b|);
    forall k: nat | Reached(ranges, m) <= k < to ensures !Added(a, b, k) {
      GapUnchanged(a, b, ranges, m, k);
    }
    UnchangedCopies(a, b, Reached(ranges, m), to);
  }

  lemma {:induction false} PatchFollows(a: seq<string>, b: seq<string>, ranges: seq<Range>, m: nat, hunks: seq<Hunk>)
    requires Laid(a, b, ranges, |b|) && Placed(b, ranges) && m <= |ranges| && |hunks| == |ranges| - m
    requires forall i :: 0 <= i < |hunks| ==> hunks[i] == HunkOf(a, b, ranges[m + i])
    ensures 0 <= Reached(ranges, m) <= |b|
    ensures PatchFrom(a, Matched(a, b, Reached(ranges, m)), b[..Reached(ranges, m)], hunks) ==
            Some(b + a[Matched(a, b, |b|)..])
    decreases |hunks|
  {
    hide Laid, HunkOf, ApplyLines, Matched;
    if m == |ranges| {
      GapCopies(a, b, ranges, m, |b|);
      Rest(a, b, Reached(ranges, m));
    } else {
      GapCopies(a, b, ranges, m, ranges[m].start);
      forall i | 0 <= i < |hunks| - 1 ensures hunks[1..][i] == HunkOf(a, b, ranges[m + 1 + i]) {
        assert hunks[1..][i] == hunks[i + 1];
      }
      PatchFollows(a, b, ranges, m + 1, hunks[1..]);
      HunkFollows(a, b, Reached(ranges, m), ranges[m], hunks);
    }
  }

  lemma Rest(a: seq<string>, b: seq<string>, s: nat)
    requires s <= |b| && Matched(a, b, |b|) >= Matched(a, b, s)
    requires a[Matched(a, b, s)..Matched(a, b, |b|)] == b[s..|b|]
    ensures b[..s] + a[Matched(a, b, s)..] == b + a[Matched(a, b, |b|)..]
  {
    hide Matched;
    assert a[Matched(a, b, s)..] == a[Matched(a, b, s)..Matched(a, b, |b|)] + a[Matched(a, b, |b|)..];
    assert b[..s] + b[s..|b|] == b;
  }

  lemma {:induction false} HunkFollows(a: seq<string>, b: seq<string>, s: nat, r: Range, hunks: seq<Hunk>)
    requires s <= r.start <= r.stop <= |b| && hunks != [] && hunks[0] == HunkOf(a, b, r)
    requires Matched(a, b, r.start) == Matched(a, b, s) + (r.start - s)
    requires a[Matched(a, b, s)..Matched(a, b, r.start)] == b[s..r.start]
    ensures PatchFrom(a, Matched(a, b, s), b[..s], hunks) ==
            PatchFrom(a, Matched(a, b, r.stop), b[..r.stop], hunks[1..])
  {
    var out := b[..s] + a[Matched(a, b, s)..Matched(a, b, r.start)];
    assert out == b[..r.start];
    LinesApply(a, b, r.start, r.stop, out);
    assert out + b[r.start..r.stop] == b[..r.stop];
  }

  /** Applying the hunks to a gives b, and after it whatever of a greedy
      marking did not find in b. */
  lemma PatchGives(a: seq<string>, b: seq<string>, ranges: seq<Range>)
    requires Laid(a, b, ranges, |b|) && Placed(b, ranges)
    ensures Patch(a, HunksOf(a, b, ranges)) == Some(b + a[Matched(a, b, |b|)..])
  {
    hide Laid, HunkOf, PatchFrom;
    assert b[..0] == [] && Matched(a, b, 0) == 0;
    PatchFollows(a, b, ranges, 0, HunksOf(a, b, ranges));
  }

  // ---- The code ----

  /** Greedy marking, into a fresh array. */
  method Mark(a: seq<string>, b: seq<string>) returns (added: array<bool>)
    ensures fresh(added) && added.Length == |b|
    ensures forall k :: 0 <= k < |b| ==> added[k] == Added(a, b, k)
  {
    added := new bool[|b|](_ => false);
    var i, j := 0, 0;
    while j < |b|
      invariant 0 <= j <= |b| && i == Matched(a, b, j)
      invariant forall k :: 0 <= k < j ==> added[k] == Added(a, b, k)
      invariant forall k :: j <= k < |b| ==> !added[k]
    {
      if i < |a| && a[i] == b[j] {
        i := i + 1;
      } else {
        added[j] := true;
      }
      j := j + 1;
    }
  }

  /** The line of a at or after each line of b. */
  method Number(a: seq<string>, b: seq<string>, added: array<bool>) returns (aLine: array<int>)
    requires added.Length == |b| && forall k :: 0 <= k < |b| ==> added[k] == Added(a, b, k)
    ensures fresh(aLine) && aLine.Length == |b| + 1
    ensures forall k :: 0 <= k <= |b| ==> aLine[k] == Matched(a, b, k)
  {
    hide Matched;
    aLine := new int[|b| + 1](_ => 0);
    NoneMatched(a, b);
    var n, j := 0, 0;
    while j < |b|
      invariant 0 <= j <= |b| && n == Matched(a, b, j)
      invariant forall k :: 0 <= k < j ==> aLine[k] == Matched(a, b, k)
      invariant forall k :: 0 <= k < |b| ==> added[k] == Added(a, b, k)
    {
      aLine[j] := n;
      if !added[j] {
        Unchanged(a, b, j);
        n := n + 1;
      }
      j := j + 1;
    }
    aLine[|b|] := n;
  }

  lemma NoneMatched(a: seq<string>, b: seq<string>)
    ensures Matched(a, b, 0) == 0
  {
  }

  /** No new line lies within 2*CTX lines after a hunk's last. */
  ghost predicate QuietAfter(a: seq<string>, b: seq<string>, end: int) {
    forall k: nat :: end <= k <= end + 2 * CTX && k < |b| ==> !Added(a, b, k)
  }

  /** The end of the hunk that starts with new line j: it goes on while the
      next new line is near enough. */
  method HunkEnd(a: seq<string>, b: seq<string>, added: array<bool>, j: nat) returns (end: nat)
    requires added.Length == |b| && forall k :: 0 <= k < |b| ==> added[k] == Added(a, b, k)
    requires j < |b| && Added(a, b, j)
    ensures j < end <= |b| && Added(a, b, end - 1) && QuietAfter(a, b, end) && AllNear(a, b, j, end - 1)
  {
    hide Added, Near;
    end := j;
    while true
      invariant j <= end < |b| && added[end] && AllNear(a, b, j, end - 1)
      decreases |b| - end
    {
      ghost var group := end;
      while end < |b| && added[end]
        invariant group <= end <= |b| && (end > group ==> added[end - 1]) && AllNear(a, b, j, end - 1)
      {
        NewIsNear(a, b, end);
        end := end + 1;
      }
      var next := end;
      while next < |b| && !added[next] && next - end < 2 * CTX
        invariant end <= next <= |b| && next - end <= 2 * CTX
        invariant forall k :: end <= k < next ==> !added[k]
      {
        next := next + 1;
      }
      if next < |b| && added[next] {
        BetweenIsNear(a, b, end - 1, next);
        end := next;
        continue;
      }
      break;
    }
  }

  lemma NewIsNear(a: seq<string>, b: seq<string>, x: nat)
    requires x < |b| && Added(a, b, x)
    ensures Near(a, b, x)
  {
  }

  /** Between new lines so close every line is near one of them. */
  lemma BetweenIsNear(a: seq<string>, b: seq<string>, x: nat, y: nat)
    requires x < y < |b| && y - x <= 2 * CTX + 1 && Added(a, b, x) && Added(a, b, y)
    ensures forall k: nat :: x <= k <= y ==> Near(a, b, k)
  {
    hide Added;
    forall k: nat | x <= k <= y ensures Near(a, b, k) {
      if k <= x + CTX {
        assert x - CTX <= k;
      } else {
        assert y - CTX <= k;
      }
    }
  }

  method MakeHunk(a: seq<string>, b: seq<string>, added: array<bool>, aLine: array<int>, start: nat, stop: nat)
    returns (h: Hunk)
    requires added.Length == |b| && forall k :: 0 <= k < |b| ==> added[k] == Added(a, b, k)
    requires aLine.Length == |b| + 1 && forall k :: 0 <= k <= |b| ==> aLine[k] == Matched(a, b, k)
    requires start <= stop <= |b|
    ensures h == HunkOf(a, b, Range(start, stop))
  {
    var aCount, lines: seq<Line> := 0, [];
    var k := start;
    while k < stop
      invariant start <= k <= stop
      invariant aCount == Matched(a, b, k) - Matched(a, b, start) && lines == LinesOf(a, b, start, k)
    {
      if !added[k] {
        Unchanged(a, b, k);
        aCount := aCount + 1;
      }
      lines := lines + [Line(added[k], b[k])];
      k := k + 1;
    }
    h := Hunk(aLine[start], aCount, start, stop - start, lines);
  }

  /** Where the loop is: all before j is laid out, and the last hunk's
      neighbourhood holds nothing new. */
  ghost predicate Upto(a: seq<string>, b: seq<string>, ranges: seq<Range>, j: nat) {
    && j <= |b| && Laid(a, b, ranges, j)
    && (ranges != [] ==>
          var stop := ranges[|ranges| - 1].stop;
          && (forall k: nat :: stop <= k <= stop + CTX && k < |b| ==> !Added(a, b, k))
          && (forall k: nat :: stop <= k < j ==> !Added(a, b, k)))
  }

  lemma SkipUnchanged(a: seq<string>, b: seq<string>, ranges: seq<Range>, j: nat)
    requires Upto(a, b, ranges, j) && j < |b| && !Added(a, b, j)
    ensures Upto(a, b, ranges, j + 1)
  {
    hide Tight, Added, Within;
  }

  ghost function NextRange(b: seq<string>, j: nat, end: nat): Range {
    Range(if j < CTX then 0 else j - CTX, if end + CTX < |b| then end + CTX else |b|)
  }

  lemma NextIsTight(a: seq<string>, b: seq<string>, ranges: seq<Range>, j: nat, end: nat)
    requires Upto(a, b, ranges, j) && j < end <= |b| && Added(a, b, j) && Added(a, b, end - 1) && QuietAfter(a, b, end)
    requires AllNear(a, b, j, end - 1)
    ensures var r := NextRange(b, j, end);
            && Tight(a, b, r) && (ranges != [] ==> ranges[|ranges| - 1].stop < r.start)
            && r.start <= j < r.stop
  {
    hide Tight, Added, Within, TightAt, AllNear;
    var r := NextRange(b, j, end);
    assert ranges != [] ==> j > ranges[|ranges| - 1].stop + CTX;
    forall k: nat | r.start <= k < j ensures !Added(a, b, k) {
      if ranges == [] {
        assert Laid(a, b, ranges, j);
      }
    }
    TightHolds(a, b, r, j, end - 1);
  }

  lemma TightHolds(a: seq<string>, b: seq<string>, r: Range, first: nat, last: nat)
    requires 0 <= r.start < r.stop <= |b| && first <= last < |b| && Added(a, b, first) && Added(a, b, last)
    requires r == NextRange(b, first, last + 1) && QuietAfter(a, b, last + 1) && AllNear(a, b, first, last)
    requires forall k: nat :: r.start <= k < first ==> !Added(a, b, k)
    ensures Tight(a, b, r)
  {
    hide Added, AllNear;
    assert TightAt(a, b, r, first, last);
  }

  lemma AddHunk(a: seq<string>, b: seq<string>, ranges: seq<Range>, j: nat, end: nat)
    requires Upto(a, b, ranges, j) && j < end <= |b| && Added(a, b, j) && Added(a, b, end - 1) && QuietAfter(a, b, end)
    requires AllNear(a, b, j, end - 1)
    ensures var r := NextRange(b, j, end); Upto(a, b, ranges + [r], r.stop)
  {
    hide Tight, Added, AllNear;
    var r := NextRange(b, j, end);
    NextIsTight(a, b, ranges, j, end);
    var more := ranges + [r];
    LaidPlaced(a, b, ranges, j);
    forall k: nat | k < r.stop && Added(a, b, k)
      ensures exists i :: 0 <= i < |more| && Within(more[i], k)
    {
      if k < j {
        var i :| 0 <= i < |ranges| && Within(ranges[i], k);
        assert Within(more[i], k);
      } else {
        assert Within(more[|ranges|], k);
      }
    }
    forall i, l | 0 <= i < l < |more| ensures more[i].stop < more[l].start {
      if l == |ranges| && i < |ranges| - 1 {
        assert ranges[i].stop < ranges[|ranges| - 1].start;
      }
    }
  }

  // ---- What the hunks show ----

  ghost predicate Shown(ranges: seq<Range>, k: nat) {
    exists i :: 0 <= i < |ranges| && Within(ranges[i], k)
  }

  ghost predicate NewAt(a: seq<string>, b: seq<string>, x: nat) {
    x < |b| && Added(a, b, x)
  }

  /** A line of b is shown exactly when a new line is within three lines of it:
      no context is left out, and none is shown for nothing. */
  lemma ShownNearNew(a: seq<string>, b: seq<string>, ranges: seq<Range>, k: nat)
    requires Laid(a, b, ranges, |b|) && k < |b|
    ensures Shown(ranges, k) <==> exists x: nat :: NewAt(a, b, x) && x - 3 <= k <= x + 3
  {
    hide Added, Tight;
    if Shown(ranges, k) {
      var i :| 0 <= i < |ranges| && Within(ranges[i], k);
      ShownIsNear(a, b, ranges[i], k);
    }
    forall x: nat | NewAt(a, b, x) && x - 3 <= k <= x + 3 ensures Shown(ranges, k) {
      var i :| 0 <= i < |ranges| && Within(ranges[i], x);
      NearIsShown(a, b, ranges[i], x, k);
    }
  }

  lemma ShownIsNear(a: seq<string>, b: seq<string>, r: Range, k: nat)
    requires Tight(a, b, r) && Within(r, k)
    ensures exists x: nat :: NewAt(a, b, x) && x - 3 <= k <= x + 3
  {
    hide Added;
    var first: nat, last: nat :| TightAt(a, b, r, first, last);
    if k < first {
      assert NewAt(a, b, first);
    } else if k > last {
      assert NewAt(a, b, last);
    } else {
      assert Near(a, b, k);
      var x: nat :| x < |b| && Added(a, b, x) && x - CTX <= k <= x + CTX;
      assert NewAt(a, b, x);
    }
  }

  lemma NearIsShown(a: seq<string>, b: seq<string>, r: Range, x: nat, k: nat)
    requires Tight(a, b, r) && Within(r, x) && NewAt(a, b, x) && x - 3 <= k <= x + 3 && k < |b|
    ensures Within(r, k)
  {
    hide Added, AllNear;
    var first: nat, last: nat :| TightAt(a, b, r, first, last);
    assert first <= x <= last;
  }

  // ---- Every hunk has lines of a ----

  lemma {:induction false} MatchedGrows(a: seq<string>, b: seq<string>, s: nat, t: nat)
    requires s <= t <= |b|
    ensures Matched(a, b, s) <= Matched(a, b, t)
    decreases t
  {
    if s < t {
      MatchedGrows(a, b, s, t - 1);
    }
  }

  lemma OldLineCounts(a: seq<string>, b: seq<string>, r: Range, k: nat)
    requires 0 <= r.start <= k < r.stop <= |b| && !Added(a, b, k)
    ensures HunkOf(a, b, r).aCount >= 1
  {
    hide Matched;
    MatchedGrows(a, b, r.start, k);
    Unchanged(a, b, k);
    MatchedGrows(a, b, k + 1, r.stop);
  }

  lemma {:induction false} AllNew(a: seq<string>, b: seq<string>, j: nat)
    requires j <= |b| && forall k: nat :: k < j ==> Added(a, b, k)
    ensures Matched(a, b, j) == 0
  {
    if j > 0 {
      AllNew(a, b, j - 1);
      assert Added(a, b, j - 1);
    }
  }

  /** A hunk without a line of a would be the whole of b, and all new. So once
      anything of a is found in b, every hunk's header counts a line of a, and
      where a header without any belongs does not matter. */
  lemma HunkHasOldLine(a: seq<string>, b: seq<string>, r: Range)
    requires Tight(a, b, r) && Matched(a, b, |b|) > 0
    ensures HunkOf(a, b, r).aCount >= 1
  {
    hide Matched, Added, HunkOf;
    var first: nat, last: nat :| TightAt(a, b, r, first, last);
    if r.start < first {
      OldLineCounts(a, b, r, r.start);
    } else if last + 1 < r.stop {
      OldLineCounts(a, b, r, last + 1);
    } else {
      if forall k: nat :: k < |b| ==> Added(a, b, k) {
        AllNew(a, b, |b|);
      }
      var k: nat :| k < |b| && !Added(a, b, k);
      OldLineCounts(a, b, r, k);
    }
  }

  lemma HunksHaveOldLines(a: seq<string>, b: seq<string>, ranges: seq<Range>)
    requires Laid(a, b, ranges, |b|) && Placed(b, ranges)
    ensures a != [] && IsSubsequence(a, b) ==> forall i :: 0 <= i < |ranges| ==> HunkOf(a, b, ranges[i]).aCount >= 1
  {
    hide Tight, HunkOf, Matched, IsSubsequence;
    if a != [] && IsSubsequence(a, b) {
      GreedyFindsAll(a, b);
      forall i | 0 <= i < |ranges| ensures HunkOf(a, b, ranges[i]).aCount >= 1 {
        HunkHasOldLine(a, b, ranges[i]);
      }
    }
  }

  /** The hunks from a to b, and the lines of b each is made of. */
  method LayOut(a: seq<string>, b: seq<string>) returns (hunks: seq<Hunk>, ghost ranges: seq<Range>)
    ensures Laid(a, b, ranges, |b|) && Placed(b, ranges) && hunks == HunksOf(a, b, ranges)
  {
    hide Laid, Added, TightAt, QuietAfter, AllNear;
    var added := Mark(a, b);
    var aLine := Number(a, b, added);
    hunks, ranges := [], [];
    StartsLaid(a, b);
    var j := 0;
    while j < |b|
      invariant forall k :: 0 <= k < |b| ==> added[k] == Added(a, b, k)
      invariant forall k :: 0 <= k <= |b| ==> aLine[k] == Matched(a, b, k)
      invariant Upto(a, b, ranges, j) && Placed(b, ranges) && hunks == HunksOf(a, b, ranges)
      decreases |b| - j
    {
      if !added[j] {
        SkipUnchanged(a, b, ranges, j);
        j := j + 1;
        continue;
      }
      var end := HunkEnd(a, b, added, j);
      var start := if j < CTX then 0 else j - CTX;
      var stop := if end + CTX < |b| then end + CTX else |b|;
      AddHunk(a, b, ranges, j, end);
      LaidPlaced(a, b, ranges + [Range(start, stop)], stop);
      var h := MakeHunk(a, b, added, aLine, start, stop);
      hunks, ranges := hunks + [h], ranges + [Range(start, stop)];
      j := stop;
    }
  }

  /** The hunks from a to b. Applied to a they give b, followed by what is left
      of a; that is b itself exactly when a's lines are b's with some left
      out, and then every hunk has a line of a. They show the lines of b within
      three lines of a new one. */
  method Diff(a: seq<string>, b: seq<string>) returns (hunks: seq<Hunk>, ghost ranges: seq<Range>)
    ensures Laid(a, b, ranges, |b|) && Placed(b, ranges) && hunks == HunksOf(a, b, ranges)
    ensures Patch(a, hunks) == Some(b + a[Matched(a, b, |b|)..])
    ensures Patch(a, hunks) == Some(b) <==> IsSubsequence(a, b)
    ensures a != [] && IsSubsequence(a, b) ==> forall i :: 0 <= i < |hunks| ==> hunks[i].aCount >= 1
    ensures forall k: nat :: k < |b| ==>
              (Shown(ranges, k) <==> exists x: nat :: NewAt(a, b, x) && x - 3 <= k <= x + 3)
  {
    hide Laid, Shown, NewAt, Patch, HunkOf, Matched, IsSubsequence;
    hunks, ranges := LayOut(a, b);
    PatchGives(a, b, ranges);
    LeftOver(a, b);
    HunksHaveOldLines(a, b, ranges);
    forall k: nat | k < |b| ensures Shown(ranges, k) <==> exists x: nat :: NewAt(a, b, x) && x - 3 <= k <= x + 3 {
      ShownNearNew(a, b, ranges, k);
    }
  }

  lemma LeftOver(a: seq<string>, b: seq<string>)
    ensures b + a[Matched(a, b, |b|)..] == b <==> IsSubsequence(a, b)
  {
    hide Matched, IsSubsequence;
    GreedyFindsAll(a, b);
    assert |b + a[Matched(a, b, |b|)..]| == |b| + (|a| - Matched(a, b, |b|));
  }

  lemma StartsLaid(a: seq<string>, b: seq<string>)
    ensures Upto(a, b, [], 0)
  {
  }
}
