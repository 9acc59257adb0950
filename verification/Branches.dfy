/** Conversation branches of one session, worked out from its event log. */
module Branches {
  import opened Events

  datatype Branch = Branch(id: Id, parent: Id, forkSeq: int, kind: BranchKind, messageId: Id, born: int)

  /** The value of a branch tree: the branches and the order they were made in. */
  datatype TreeValue = TreeValue(byID: map<Id, Branch>, order: seq<Id>)

  const ROOT_BRANCH := Branch(ROOT, ROOT, 0, NoKind, Empty, 0)

  const UNFORKED := TreeValue(map[ROOT := ROOT_BRANCH], [ROOT])

  // ---- What the operations compute ----

  function Added(t: TreeValue, ev: Event): TreeValue {
    if !ev.payload.BranchCreated? || ev.payload.branchId == ROOT || ev.payload.branchId in t.byID then t
    else
      var c := ev.payload;
      TreeValue(t.byID[c.branchId := Branch(c.branchId, c.parent, c.forkSeq, c.branchKind, c.messageId, ev.no)],
                t.order + [c.branchId])
  }

  /** The tree a log records: every event added in order. */
  function TreeOf(log: seq<Event>): TreeValue {
    if log == [] then UNFORKED else Added(TreeOf(log[..|log| - 1]), log[|log| - 1])
  }

  function AncestryFrom(t: TreeValue, id: Id, seen: set<Id>): seq<Id>
    decreases t.byID.Keys - seen
  {
    if id !in t.byID || id in seen then [ROOT]
    else if id == ROOT then [ROOT]
    else [id] + AncestryFrom(t, t.byID[id].parent, seen + {id})
  }

  function AncestryOf(t: TreeValue, id: Id): seq<Id> {
    AncestryFrom(t, id, {})
  }

  function ForkSeqOf(t: TreeValue, id: Id): int {
    if id in t.byID then t.byID[id].forkSeq else 0
  }

  /** A path: per branch on it, the last seq it contributes. */
  type Path = map<Id, int>

  function Limits(t: TreeValue, ancestry: seq<Id>, upTo: int): Path {
    if ancestry == [] then map[]
    else Limits(t, ancestry[1..], ForkSeqOf(t, ancestry[0]))[ancestry[0] := upTo]
  }

  function PathOf(t: TreeValue, id: Id): Path {
    Limits(t, AncestryOf(t, id), MAX_INT64)
  }

  predicate Includes(p: Path, branch: Id, seqNo: int) {
    branch in p && seqNo <= p[branch]
  }

  predicate Contains(p: Path, ev: Event) {
    SessionWide(ev.payload) || Includes(p, ev.branch, ev.no)
  }

  function Filtered(p: Path, evs: seq<Event>): seq<Event> {
    if evs == [] then []
    else
      var ev := evs[|evs| - 1];
      Filtered(p, evs[..|evs| - 1]) + if Contains(p, ev) then [ev] else []
  }

  // ---- The code ----

  /** Whatever the tree holds, an ancestry has no repeats, so a path has one
      limit per branch and building it terminates. */
  lemma {:induction false} AncestryDistinct(t: TreeValue, id: Id, seen: set<Id>)
    requires ROOT !in seen
    ensures var a := AncestryFrom(t, id, seen);
            && |a| > 0 && a[|a| - 1] == ROOT
            && (forall i :: 0 <= i < |a| ==> a[i] !in seen)
            && (forall i, j :: 0 <= i < j < |a| ==> a[i] != a[j])
    decreases t.byID.Keys - seen
  {
    if id in t.byID && id !in seen && id != ROOT {
      AncestryDistinct(t, t.byID[id].parent, seen + {id});
    }
  }

  lemma {:induction false} LimitsAt(t: TreeValue, a: seq<Id>, upTo: int)
    requires forall i, j :: 0 <= i < j < |a| ==> a[i] != a[j]
    ensures var p := Limits(t, a, upTo);
            && (forall x :: x in p <==> x in a)
            && (forall i :: 0 <= i < |a| ==> p[a[i]] == if i == 0 then upTo else ForkSeqOf(t, a[i - 1]))
  {
    if a != [] {
      var rest := Limits(t, a[1..], ForkSeqOf(t, a[0]));
      LimitsAt(t, a[1..], ForkSeqOf(t, a[0]));
      assert a == [a[0]] + a[1..];
      assert Limits(t, a, upTo) == rest[a[0] := upTo];
      forall i | 0 < i < |a|
        ensures a[i] in rest && rest[a[i]] == ForkSeqOf(t, a[i - 1])
      {
        assert a[1..][i - 1] == a[i];
        if i > 1 {
          assert a[1..][i - 2] == a[i - 1];
        }
      }
    }
  }

  lemma PathAt(t: TreeValue, id: Id)
    ensures var a, p := AncestryOf(t, id), PathOf(t, id);
            && (forall x :: x in p <==> x in a)
            && (forall i :: 0 <= i < |a| ==> p[a[i]] == if i == 0 then MAX_INT64 else ForkSeqOf(t, a[i - 1]))
  {
    AncestryDistinct(t, id, {});
    LimitsAt(t, AncestryOf(t, id), MAX_INT64);
  }

  /** One more step up, after out. */
  lemma AncestryStep(t: TreeValue, out: seq<Id>, at: Id, seen: set<Id>)
    ensures out + AncestryFrom(t, at, seen) ==
            if at in t.byID && at !in seen && at != ROOT
            then (out + [at]) + AncestryFrom(t, t.byID[at].parent, seen + {at})
            else out + [ROOT]
    ensures at in t.byID && at !in seen ==> t.byID.Keys - (seen + {at}) < t.byID.Keys - seen
  {
    if at in t.byID && at !in seen && at != ROOT {
      var rest := AncestryFrom(t, t.byID[at].parent, seen + {at});
      assert out + ([at] + rest) == (out + [at]) + rest;
    }
    if at in t.byID && at !in seen {
      assert at in t.byID.Keys - seen;
    }
  }

  lemma AncestryStarts(t: TreeValue, id: Id)
    ensures AncestryOf(t, id) == [] + AncestryFrom(t, id, {})
  {
  }

  lemma PathStep(t: TreeValue, id: Id, i: nat)
    requires i < |AncestryOf(t, id)|
    ensures var a, p := AncestryOf(t, id), PathOf(t, id);
            a[i] in p && p[a[i]] == if i == 0 then MAX_INT64 else ForkSeqOf(t, a[i - 1])
  {
    hide AncestryOf, ForkSeqOf;
    PathAt(t, id);
    var a, p := AncestryOf(t, id), PathOf(t, id);
    assert a[i] in a;
    if i == 0 {
      assert p == Limits(t, a[1..], ForkSeqOf(t, a[0]))[a[0] := MAX_INT64];
    } else {
      assert p[a[i]] == ForkSeqOf(t, a[i - 1]);
    }
  }

  /** A session's branches, as the server keeps them. */
  class Tree {
    var byID: map<Id, Branch>
    var order: seq<Id>

    function Value(): TreeValue
      reads this
    {
      TreeValue(byID, order)
    }

    constructor (events: seq<Event>)
      ensures Value() == TreeOf(events)
    {
      byID, order := map[ROOT := ROOT_BRANCH], [ROOT];
      new;
      var i := 0;
      while i < |events|
        invariant 0 <= i <= |events|
        invariant Value() == TreeOf(events[..i])
      {
        assert events[..i + 1][..i] == events[..i];
        Add(events[i]);
        i := i + 1;
      }
      assert events[..i] == events;
    }

    method Add(ev: Event)
      modifies this
      ensures Value() == Added(old(Value()), ev)
    {
      if !ev.payload.BranchCreated? || ev.payload.branchId == ROOT {
        return;
      }
      var c := ev.payload;
      if c.branchId in byID {
        return;
      }
      byID := byID[c.branchId := Branch(c.branchId, c.parent, c.forkSeq, c.branchKind, c.messageId, ev.no)];
      order := order + [c.branchId];
    }

    method Get(id: Id) returns (b: Branch, ok: bool)
      ensures ok <==> id in byID
      ensures ok ==> b == byID[id]
    {
      if id in byID {
        return byID[id], true;
      }
      return ROOT_BRANCH, false;
    }

    method Ancestry(id: Id) returns (out: seq<Id>)
      ensures out == AncestryOf(Value(), id)
    {
      hide AncestryFrom, AncestryOf;
      AncestryStarts(Value(), id);
      out := [];
      var seen: set<Id> := {};
      var at := id;
      while true
        invariant AncestryOf(Value(), id) == out + AncestryFrom(Value(), at, seen)
        decreases byID.Keys - seen
      {
        AncestryStep(Value(), out, at, seen);
        if at !in byID || at in seen {
          return out + [ROOT];
        }
        seen := seen + {at};
        out := out + [at];
        if at == ROOT {
          return out;
        }
        at := byID[at].parent;
      }
    }

    method Path(id: Id) returns (p: Path)
      ensures p == PathOf(Value(), id)
    {
      hide AncestryOf, AncestryFrom, Limits, PathOf, PartOf;
      p := map[];
      var upTo := MAX_INT64;
      var a := Ancestry(id);
      ghost var want := PathOf(Value(), id);
      PathAt(Value(), id);
      NothingYet(want);
      var i := 0;
      while i < |a|
        invariant 0 <= i <= |a|
        invariant upTo == if i == 0 then MAX_INT64 else ForkSeqOf(Value(), a[i - 1])
        invariant PartOf(p, want, a[..i])
      {
        PathStep(Value(), id, i);
        OneMore(p, want, a, i, upTo);
        p := p[a[i] := upTo];
        upTo := if a[i] in byID then byID[a[i]].forkSeq else 0;
        i := i + 1;
      }
      assert a[..i] == a;
      WholePath(p, want, a);
    }
  }

  /** p holds what want says of the branches in a. */
  ghost predicate PartOf(p: Path, want: Path, a: seq<Id>) {
    (forall x :: x in p <==> x in a) && (forall x :: x in p ==> x in want && p[x] == want[x])
  }

  lemma NothingYet(want: Path)
    ensures PartOf(map[], want, [])
  {
  }

  lemma OneMore(p: Path, want: Path, a: seq<Id>, i: nat, upTo: int)
    requires i < |a| && PartOf(p, want, a[..i]) && a[i] in want && want[a[i]] == upTo
    ensures PartOf(p[a[i] := upTo], want, a[..i + 1])
  {
    assert a[..i + 1] == a[..i] + [a[i]];
  }

  lemma WholePath(p: Path, want: Path, a: seq<Id>)
    requires PartOf(p, want, a) && forall x :: x in want <==> x in a
    ensures p == want
  {
  }

  method Filter(p: Path, events: seq<Event>) returns (out: seq<Event>)
    ensures out == Filtered(p, events)
  {
    out := [];
    var i := 0;
    while i < |events|
      invariant 0 <= i <= |events|
      invariant out == Filtered(p, events[..i])
    {
      assert events[..i + 1][..i] == events[..i];
      if Contains(p, events[i]) {
        out := out + [events[i]];
      }
      i := i + 1;
    }
    assert events[..i] == events;
  }

  // ---- What the tree says of its log ----

  predicate CreatesBranch(p: Payload, id: Id) {
    p.BranchCreated? && p.branchId == id
  }

  /** Event i makes branch id: the first that says so counts. */
  ghost predicate Makes(log: seq<Event>, i: int, id: Id) {
    && 0 <= i < |log| && id != ROOT && CreatesBranch(log[i].payload, id)
    && forall j :: 0 <= j < i ==> !CreatesBranch(log[j].payload, id)
  }

  lemma MakesSnoc(log: seq<Event>, i: int, id: Id)
    requires log != []
    ensures var init := log[..|log| - 1];
            Makes(log, i, id) <==>
            Makes(init, i, id) ||
            (i == |log| - 1 && id != ROOT && CreatesBranch(log[i].payload, id) &&
             forall j :: 0 <= j < |init| ==> !CreatesBranch(init[j].payload, id))
  {
    var init := log[..|log| - 1];
    assert forall j :: 0 <= j < |init| ==> init[j] == log[j];
  }

  lemma {:induction false} MadeOrNot(log: seq<Event>, id: Id)
    requires id != ROOT
    ensures (exists i :: Makes(log, i, id)) <==> exists j :: 0 <= j < |log| && CreatesBranch(log[j].payload, id)
  {
    if log != [] {
      var init := log[..|log| - 1];
      MadeOrNot(init, id);
      forall i ensures Makes(log, i, id) <==>
        Makes(init, i, id) ||
        (i == |log| - 1 && CreatesBranch(log[i].payload, id) &&
         forall j :: 0 <= j < |init| ==> !CreatesBranch(init[j].payload, id))
      {
        MakesSnoc(log, i, id);
      }
      if j :| 0 <= j < |log| && CreatesBranch(log[j].payload, id) {
        if exists k :: 0 <= k < |init| && CreatesBranch(init[k].payload, id) {
          var i :| Makes(init, i, id);
          assert Makes(log, i, id);
        } else {
          assert j == |log| - 1 && Makes(log, j, id);
        }
      }
    }
  }

  /** The tree holds the root and the branches the log makes, each as the first
      event that makes it says. */
  lemma {:induction false} TreeIs(log: seq<Event>, id: Id)
    ensures var t := TreeOf(log);
            && ROOT in t.byID && t.byID[ROOT] == ROOT_BRANCH
            && (id in t.byID <==> id == ROOT || exists i :: Makes(log, i, id))
            && (forall i :: Makes(log, i, id) ==>
                  id in t.byID &&
                  var p := log[i].payload;
                  t.byID[id] == Branch(id, p.parent, p.forkSeq, p.branchKind, p.messageId, log[i].no))
  {
    if log == [] {
      assert forall i :: !Makes(log, i, id);
    } else {
      var init, ev := log[..|log| - 1], log[|log| - 1];
      TreeIs(init, id);
      hide Makes, TreeOf;
      TreeSnoc(log);
      forall i ensures Makes(log, i, id) <==>
        Makes(init, i, id) ||
        (i == |log| - 1 && id != ROOT && CreatesBranch(ev.payload, id) &&
         forall j :: 0 <= j < |init| ==> !CreatesBranch(init[j].payload, id))
      {
        MakesSnoc(log, i, id);
      }
      forall i | Makes(init, i, id) ensures 0 <= i < |init| && init[i] == log[i] {
        MakesWithin(init, i, id);
      }
      if id != ROOT {
        MadeOrNot(init, id);
      }
    }
  }

  lemma TreeSnoc(log: seq<Event>)
    requires log != []
    ensures TreeOf(log) == Added(TreeOf(log[..|log| - 1]), log[|log| - 1])
  {
  }

  lemma MakesWithin(log: seq<Event>, i: int, id: Id)
    requires Makes(log, i, id)
    ensures 0 <= i < |log| && id != ROOT
  {
  }

  /** It lists them in the order they were made, the root first. */
  lemma {:induction false} TreeOrder(log: seq<Event>)
    ensures var t := TreeOf(log);
            && t.order != [] && t.order[0] == ROOT && (forall id :: id in t.order <==> id in t.byID)
            && (forall x, y :: 0 <= x < y < |t.order| ==> MadeBefore(log, t.order[x], t.order[y]))
  {
    if log != [] {
      var init, ev := log[..|log| - 1], log[|log| - 1];
      TreeOrder(init);
      hide MadeBefore, TreeOf;
      TreeSnoc(log);
      var t, t' := TreeOf(init), TreeOf(log);
      forall x, y | 0 <= x < y < |t'.order| ensures MadeBefore(log, t'.order[x], t'.order[y]) {
        if y < |t.order| {
          assert t'.order[x] == t.order[x] && t'.order[y] == t.order[y];
          BeforeStays(log, t.order[x], t.order[y]);
        } else {
          assert t'.order[x] == t.order[x] && t.order[x] in t.order;
          TreeIs(init, t.order[x]);
          TreeIs(init, ev.payload.branchId);
          LastMade(log, t.order[x]);
        }
      }
    }
  }

  /** Branch a is the root, or was made before b, another. */
  ghost predicate MadeBefore(log: seq<Event>, a: Id, b: Id) {
    a != b && (a != ROOT ==> exists i, j :: i < j && Makes(log, i, a) && Makes(log, j, b))
  }

  lemma MakesStays(log: seq<Event>, i: int, id: Id)
    requires log != [] && Makes(log[..|log| - 1], i, id)
    ensures Makes(log, i, id)
  {
    MakesSnoc(log, i, id);
  }

  lemma BeforeStays(log: seq<Event>, a: Id, b: Id)
    requires log != [] && MadeBefore(log[..|log| - 1], a, b)
    ensures MadeBefore(log, a, b)
  {
    hide Makes;
    var init := log[..|log| - 1];
    if a != ROOT {
      var i, j :| i < j && Makes(init, i, a) && Makes(init, j, b);
      MakesStays(log, i, a);
      MakesStays(log, j, b);
    }
  }

  lemma LastMade(log: seq<Event>, a: Id)
    requires log != [] && log[|log| - 1].payload.BranchCreated?
    requires var init, b := log[..|log| - 1], log[|log| - 1].payload.branchId;
             && b != ROOT && b != a && (a == ROOT || exists i :: Makes(init, i, a)) && !exists i :: Makes(init, i, b)
    ensures MadeBefore(log, a, log[|log| - 1].payload.branchId)
  {
    var init, b := log[..|log| - 1], log[|log| - 1].payload.branchId;
    MadeOrNot(init, b);
    MakesSnoc(log, |log| - 1, b);
    if a != ROOT {
      var i :| Makes(init, i, a);
      MakesStays(log, i, a);
      assert i < |log| - 1 && Makes(log, |log| - 1, b);
    }
  }

  // ---- What a well-formed tree promises ----

  /** Every branch but the root forks from a branch of the tree, at a point
      after its parent was made and before it was made itself. */
  ghost predicate WellFormed(t: TreeValue) {
    ROOT in t.byID && t.byID[ROOT].born == 0 && forall id :: Forks(t, id)
  }

  ghost predicate Forks(t: TreeValue, id: Id) {
    id in t.byID && id != ROOT ==>
      var b := t.byID[id];
      b.parent in t.byID && 0 <= t.byID[b.parent].born <= b.forkSeq < b.born
  }

  /** Whether the event numbered no, recorded on branch b, belongs to branch
      a's history: walk up from a, never past a fork point. This is the
      definition the code's paths are judged by. */
  ghost predicate OnPath(t: TreeValue, a: Id, b: Id, no: int)
    requires WellFormed(t) && a in t.byID
    decreases t.byID[a].born
  {
    assert Forks(t, a);
    a == b || (a != ROOT && no <= t.byID[a].forkSeq && OnPath(t, t.byID[a].parent, b, no))
  }

  /** The code's path and the walk agree on every int64. */
  lemma {:induction false} LimitsMeanOnPath(t: TreeValue, a: Id, seen: set<Id>, upTo: int, b: Id, no: int)
    requires WellFormed(t) && a in t.byID
    requires forall x :: x in seen ==> x in t.byID && t.byID[x].born > t.byID[a].born
    requires a != ROOT ==> t.byID[a].born <= upTo
    ensures Includes(Limits(t, AncestryFrom(t, a, seen), upTo), b, no) <==> no <= upTo && OnPath(t, a, b, no)
    decreases t.byID[a].born
  {
    assert Forks(t, a);
    if a == ROOT {
      assert Limits(t, [ROOT], upTo) == Limits(t, [ROOT][1..], ForkSeqOf(t, ROOT))[ROOT := upTo];
    } else {
      var parent, fork := t.byID[a].parent, t.byID[a].forkSeq;
      var rest := AncestryFrom(t, parent, seen + {a});
      LimitsMeanOnPath(t, parent, seen + {a}, fork, b, no);
      assert ([a] + rest)[1..] == rest;
      assert Limits(t, [a] + rest, upTo) == Limits(t, rest, fork)[a := upTo];
    }
  }

  lemma PathMeansOnPath(t: TreeValue, a: Id, b: Id, no: int)
    requires WellFormed(t) && a in t.byID && no <= MAX_INT64
    requires a != ROOT ==> t.byID[a].born <= MAX_INT64
    ensures Includes(PathOf(t, a), b, no) <==> OnPath(t, a, b, no)
  {
    LimitsMeanOnPath(t, a, {}, MAX_INT64, b, no);
  }

  /** Limits strictly decrease away from the branch. */
  lemma {:induction false} LimitsDecrease(t: TreeValue, a: Id, seen: set<Id>, i: nat, j: nat)
    requires WellFormed(t) && a in t.byID
    requires forall x :: x in seen ==> x in t.byID && t.byID[x].born > t.byID[a].born
    requires i < j < |AncestryFrom(t, a, seen)|
    ensures var l := AncestryFrom(t, a, seen);
            l[i] in t.byID && l[j] in t.byID &&
              ForkSeqOf(t, l[j - 1]) < (if i == 0 then t.byID[a].born else ForkSeqOf(t, l[i - 1]))
    decreases t.byID[a].born
  {
    var l := AncestryFrom(t, a, seen);
    assert Forks(t, a);
    if a != ROOT {
      var parent := t.byID[a].parent;
      var rest := AncestryFrom(t, parent, seen + {a});
      assert l == [a] + rest;
      if i > 0 {
        LimitsDecrease(t, parent, seen + {a}, i - 1, j - 1);
      } else if j > 1 {
        LimitsDecrease(t, parent, seen + {a}, 0, j - 1);
      } else {
        assert rest[0] == parent;
      }
    }
  }

  /** An event's branch was made before the event. */
  ghost predicate Placed(t: TreeValue, ev: Event) {
    ev.branch in t.byID && t.byID[ev.branch].born < ev.no
  }

  /** If any event numbered q of branch p belongs to a's history, then a and p
      have the same history up to q. */
  lemma {:induction false} PathsAgree(t: TreeValue, a: Id, p: Id, q: int, ev: Event)
    requires WellFormed(t) && a in t.byID && p in t.byID && OnPath(t, a, p, q)
    requires Placed(t, ev) && ev.no <= q
    ensures OnPath(t, a, ev.branch, ev.no) <==> OnPath(t, p, ev.branch, ev.no)
    decreases t.byID[a].born
  {
    if a != p {
      assert Forks(t, a);
      PathsAgree(t, t.byID[a].parent, p, q, ev);
    }
  }

  /** Adding a branch changes no existing branch's history. */
  lemma {:induction false} GrowthKeepsPaths(t: TreeValue, t': TreeValue, a: Id, b: Id, no: int)
    requires WellFormed(t) && WellFormed(t') && a in t.byID
    requires forall x :: x in t.byID ==> x in t'.byID && t'.byID[x] == t.byID[x]
    ensures OnPath(t', a, b, no) <==> OnPath(t, a, b, no)
    decreases t.byID[a].born
  {
    if a != b && a != ROOT {
      assert Forks(t, a);
      GrowthKeepsPaths(t, t', t.byID[a].parent, b, no);
    }
  }

  /** An event recorded after a branch was made belongs to that branch's
      history only if it was recorded on it. */
  lemma NewEventsStay(t: TreeValue, a: Id, b: Id, no: int)
    requires WellFormed(t) && a in t.byID && t.byID[a].born < no
    ensures OnPath(t, a, b, no) <==> a == b
  {
    assert Forks(t, a);
  }

  lemma {:induction false} EarlierOnPath(t: TreeValue, a: Id, b: Id, no: int, no': int)
    requires WellFormed(t) && a in t.byID && OnPath(t, a, b, no) && no' <= no
    ensures OnPath(t, a, b, no')
    decreases t.byID[a].born
  {
    if a != b {
      assert Forks(t, a);
      EarlierOnPath(t, t.byID[a].parent, b, no, no');
    }
  }
}
